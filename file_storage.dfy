/**
 * The local-filesystem backend. The storage directory is the field `files`,
 * from a file's name (directly under the directory) to its bytes; resolving
 * a name against the directory is taken as the identity on flat names.
 */
module FileStorage {
  import opened Storage
  import opened Batch

  class FileStorageService {
    /** The regular files of the storage directory. */
    var files: Store

    /** The service over a directory that already holds `initial`. */
    constructor (initial: Store)
      ensures files == initial
    {
      files := initial;
    }

    /**
     * Stores one file under a fresh name `token + extension`, replacing any
     * file of that name. `ioError` is whether copying the bytes raises an
     * IOException; a failed copy is taken to write nothing, although a real
     * one can leave a partial file behind.
     */
    method Upload(file: Part, token: string, ioError: bool) returns (r: Result<string>)
      modifies this
      ensures file.IsEmpty() ==>
        r == Err(IllegalArgument(FileIsEmpty)) && files == old(files)
      ensures !file.IsEmpty() && !IsImageType(file.contentType) ==>
        r == Err(IllegalArgument(OnlyImages)) && files == old(files)
      ensures Rejection(file).None? && ioError ==>
        r == Err(Runtime("Failed to store file")) && files == old(files)
      ensures Rejection(file).None? && !ioError ==>
        r == Ok(SavedFilename(token, file.originalFilename)) &&
        files == old(files)[r.value := file.content]
    {
      if file.IsEmpty() {
        return Err(IllegalArgument(FileIsEmpty));
      }
      var contentType := file.contentType;
      if contentType.None? || !StartsWith(contentType.value, ImagePrefix) {
        return Err(IllegalArgument(OnlyImages));
      }
      var extension := Extension(file.originalFilename);
      var savedFilename := token + extension;
      if ioError {
        return Err(Runtime("Failed to store file"));
      }
      files := files[savedFilename := file.content];
      return Ok(savedFilename);
    }

    /** The names of all stored files, each once, in no promised order. */
    method ListAll() returns (names: seq<string>)
      ensures forall n :: n in names <==> n in files
      ensures forall i, j :: 0 <= i < j < |names| ==> names[i] != names[j]
      ensures |names| == |files|
    {
      names := [];
      var rest := files.Keys;
      while rest != {}
        invariant rest <= files.Keys
        invariant forall n :: n in names ==> n in files && n !in rest
        invariant forall n :: n in files ==> n in names || n in rest
        invariant forall i, j :: 0 <= i < j < |names| ==> names[i] != names[j]
        invariant |names| + |rest| == |files.Keys|
        decreases |rest|
      {
        var n :| n in rest;
        names := names + [n];
        rest := rest - {n};
      }
    }

    /** The content of a stored file; a missing name is an IllegalArgumentException. */
    method Load(filename: string) returns (r: Result<Bytes>)
      ensures filename in files ==> r == Ok(files[filename])
      ensures filename !in files ==> r == Err(IllegalArgument(NotFound(filename)))
    {
      if filename !in files {
        return Err(IllegalArgument(NotFound(filename)));
      }
      return Ok(files[filename]);
    }

    /** Deletes a stored file; a missing name is an IllegalArgumentException. */
    method Delete(filename: string) returns (r: Result<()>)
      modifies this
      ensures old(filename in files) ==> r == Ok(()) && files == old(files) - {filename}
      ensures old(filename !in files) ==>
        r == Err(IllegalArgument(NotFound(filename))) && files == old(files)
    {
      if filename !in files {
        return Err(IllegalArgument(NotFound(filename)));
      }
      files := files - {filename};
      return Ok(());
    }

    /**
     * Uploads every file independently, recording one result per file in
     * input order; tokens[i] is the token drawn for files[i] and ioErrors[i]
     * the message of the IOException storing it raises, if any (a failed copy
     * is taken to write nothing).
     */
    method UploadMultiple(parts: seq<Part>, tokens: seq<string>, ioErrors: seq<Option<string>>)
      returns (results: seq<UploadResult>)
      requires |tokens| == |parts| && |ioErrors| == |parts|
      modifies this
      ensures BatchUpload(files, results) == UploadAll(old(files), parts, tokens, ioErrors)
      ensures |results| == |parts|
      ensures forall i :: 0 <= i < |parts| ==> results[i] == ItemResult(parts[i], tokens[i], ioErrors[i])
    {
      results := [];
      var i := 0;
      while i < |parts|
        invariant 0 <= i <= |parts|
        invariant BatchUpload(files, results) == UploadAll(old(files), parts[..i], tokens[..i], ioErrors[..i])
      {
        var file := parts[i];
        var result;
        if file.IsEmpty() {
          result := Failed(file.originalFilename, FileIsEmpty);
        } else if file.contentType.None? || !StartsWith(file.contentType.value, ImagePrefix) {
          result := Failed(file.originalFilename, OnlyImages);
        } else {
          var extension := Extension(file.originalFilename);
          var savedFilename := tokens[i] + extension;
          if ioErrors[i].Some? {
            result := Failed(file.originalFilename, StoreFailure(ioErrors[i].value));
          } else {
            files := files[savedFilename := file.content];
            result := Succeeded(file.originalFilename, savedFilename);
          }
        }
        results := results + [result];
        assert parts[..i + 1][..i] == parts[..i];
        assert tokens[..i + 1][..i] == tokens[..i];
        assert ioErrors[..i + 1][..i] == ioErrors[..i];
        i := i + 1;
      }
      assert parts[..i] == parts && tokens[..i] == tokens && ioErrors[..i] == ioErrors;
      UploadAllResults(old(files), parts, tokens, ioErrors);
    }

    /**
     * Looks every name up independently; faults[i] is whether resolving
     * filenames[i] throws, which maps that name to null.
     */
    method LoadMultiple(filenames: seq<string>, faults: seq<bool>) returns (results: map<string, Option<Bytes>>)
      requires |faults| == |filenames|
      ensures results == LoadAll(files, filenames, faults)
      ensures forall n :: n in results <==> n in filenames
    {
      results := map[];
      var i := 0;
      while i < |filenames|
        invariant 0 <= i <= |filenames|
        invariant results == LoadAll(files, filenames[..i], faults[..i])
      {
        var filename := filenames[i];
        if faults[i] {
          results := results[filename := None];
        } else if filename in files {
          results := results[filename := Some(files[filename])];
        } else {
          results := results[filename := None];
        }
        assert filenames[..i + 1][..i] == filenames[..i];
        assert faults[..i + 1][..i] == faults[..i];
        i := i + 1;
      }
      assert filenames[..i] == filenames && faults[..i] == faults;
    }

    /**
     * Deletes every name independently, recording whether it existed;
     * faults[i] is whether touching filenames[i] throws, which records
     * false and deletes nothing.
     */
    method DeleteMultiple(filenames: seq<string>, faults: seq<bool>) returns (results: map<string, bool>)
      requires |faults| == |filenames|
      modifies this
      ensures BatchDelete(files, results) == DeleteAll(old(files), filenames, faults)
      ensures files == old(files) - Attempted(filenames, faults)
      ensures forall n :: n in results <==> n in filenames
    {
      results := map[];
      var i := 0;
      while i < |filenames|
        invariant 0 <= i <= |filenames|
        invariant BatchDelete(files, results) == DeleteAll(old(files), filenames[..i], faults[..i])
      {
        var filename := filenames[i];
        if faults[i] {
          results := results[filename := false];
        } else if filename in files {
          files := files - {filename};
          results := results[filename := true];
        } else {
          results := results[filename := false];
        }
        assert filenames[..i + 1][..i] == filenames[..i];
        assert faults[..i + 1][..i] == faults[..i];
        i := i + 1;
      }
      assert filenames[..i] == filenames && faults[..i] == faults;
      DeleteAllStore(old(files), filenames, faults);
    }
  }
}
