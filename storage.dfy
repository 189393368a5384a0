/**
 * Shared vocabulary of the two storage backends: the abstract store, an
 * uploaded multipart file, the exceptions the services throw, the upload
 * validation and the derivation of the saved file name.
 */
module Storage {

  type Bytes = seq<bv8>

  /** The storage directory, or the bucket: stored name -> file content. */
  type Store = map<string, Bytes>

  /** A Java reference that may be null. */
  datatype Option<+T> = None | Some(value: T)

  /** The lookup of a name in a store, with None standing for null. */
  function Lookup(store: Store, name: string): Option<Bytes>
  {
    if name in store then Some(store[name]) else None
  }

  /**
   * A multipart file as the services see it: the client-supplied original
   * name and content type (either may be null) and the bytes.
   */
  datatype Part = Part(originalFilename: Option<string>, contentType: Option<string>, content: Bytes)
  {
    /** MultipartFile.isEmpty: no bytes were sent. */
    predicate IsEmpty() { |content| == 0 }
  }

  /** The exceptions a service can throw, with their messages. */
  datatype Exception =
    | IllegalArgument(message: string)
    | Runtime(message: string)
    | NullPointer

  /** The outcome of a single (non-batch) service call. */
  datatype Result<+T> = Ok(value: T) | Err(error: Exception)

  const FileIsEmpty: string := "File is empty"
  const OnlyImages: string := "Only image files are allowed"
  const ImagePrefix: string := "image/"

  /** The message of the IllegalArgumentException for a missing name. */
  function NotFound(filename: string): string
  {
    "File not found: " + filename
  }

  predicate StartsWith(s: string, prefix: string)
  {
    |prefix| <= |s| && s[..|prefix|] == prefix
  }

  predicate IsSuffix(t: string, s: string)
  {
    |t| <= |s| && s[|s| - |t|..] == t
  }

  /** A content type the services accept: present and starting with "image/". */
  predicate IsImageType(contentType: Option<string>)
  {
    contentType.Some? && StartsWith(contentType.value, ImagePrefix)
  }

  /**
   * The validation both backends run before storing a file, in their order:
   * an empty file first, then a missing or non-image content type.
   * None means the file is accepted.
   */
  function Rejection(file: Part): (reason: Option<string>)
    ensures reason.None? <==> !file.IsEmpty() && IsImageType(file.contentType)
    ensures file.IsEmpty() ==> reason == Some(FileIsEmpty)
    ensures reason.Some? && !file.IsEmpty() ==> reason == Some(OnlyImages)
  {
    if file.IsEmpty() then Some(FileIsEmpty)
    else if !IsImageType(file.contentType) then Some(OnlyImages)
    else None
  }

  /** String.lastIndexOf for one character; None stands for -1. */
  function LastIndexOf(s: string, c: char): (r: Option<nat>)
    ensures r.None? <==> c !in s
    ensures r.Some? ==> r.value < |s| && s[r.value] == c && c !in s[r.value + 1..]
    decreases |s|
  {
    if |s| == 0 then None
    else if s[|s| - 1] == c then Some(|s| - 1)
    else
      var r := LastIndexOf(s[..|s| - 1], c);
      assert s == s[..|s| - 1] + [s[|s| - 1]];
      assert r.Some? ==> s[r.value + 1..] == s[..|s| - 1][r.value + 1..] + [s[|s| - 1]];
      r
  }

  /** What an extension looks like: a suffix of the name that starts with its only '.'. */
  predicate IsExtension(ext: string, name: string)
  {
    |ext| > 0 && ext[0] == '.' && '.' !in ext[1..] && IsSuffix(ext, name)
  }

  /**
   * The extension kept from the original name: the suffix from its last '.'
   * inclusive, or "" when the name is null or has no '.'.
   */
  function Extension(original: Option<string>): (ext: string)
    ensures ext == "" <==> original.None? || '.' !in original.value
    ensures ext != "" ==> IsExtension(ext, original.value)
  {
    if original.Some? && '.' in original.value then
      var name := original.value;
      var i := LastIndexOf(name, '.').value;
      assert name[i..][1..] == name[i + 1..];
      name[i..]
    else
      ""
  }

  /** The name a file is stored under: a random token followed by the original extension. */
  function SavedFilename(token: string, original: Option<string>): (saved: string)
    ensures StartsWith(saved, token)
    ensures IsSuffix(Extension(original), saved)
    ensures |saved| == |token| + |Extension(original)|
  {
    token + Extension(original)
  }

  /** A name has at most one extension. */
  lemma ExtensionUnique(e1: string, e2: string, name: string)
    requires IsExtension(e1, name) && IsExtension(e2, name)
    ensures e1 == e2
  {
  }

  /**
   * The saved name starts with the token and ends with the original's
   * extension; when the token holds no '.', as a UUID does not, the saved
   * name's own extension is exactly the original's.
   */
  lemma SavedFilenameKeepsExtension(token: string, original: Option<string>)
    requires '.' !in token
    ensures StartsWith(SavedFilename(token, original), token)
    ensures IsSuffix(Extension(original), SavedFilename(token, original))
    ensures Extension(Some(SavedFilename(token, original))) == Extension(original)
  {
    var ext := Extension(original);
    var saved := SavedFilename(token, original);
    assert saved[..|token|] == token;
    assert saved[|saved| - |ext|..] == ext;
    if ext == "" {
      assert saved == token;
    } else {
      assert saved[|token|] == '.';
      assert IsExtension(ext, saved);
      ExtensionUnique(Extension(Some(saved)), ext, saved);
    }
  }
}
