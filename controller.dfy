/**
 * The REST controller's own logic: which parts of a multipart request reach
 * the service, how batch results are summarised, and which exception leaves
 * each endpoint with which HTTP status. The service is whichever backend the
 * controller was constructed with.
 */
module Controller {
  import opened Storage
  import opened Batch
  import FileStorage
  import CloudStorage

  /** The StorageService the controller holds: one of the two backends. */
  datatype Backend =
    | Local(local: FileStorage.FileStorageService)
    | Cloud(cloud: CloudStorage.CloudStorageService)
  {
    function Repr(): set<object>
    {
      if Local? then {local} else {cloud}
    }

    /** The backend's store. */
    function Files(): Store
      reads Repr()
    {
      if Local? then local.files else cloud.files
    }
  }

  const StatusOk: nat := 200
  const StatusCreated: nat := 201
  const StatusNoContent: nat := 204
  const StatusBadRequest: nat := 400
  const StatusNotFound: nat := 404
  const StatusInternalServerError: nat := 500

  /** What an endpoint produces. */
  datatype Reply<+T> =
    | Respond(status: nat, body: T)        // a ResponseEntity
    | Refuse(status: nat, reason: string)  // a ResponseStatusException leaves the handler
    | Escape(error: Exception)             // a service exception the handler does not catch

  /** The message of a ResponseStatusException(BAD_REQUEST, reason). */
  function BadRequestMessage(reason: string): string
  {
    "400 BAD_REQUEST \"" + reason + "\""
  }

  const NoFiles: string := "No files provided"
  const NoFilenames: string := "No filenames provided"

  /** A multipart request; its multi-file map's value lists in iteration order, None when the map is null. */
  datatype MultipartRequest = MultipartRequest(fileMap: Option<seq<seq<Option<Part>>>>)

  // ---------------------------------------------------------------------
  // Part filtering
  // ---------------------------------------------------------------------

  /** The parts of one value list that are neither null nor empty, in order. */
  function NonEmpty(list: seq<Option<Part>>): (kept: seq<Part>)
    ensures forall p :: p in kept <==> Some(p) in list && !p.IsEmpty()
    ensures |kept| <= |list|
    decreases |list|
  {
    if list == [] then []
    else
      var k := |list| - 1;
      assert list == list[..k] + [list[k]];
      NonEmpty(list[..k]) + (if list[k].Some? && !list[k].value.IsEmpty() then [list[k].value] else [])
  }

  /**
   * The filter keeps every present, non-empty part as often as the list holds
   * it, and drops nothing else.
   */
  lemma {:induction false} NonEmptyCounts(list: seq<Option<Part>>, p: Part)
    ensures multiset(NonEmpty(list))[p] == if p.IsEmpty() then 0 else multiset(list)[Some(p)]
    decreases |list|
  {
    if list != [] {
      var k := |list| - 1;
      assert list == list[..k] + [list[k]];
      assert multiset(list) == multiset(list[..k]) + multiset{list[k]};
      NonEmptyCounts(list[..k], p);
    }
  }

  /** The non-null, non-empty parts of all value lists, list after list. */
  function NonEmptyParts(lists: seq<seq<Option<Part>>>): (kept: seq<Part>)
    ensures forall p :: p in kept <==> exists i :: 0 <= i < |lists| && Some(p) in lists[i] && !p.IsEmpty()
    decreases |lists|
  {
    if lists == [] then []
    else
      var k := |lists| - 1;
      var kept := NonEmptyParts(lists[..k]) + NonEmpty(lists[k]);
      assert forall i :: 0 <= i < k ==> lists[..k][i] == lists[i];
      kept
  }

  /** The files an upload endpoint passes to the service: none for a null request or map. */
  function RequestParts(request: Option<MultipartRequest>): seq<Part>
  {
    if request.Some? && request.value.fileMap.Some? then NonEmptyParts(request.value.fileMap.value) else []
  }

  /** The inner filtering loop, over one value list. */
  method KeepNonEmpty(list: seq<Option<Part>>) returns (kept: seq<Part>)
    ensures kept == NonEmpty(list)
  {
    kept := [];
    var j := 0;
    while j < |list|
      invariant 0 <= j <= |list|
      invariant kept == NonEmpty(list[..j])
    {
      var f := list[j];
      if f.Some? && !f.value.IsEmpty() {
        kept := kept + [f.value];
      }
      assert list[..j + 1][..j] == list[..j];
      j := j + 1;
    }
    assert list[..j] == list;
  }

  /** The filtering loop both upload endpoints run over the request's value lists. */
  method CollectFiles(request: Option<MultipartRequest>) returns (files: seq<Part>)
    ensures files == RequestParts(request)
    ensures forall p :: p in files ==> !p.IsEmpty()
  {
    files := [];
    if request.None? || request.value.fileMap.None? {
      return;
    }
    var lists := request.value.fileMap.value;
    var i := 0;
    while i < |lists|
      invariant 0 <= i <= |lists|
      invariant files == NonEmptyParts(lists[..i])
    {
      var kept := KeepNonEmpty(lists[i]);
      files := files + kept;
      assert lists[..i + 1][..i] == lists[..i];
      i := i + 1;
    }
    assert lists[..i] == lists;
  }

  /**
   * Since empty parts are dropped, no result of the service's batch upload
   * can be the "File is empty" failure.
   */
  lemma NoEmptyFileFailures(request: Option<MultipartRequest>, store: Store, tokens: seq<string>, ioErrors: seq<Option<string>>)
    requires |tokens| == |RequestParts(request)| && |ioErrors| == |RequestParts(request)|
    ensures forall r :: r in UploadAll(store, RequestParts(request), tokens, ioErrors).results ==>
      !(r.Failed? && r.error == FileIsEmpty)
  {
    var files := RequestParts(request);
    var results := UploadAll(store, files, tokens, ioErrors).results;
    UploadAllResults(store, files, tokens, ioErrors);
    forall r | r in results
      ensures !(r.Failed? && r.error == FileIsEmpty)
    {
      var i :| 0 <= i < |results| && results[i] == r;
      assert files[i] in files;
      if ioErrors[i].Some? {
        assert |StoreFailure(ioErrors[i].value)| > |FileIsEmpty|;
      }
    }
  }

  // ---------------------------------------------------------------------
  // Upload summaries
  // ---------------------------------------------------------------------

  /** The number of results whose status is "success". */
  function SuccessCount(results: seq<UploadResult>): (n: nat)
    ensures n <= |results|
    decreases |results|
  {
    if results == [] then 0
    else
      var k := |results| - 1;
      SuccessCount(results[..k]) + (if results[k].Status() == "success" then 1 else 0)
  }

  /** The number of results whose status is "failed". */
  function FailureCount(results: seq<UploadResult>): nat
    decreases |results|
  {
    if results == [] then 0
    else
      var k := |results| - 1;
      FailureCount(results[..k]) + (if results[k].Status() == "failed" then 1 else 0)
  }

  /** Every result is a success or a failure, so the two counts make up the total. */
  lemma {:induction false} CountsPartition(results: seq<UploadResult>)
    ensures SuccessCount(results) + FailureCount(results) == |results|
    decreases |results|
  {
    if results != [] {
      CountsPartition(results[..|results| - 1]);
    }
  }

  /** The saved names of the "success" results, in result order. */
  function SavedNames(results: seq<UploadResult>): (names: seq<string>)
    ensures |names| == SuccessCount(results)
    ensures forall n :: n in names <==>
      exists i :: 0 <= i < |results| && results[i].Succeeded? && results[i].savedFilename == n
    decreases |results|
  {
    if results == [] then []
    else
      var k := |results| - 1;
      assert forall i :: 0 <= i < k ==> results[..k][i] == results[i];
      var r := results[k];
      SavedNames(results[..k]) + (if r.Status() == "success" then [r.Saved().value] else [])
  }

  /** The loop of the single upload endpoint that collects the saved names. */
  method CollectSaved(results: seq<UploadResult>) returns (saved: seq<string>)
    ensures saved == SavedNames(results)
  {
    saved := [];
    var i := 0;
    while i < |results|
      invariant 0 <= i <= |results|
      invariant saved == SavedNames(results[..i])
    {
      var r := results[i];
      if r.Status() == "success" {
        saved := saved + [r.Saved().value];
      }
      assert results[..i + 1][..i] == results[..i];
      i := i + 1;
    }
    assert results[..i] == results;
  }

  /** When every item failed, the single upload endpoint still answers, with no names. */
  lemma {:induction false} AllFailedSavesNothing(results: seq<UploadResult>)
    requires forall i :: 0 <= i < |results| ==> results[i].Failed?
    ensures SavedNames(results) == []
    decreases |results|
  {
    if results != [] {
      var k := |results| - 1;
      AllFailedSavesNothing(results[..k]);
    }
  }

  /** The body of the batch upload endpoint. */
  datatype UploadSummary = UploadSummary(totalFiles: nat, successCount: nat, failedCount: int, results: seq<UploadResult>)

  /**
   * totalFiles is the number of results and failedCount is computed as the
   * difference; it is exactly the number of "failed" results.
   */
  function Summarize(results: seq<UploadResult>): (s: UploadSummary)
    ensures s.totalFiles == |results| && s.results == results
    ensures s.successCount + s.failedCount == s.totalFiles
    ensures s.successCount == |SavedNames(results)|
    ensures s.failedCount == FailureCount(results)
  {
    var successCount := SuccessCount(results);
    CountsPartition(results);
    UploadSummary(|results|, successCount, |results| - successCount, results)
  }

  // ---------------------------------------------------------------------
  // Delete and info summaries
  // ---------------------------------------------------------------------

  /** The body of the batch delete endpoint. */
  datatype DeleteSummary = DeleteSummary(totalFiles: nat, successCount: nat, failedCount: int, results: map<string, bool>)

  /**
   * totalFiles is the number of distinct names (the map's size), successCount
   * the number of true values, failedCount the difference: the false values.
   */
  function SummarizeDeletes(results: map<string, bool>): (s: DeleteSummary)
    ensures s.totalFiles == |results| && s.results == results
    ensures s.successCount == |set n | n in results && results[n]|
    ensures s.failedCount == |set n | n in results && !results[n]|
  {
    var deleted := set n | n in results && results[n];
    var kept := set n | n in results && !results[n];
    assert results.Keys == deleted + kept && deleted * kept == {};
    DeleteSummary(|results|, |deleted|, |results| - |deleted|, results)
  }

  /** One entry of the batch info endpoint ("exists" in the source). */
  datatype FileInfo = FileInfo(filename: string, present: bool, size: Option<nat>)

  /** The entry for one loaded name: it exists iff it loaded, and only then has a size, its length. */
  function Describe(filename: string, resource: Option<Bytes>): (info: FileInfo)
    ensures info.filename == filename
    ensures info.present <==> resource.Some?
    ensures info.size.Some? <==> info.present
    ensures resource.Some? ==> info.size == Some(|resource.value|)
  {
    FileInfo(filename, resource.Some?, if resource.Some? then Some(|resource.value|) else None)
  }

  /** infos lists every loaded name once, each described by its resource. */
  predicate DescribesAll(infos: seq<FileInfo>, resources: map<string, Option<Bytes>>)
  {
    && |infos| == |resources|
    && (forall i :: 0 <= i < |infos| ==>
          infos[i].filename in resources && infos[i] == Describe(infos[i].filename, resources[infos[i].filename]))
    && (forall n :: n in resources ==> exists i :: 0 <= i < |infos| && infos[i].filename == n)
    && (forall i, j :: 0 <= i < j < |infos| ==> infos[i].filename != infos[j].filename)
  }

  /** The loop over the loaded map's entries, in the map's (unspecified) iteration order. */
  method DescribeAll(resources: map<string, Option<Bytes>>) returns (infos: seq<FileInfo>)
    ensures DescribesAll(infos, resources)
  {
    infos := [];
    var rest := resources.Keys;
    while rest != {}
      invariant rest <= resources.Keys
      invariant forall i :: 0 <= i < |infos| ==>
        infos[i].filename in resources && infos[i].filename !in rest &&
        infos[i] == Describe(infos[i].filename, resources[infos[i].filename])
      invariant forall n :: n in resources ==> n in rest || exists i :: 0 <= i < |infos| && infos[i].filename == n
      invariant forall i, j :: 0 <= i < j < |infos| ==> infos[i].filename != infos[j].filename
      invariant |infos| + |rest| == |resources.Keys|
      decreases |rest|
    {
      var n :| n in rest;
      ghost var before := infos;
      infos := infos + [Describe(n, resources[n])];
      assert forall i :: 0 <= i < |before| ==> infos[i] == before[i];
      assert infos[|before|].filename == n;
      rest := rest - {n};
    }
  }

  /** The body of the batch info endpoint. */
  datatype InfoResponse = InfoResponse(totalFiles: nat, filesInfo: seq<FileInfo>)

  /** The distinct names of a list. */
  function Distinct(names: seq<string>): set<string>
  {
    set n | n in names
  }

  predicate HasDuplicate(names: seq<string>)
  {
    exists i, j :: 0 <= i < j < |names| && names[i] == names[j]
  }

  /**
   * A list has at most as many distinct names as entries, and strictly fewer
   * exactly when some name repeats: then the info endpoint's totalFiles
   * exceeds the number of entries it lists.
   */
  lemma {:induction false} DistinctAtMost(names: seq<string>)
    ensures |Distinct(names)| <= |names|
    ensures |Distinct(names)| < |names| <==> HasDuplicate(names)
    decreases |names|
  {
    if names != [] {
      var k := |names| - 1;
      var prefix := names[..k];
      DistinctAtMost(prefix);
      assert names == prefix + [names[k]];
      assert Distinct(names) == Distinct(prefix) + {names[k]};
      if names[k] in prefix {
        var j :| 0 <= j < k && prefix[j] == names[k];
        assert names[j] == names[k];
      } else {
        if HasDuplicate(names) {
          var i, j :| 0 <= i < j < |names| && names[i] == names[j];
          assert j < k;
          assert prefix[i] == prefix[j];
        }
        if HasDuplicate(prefix) {
          var i, j :| 0 <= i < j < |prefix| && prefix[i] == prefix[j];
          assert names[i] == names[j];
        }
      }
    }
  }

  // ---------------------------------------------------------------------
  // Endpoints
  // ---------------------------------------------------------------------

  /**
   * POST /images. No non-empty part: 400 "No files provided" (not caught, as
   * it is no IllegalArgumentException). Otherwise 201 with the saved names of
   * the successful items, even when there are none. The IllegalArgumentException
   * handler is never reached in this model, which has no unchecked exceptions:
   * the batch upload reports failures as results.
   */
  method Upload(b: Backend, request: Option<MultipartRequest>, tokens: seq<string>, ioErrors: seq<Option<string>>)
    returns (reply: Reply<seq<string>>)
    requires |tokens| == |RequestParts(request)| && |ioErrors| == |RequestParts(request)|
    modifies b.Repr()
    ensures RequestParts(request) == [] ==>
      reply == Refuse(StatusBadRequest, NoFiles) && b.Files() == old(b.Files())
    ensures RequestParts(request) != [] ==>
      var out := UploadAll(old(b.Files()), RequestParts(request), tokens, ioErrors);
      reply == Respond(StatusCreated, SavedNames(out.results)) && b.Files() == out.store
  {
    var files := CollectFiles(request);
    if files == [] {
      return Refuse(StatusBadRequest, NoFiles);
    }
    var results;
    match b {
      case Local(service) => results := service.UploadMultiple(files, tokens, ioErrors);
      case Cloud(service) => results := service.UploadMultiple(files, tokens, ioErrors);
    }
    var saved := CollectSaved(results);
    return Respond(StatusCreated, saved);
  }

  /**
   * GET /images/{filename}. The service's IllegalArgumentException for a
   * missing name becomes 404 with its message.
   */
  method GetImage(b: Backend, filename: string) returns (reply: Reply<Bytes>)
    ensures filename in b.Files() ==> reply == Respond(StatusOk, b.Files()[filename])
    ensures filename !in b.Files() ==> reply == Refuse(StatusNotFound, NotFound(filename))
  {
    var r;
    match b {
      case Local(service) => r := service.Load(filename);
      case Cloud(service) => r := service.Load(filename);
    }
    match r {
      case Ok(content) => reply := Respond(StatusOk, content);
      case Err(e) =>
        if e.IllegalArgument? {
          reply := Refuse(StatusNotFound, e.message);
        } else {
          reply := Escape(e);
        }
    }
  }

  /**
   * DELETE /images/{filename}: 204 when deleted. Only an
   * IllegalArgumentException becomes 404, so a missing name gives 404 on the
   * local backend but an unhandled NullPointerException on the cloud one.
   */
  method Delete(b: Backend, filename: string) returns (reply: Reply<()>)
    modifies b.Repr()
    ensures old(filename in b.Files()) ==>
      reply == Respond(StatusNoContent, ()) && b.Files() == old(b.Files()) - {filename}
    ensures old(filename !in b.Files()) && b.Local? ==>
      reply == Refuse(StatusNotFound, NotFound(filename)) && b.Files() == old(b.Files())
    ensures old(filename !in b.Files()) && b.Cloud? ==>
      reply == Escape(NullPointer) && b.Files() == old(b.Files())
  {
    var r;
    match b {
      case Local(service) => r := service.Delete(filename);
      case Cloud(service) => r := service.Delete(filename);
    }
    match r {
      case Ok(_) => reply := Respond(StatusNoContent, ());
      case Err(e) =>
        if e.IllegalArgument? {
          reply := Refuse(StatusNotFound, e.message);
        } else {
          reply := Escape(e);
        }
    }
  }

  /**
   * POST /images/batch. The 400 for no non-empty part is thrown inside the
   * try and caught by its catch-all, so it surfaces as a 500 whose reason
   * wraps the 400's message. Otherwise 201 with the summary.
   */
  method UploadMultiple(b: Backend, request: Option<MultipartRequest>, tokens: seq<string>, ioErrors: seq<Option<string>>)
    returns (reply: Reply<UploadSummary>)
    requires |tokens| == |RequestParts(request)| && |ioErrors| == |RequestParts(request)|
    modifies b.Repr()
    ensures RequestParts(request) == [] ==>
      reply == Refuse(StatusInternalServerError, "Failed to upload multiple images: " + BadRequestMessage(NoFiles)) &&
      b.Files() == old(b.Files())
    ensures RequestParts(request) != [] ==>
      var out := UploadAll(old(b.Files()), RequestParts(request), tokens, ioErrors);
      reply == Respond(StatusCreated, Summarize(out.results)) && b.Files() == out.store
  {
    var files := CollectFiles(request);
    if files == [] {
      return Refuse(StatusInternalServerError, "Failed to upload multiple images: " + BadRequestMessage(NoFiles));
    }
    var results;
    match b {
      case Local(service) => results := service.UploadMultiple(files, tokens, ioErrors);
      case Cloud(service) => results := service.UploadMultiple(files, tokens, ioErrors);
    }
    return Respond(StatusCreated, Summarize(results));
  }

  /** The entries the retrieve endpoint packs into its archive: the names that loaded. */
  function ArchiveEntries(resources: map<string, Option<Bytes>>): (entries: map<string, Bytes>)
    ensures forall n :: n in entries <==> n in resources && resources[n].Some?
    ensures forall n :: n in entries ==> resources[n] == Some(entries[n])
  {
    map n | n in resources && resources[n].Some? :: resources[n].value
  }

  /**
   * POST /images/batch/retrieve. A null or empty list: the 400 is caught and
   * becomes 500. Otherwise 200 with the archive of every name that loaded.
   */
  method GetMultipleImages(b: Backend, filenames: Option<seq<string>>, faults: seq<bool>)
    returns (reply: Reply<map<string, Bytes>>)
    requires filenames.Some? ==> |faults| == |filenames.value|
    ensures filenames.None? || filenames.value == [] ==>
      reply == Refuse(StatusInternalServerError, "Failed to retrieve multiple images: " + BadRequestMessage(NoFilenames))
    ensures filenames.Some? && filenames.value != [] ==>
      reply == Respond(StatusOk, ArchiveEntries(LoadAll(b.Files(), filenames.value, faults)))
  {
    if filenames.None? || filenames.value == [] {
      return Refuse(StatusInternalServerError, "Failed to retrieve multiple images: " + BadRequestMessage(NoFilenames));
    }
    var resources;
    match b {
      case Local(service) => resources := service.LoadMultiple(filenames.value, faults);
      case Cloud(service) => resources := service.LoadMultiple(filenames.value, faults);
    }
    return Respond(StatusOk, ArchiveEntries(resources));
  }

  /** With no lookup failing, the archive holds exactly the listed names that are stored, with their content. */
  lemma ArchiveHoldsStoredNames(store: Store, names: seq<string>, faults: seq<bool>)
    requires |faults| == |names|
    requires forall i :: 0 <= i < |faults| ==> !faults[i]
    ensures var entries := ArchiveEntries(LoadAll(store, names, faults));
      forall n :: n in entries <==> n in names && n in store
    ensures var entries := ArchiveEntries(LoadAll(store, names, faults));
      forall n :: n in entries ==> entries[n] == store[n]
  {
    LoadAllWithoutFaults(store, names, faults);
  }

  /**
   * DELETE /images/batch. A null or empty list: the 400 is caught and becomes
   * 500. Otherwise 200 with the summary of the per-name flags.
   */
  method DeleteMultiple(b: Backend, filenames: Option<seq<string>>, faults: seq<bool>)
    returns (reply: Reply<DeleteSummary>)
    requires filenames.Some? ==> |faults| == |filenames.value|
    modifies b.Repr()
    ensures filenames.None? || filenames.value == [] ==>
      reply == Refuse(StatusInternalServerError, "Failed to delete multiple images: " + BadRequestMessage(NoFilenames)) &&
      b.Files() == old(b.Files())
    ensures filenames.Some? && filenames.value != [] ==>
      var out := DeleteAll(old(b.Files()), filenames.value, faults);
      reply == Respond(StatusOk, SummarizeDeletes(out.results)) && b.Files() == out.store
  {
    if filenames.None? || filenames.value == [] {
      return Refuse(StatusInternalServerError, "Failed to delete multiple images: " + BadRequestMessage(NoFilenames));
    }
    var results;
    match b {
      case Local(service) => results := service.DeleteMultiple(filenames.value, faults);
      case Cloud(service) => results := service.DeleteMultiple(filenames.value, faults);
    }
    return Respond(StatusOk, SummarizeDeletes(results));
  }

  /** The batch delete's totalFiles counts distinct names, not listed ones. */
  lemma DeleteTotalIsDistinctNames(store: Store, names: seq<string>, faults: seq<bool>)
    requires |faults| == |names|
    ensures SummarizeDeletes(DeleteAll(store, names, faults).results).totalFiles == |Distinct(names)|
  {
    var results := DeleteAll(store, names, faults).results;
    assert results.Keys == Distinct(names);
  }

  /**
   * POST /images/batch/info. A null or empty list: the 400 is caught and
   * becomes 500. Otherwise 200 with one entry per distinct name, present iff
   * it loaded, while totalFiles counts the list with its duplicates.
   */
  method GetMultipleImagesInfo(b: Backend, filenames: Option<seq<string>>, faults: seq<bool>)
    returns (reply: Reply<InfoResponse>)
    requires filenames.Some? ==> |faults| == |filenames.value|
    ensures filenames.None? || filenames.value == [] ==>
      reply == Refuse(StatusInternalServerError, "Failed to get images info: " + BadRequestMessage(NoFilenames))
    ensures filenames.Some? && filenames.value != [] ==>
      && reply.Respond? && reply.status == StatusOk
      && reply.body.totalFiles == |filenames.value|
      && |reply.body.filesInfo| == |Distinct(filenames.value)|
      && DescribesAll(reply.body.filesInfo, LoadAll(b.Files(), filenames.value, faults))
  {
    if filenames.None? || filenames.value == [] {
      return Refuse(StatusInternalServerError, "Failed to get images info: " + BadRequestMessage(NoFilenames));
    }
    var resources;
    match b {
      case Local(service) => resources := service.LoadMultiple(filenames.value, faults);
      case Cloud(service) => resources := service.LoadMultiple(filenames.value, faults);
    }
    var infos := DescribeAll(resources);
    assert resources.Keys == Distinct(filenames.value);
    return Respond(StatusOk, InfoResponse(|filenames.value|, infos));
  }
}
