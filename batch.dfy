/**
 * What the three batch operations compute, shared by both backends: the
 * per-item upload result, and the store and result after processing the
 * inputs in order. Each is defined by recursion on the processed prefix, so
 * that a loop over the inputs keeps "state so far == spec of the prefix" as
 * its invariant.
 */
module Batch {
  import opened Storage

  /** One entry of uploadMultiple's result list (a map with "status" in the source). */
  datatype UploadResult =
    | Succeeded(originalFilename: Option<string>, savedFilename: string)
    | Failed(originalFilename: Option<string>, error: string)
  {
    /** The "status" entry. */
    function Status(): string
    {
      if Succeeded? then "success" else "failed"
    }

    /** The "savedFilename" entry, null on a failed item. */
    function Saved(): Option<string>
    {
      if Succeeded? then Some(savedFilename) else None
    }
  }

  /** The error entry for an IOException carrying the given message. */
  function StoreFailure(message: string): string
  {
    "Failed to store file: " + message
  }

  /**
   * The result recorded for one file of a batch upload, given the token drawn
   * for it and the IOException (if any) that storing its bytes raises.
   */
  function ItemResult(file: Part, token: string, ioError: Option<string>): (r: UploadResult)
    ensures r.originalFilename == file.originalFilename
    ensures r.Succeeded? <==> Rejection(file).None? && ioError.None?
    ensures Rejection(file).Some? ==> r.Failed? && Some(r.error) == Rejection(file)
    ensures Rejection(file).None? && ioError.Some? ==> r.Failed? && r.error == StoreFailure(ioError.value)
    ensures r.Succeeded? ==> r.savedFilename == SavedFilename(token, file.originalFilename)
  {
    match Rejection(file)
    case Some(reason) => Failed(file.originalFilename, reason)
    case None =>
      match ioError
      case Some(message) => Failed(file.originalFilename, StoreFailure(message))
      case None => Succeeded(file.originalFilename, SavedFilename(token, file.originalFilename))
  }

  /** The store after one item: written (replacing any entry) only on success. */
  function Stored(store: Store, file: Part, result: UploadResult): Store
  {
    if result.Succeeded? then store[result.savedFilename := file.content] else store
  }

  datatype BatchUpload = BatchUpload(store: Store, results: seq<UploadResult>)

  /** uploadMultiple over the store: one result per file, in input order. */
  function UploadAll(store: Store, files: seq<Part>, tokens: seq<string>, ioErrors: seq<Option<string>>): (out: BatchUpload)
    requires |tokens| == |files| && |ioErrors| == |files|
    ensures |out.results| == |files|
    decreases |files|
  {
    if files == [] then BatchUpload(store, [])
    else
      var n := |files| - 1;
      var before := UploadAll(store, files[..n], tokens[..n], ioErrors[..n]);
      var r := ItemResult(files[n], tokens[n], ioErrors[n]);
      BatchUpload(Stored(before.store, files[n], r), before.results + [r])
  }

  /** Item i of a batch upload stores its bytes under key k. */
  predicate Writes(files: seq<Part>, tokens: seq<string>, ioErrors: seq<Option<string>>, i: nat, k: string)
    requires |tokens| == |files| && |ioErrors| == |files| && i < |files|
  {
    var r := ItemResult(files[i], tokens[i], ioErrors[i]);
    r.Succeeded? && r.savedFilename == k
  }

  /**
   * The i-th result depends on the i-th file alone: neither earlier items nor
   * the store affect it, so a rejection or an IOException never stops later
   * items.
   */
  lemma {:induction false} UploadAllResults(store: Store, files: seq<Part>, tokens: seq<string>, ioErrors: seq<Option<string>>)
    requires |tokens| == |files| && |ioErrors| == |files|
    ensures forall i :: 0 <= i < |files| ==>
      UploadAll(store, files, tokens, ioErrors).results[i] == ItemResult(files[i], tokens[i], ioErrors[i])
    decreases |files|
  {
    if files != [] {
      var n := |files| - 1;
      UploadAllResults(store, files[..n], tokens[..n], ioErrors[..n]);
    }
  }

  /** One item's effect on key k: written iff the item writes k, untouched otherwise. */
  lemma UploadAllLast(store: Store, files: seq<Part>, tokens: seq<string>, ioErrors: seq<Option<string>>, k: string)
    requires |tokens| == |files| && |ioErrors| == |files| && files != []
    ensures var n := |files| - 1;
      var before := UploadAll(store, files[..n], tokens[..n], ioErrors[..n]).store;
      var out := UploadAll(store, files, tokens, ioErrors).store;
      if Writes(files, tokens, ioErrors, n, k) then k in out && out[k] == files[n].content
      else (k in out <==> k in before) && (k in before ==> out[k] == before[k])
  {
  }

  /**
   * A key that no item of a batch upload writes keeps its presence and its
   * content: failed items leave the store unchanged.
   */
  lemma {:induction false} UploadAllUntouched(store: Store, files: seq<Part>, tokens: seq<string>, ioErrors: seq<Option<string>>, k: string)
    requires |tokens| == |files| && |ioErrors| == |files|
    requires forall i :: 0 <= i < |files| ==> !Writes(files, tokens, ioErrors, i, k)
    ensures var out := UploadAll(store, files, tokens, ioErrors).store;
      (k in out <==> k in store) && (k in store ==> out[k] == store[k])
    decreases |files|
  {
    if files != [] {
      var n := |files| - 1;
      var fs, ts, es := files[..n], tokens[..n], ioErrors[..n];
      forall i | 0 <= i < n
        ensures !Writes(fs, ts, es, i, k)
      {
        assert fs[i] == files[i] && ts[i] == tokens[i] && es[i] == ioErrors[i];
        assert !Writes(files, tokens, ioErrors, i, k);
      }
      UploadAllUntouched(store, fs, ts, es, k);
      assert !Writes(files, tokens, ioErrors, n, k);
      UploadAllLast(store, files, tokens, ioErrors, k);
    }
  }

  /** A key that item i writes, and no later item, ends up holding file i's bytes. */
  lemma {:induction false} UploadAllLastWrite(store: Store, files: seq<Part>, tokens: seq<string>, ioErrors: seq<Option<string>>, i: nat, k: string)
    requires |tokens| == |files| && |ioErrors| == |files| && i < |files|
    requires Writes(files, tokens, ioErrors, i, k)
    requires forall j :: i < j < |files| ==> !Writes(files, tokens, ioErrors, j, k)
    ensures var out := UploadAll(store, files, tokens, ioErrors).store;
      k in out && out[k] == files[i].content
    decreases |files|
  {
    var n := |files| - 1;
    UploadAllLast(store, files, tokens, ioErrors, k);
    if i < n {
      var fs, ts, es := files[..n], tokens[..n], ioErrors[..n];
      assert fs[i] == files[i] && ts[i] == tokens[i] && es[i] == ioErrors[i];
      forall j | i < j < n
        ensures !Writes(fs, ts, es, j, k)
      {
        assert fs[j] == files[j] && ts[j] == tokens[j] && es[j] == ioErrors[j];
        assert !Writes(files, tokens, ioErrors, j, k);
      }
      UploadAllLastWrite(store, fs, ts, es, i, k);
    }
  }

  /** loadMultiple over the store: each name maps to its content, or to null. */
  function LoadAll(store: Store, names: seq<string>, faults: seq<bool>): (r: map<string, Option<Bytes>>)
    requires |faults| == |names|
    ensures forall n :: n in r <==> n in names
    decreases |names|
  {
    if names == [] then map[]
    else
      var k := |names| - 1;
      assert names == names[..k] + [names[k]];
      LoadAll(store, names[..k], faults[..k])[names[k] := if faults[k] then None else Lookup(store, names[k])]
  }

  /** Position i holds the last occurrence of its name. */
  predicate IsLast(names: seq<string>, i: nat)
    requires i < |names|
  {
    forall j :: i < j < |names| ==> names[j] != names[i]
  }

  lemma {:induction false} LastOccurrence(names: seq<string>, n: string) returns (i: nat)
    requires n in names
    ensures i < |names| && names[i] == n && IsLast(names, i)
    decreases |names|
  {
    var k := |names| - 1;
    if names[k] == n {
      i := k;
    } else {
      assert names == names[..k] + [names[k]];
      i := LastOccurrence(names[..k], n);
    }
  }

  /**
   * A name's value comes from its last occurrence: null when that lookup
   * failed, otherwise the name's content, or null when it is not stored.
   */
  lemma {:induction false} LoadAllAt(store: Store, names: seq<string>, faults: seq<bool>, i: nat)
    requires |faults| == |names| && i < |names| && IsLast(names, i)
    ensures LoadAll(store, names, faults)[names[i]] == (if faults[i] then None else Lookup(store, names[i]))
    decreases |names|
  {
    var k := |names| - 1;
    if i < k {
      assert names[..k][i] == names[i];
      LoadAllAt(store, names[..k], faults[..k], i);
    }
  }

  /** With no lookup failing, a name's value is non-null iff the name is stored, and is then its content. */
  lemma LoadAllWithoutFaults(store: Store, names: seq<string>, faults: seq<bool>)
    requires |faults| == |names|
    requires forall i :: 0 <= i < |faults| ==> !faults[i]
    ensures forall n :: n in names ==> LoadAll(store, names, faults)[n] == Lookup(store, n)
  {
    forall n | n in names
      ensures LoadAll(store, names, faults)[n] == Lookup(store, n)
    {
      var i := LastOccurrence(names, n);
      LoadAllAt(store, names, faults, i);
    }
  }

  datatype BatchDelete = BatchDelete(store: Store, results: map<string, bool>)

  /**
   * deleteMultiple over the store: each name is deleted when present and maps
   * to whether this happened; a failing item maps to false and deletes nothing.
   */
  function DeleteAll(store: Store, names: seq<string>, faults: seq<bool>): (out: BatchDelete)
    requires |faults| == |names|
    ensures forall n :: n in out.results <==> n in names
    decreases |names|
  {
    if names == [] then BatchDelete(store, map[])
    else
      var k := |names| - 1;
      assert names == names[..k] + [names[k]];
      var before := DeleteAll(store, names[..k], faults[..k]);
      var n := names[k];
      if faults[k] then BatchDelete(before.store, before.results[n := false])
      else if n in before.store then BatchDelete(before.store - {n}, before.results[n := true])
      else BatchDelete(before.store, before.results[n := false])
  }

  /** The names at positions whose deletion does not fail. */
  function Attempted(names: seq<string>, faults: seq<bool>): set<string>
    requires |faults| == |names|
  {
    set i | 0 <= i < |names| && !faults[i] :: names[i]
  }

  /** A name is not attempted iff every deletion of it fails. */
  lemma NotAttempted(names: seq<string>, faults: seq<bool>, n: string)
    requires |faults| == |names|
    ensures n !in Attempted(names, faults) <==> forall j :: 0 <= j < |names| && names[j] == n ==> faults[j]
  {
    if exists j :: 0 <= j < |names| && names[j] == n && !faults[j] {
      var j :| 0 <= j < |names| && names[j] == n && !faults[j];
      assert n in Attempted(names, faults);
    }
  }

  /** After a batch delete the store is the old one without every name attempted. */
  lemma {:induction false} DeleteAllStore(store: Store, names: seq<string>, faults: seq<bool>)
    requires |faults| == |names|
    ensures DeleteAll(store, names, faults).store == store - Attempted(names, faults)
    decreases |names|
  {
    if names != [] {
      var k := |names| - 1;
      DeleteAllStore(store, names[..k], faults[..k]);
      var before := Attempted(names[..k], faults[..k]);
      if faults[k] {
        assert Attempted(names, faults) == before;
      } else {
        assert Attempted(names, faults) == before + {names[k]};
      }
    }
  }

  /**
   * A name's flag comes from its last occurrence: true iff that deletion did
   * not fail, the name was stored, and no earlier occurrence had deleted it.
   */
  lemma {:induction false} DeleteAllAt(store: Store, names: seq<string>, faults: seq<bool>, i: nat)
    requires |faults| == |names| && i < |names| && IsLast(names, i)
    ensures DeleteAll(store, names, faults).results[names[i]] ==
      (!faults[i] && names[i] in store && forall j :: 0 <= j < i && names[j] == names[i] ==> faults[j])
    decreases |names|
  {
    var k := |names| - 1;
    if i < k {
      assert names[..k][i] == names[i];
      DeleteAllAt(store, names[..k], faults[..k], i);
    } else {
      DeleteAllStore(store, names[..k], faults[..k]);
      NotAttempted(names[..k], faults[..k], names[k]);
      assert forall j :: 0 <= j < k ==> names[..k][j] == names[j] && faults[..k][j] == faults[j];
    }
  }

  /** Position i holds the only occurrence of its name iff the name occurs once. */
  lemma {:induction false} OnlyOccurrence(names: seq<string>, i: nat)
    requires i < |names| && IsLast(names, i)
    ensures multiset(names)[names[i]] == 1 <==> forall j :: 0 <= j < i ==> names[j] != names[i]
    decreases |names|
  {
    var k := |names| - 1;
    assert names == names[..k] + [names[k]];
    if i < k {
      OnlyOccurrence(names[..k], i);
    } else {
      assert multiset(names)[names[i]] == multiset(names[..k])[names[i]] + 1;
    }
  }

  /**
   * With no deletion failing, no listed name remains, and a name's flag is
   * true iff it was stored and listed once: a stored name listed twice ends
   * up false, because the second deletion finds it gone.
   */
  lemma DeleteAllWithoutFaults(store: Store, names: seq<string>, faults: seq<bool>)
    requires |faults| == |names|
    requires forall i :: 0 <= i < |faults| ==> !faults[i]
    ensures forall n :: n in names ==> n !in DeleteAll(store, names, faults).store
    ensures forall n :: n in names ==>
      (DeleteAll(store, names, faults).results[n] <==> n in store && multiset(names)[n] == 1)
  {
    DeleteAllStore(store, names, faults);
    forall n | n in names
      ensures n in Attempted(names, faults)
      ensures DeleteAll(store, names, faults).results[n] <==> n in store && multiset(names)[n] == 1
    {
      var i := LastOccurrence(names, n);
      DeleteAllAt(store, names, faults, i);
      OnlyOccurrence(names, i);
    }
  }
}
