/**
 * The blob container behind `AzureBlobService` (Services/azureService.py) and the per-name
 * download loop of `download_blobs_by_names`. The container is a map from blob name to its
 * text, together with the order in which it lists the names; every write the service makes
 * is also recorded, in order, so that the order of the pipeline's uploads and deletions can
 * be stated.
 */
module AzureBlobs {
  import opened Wrappers
  import opened Text
  import opened Listings
  import Paths
  import Staging

  /** A write made to the container. */
  datatype Operation = Uploaded(name: string, text: string) | Deleted(name: string)

  datatype BlobError =
    | BlobNotFound(name: string)                        // the SDK's ResourceNotFoundError
    | UnsafePath(name: string)                          // `safe_join` raised ValueError
    | WriteFailed(name: string, fs: Staging.FsError)    // `open(file_path, "wb")` failed

  /** The deletions of `names`, one after the other. */
  function Deletions(names: seq<string>): seq<Operation>
  {
    seq(|names|, i requires 0 <= i < |names| => Deleted(names[i]))
  }

  /** The container once the deleting loop has deleted `names[..i]`, starting from `blobs0`, `order0` and `log0`. */
  ghost predicate DeletedUpTo(names: seq<string>, i: nat, blobs0: map<string, string>, order0: seq<string>, log0: seq<Operation>,
                          blobs: map<string, string>, order: seq<string>, log: seq<Operation>)
  {
    && i <= |names|
    && Distinct(names[..i]) && (forall n :: n in names[..i] ==> n in blobs0)
    && blobs == blobs0 - SetOf(names[..i])
    && order == Remaining(order0, SetOf(names[..i]))
    && log == log0 + Deletions(names[..i])
  }

  /** A final path segment that names a file: `""`, `.` and `..` name the folder or its parent. */
  predicate Plain(key: string)
  {
    key != "" && key != "." && key != ".."
  }

  /**
   * What one pass of the loop of `download_blobs_by_names` does with `name` before it opens
   * the file: the checked path (which raises for an unsafe name), then the download (which
   * raises for a missing blob); the file to write is named by the final segment of the name,
   * and a final segment that names the folder itself or its parent cannot be opened as a file.
   */
  datatype Fetch<K> = Refused(error: BlobError) | Fetched(name: string, key: K, lines: seq<string>)

  function FetchOf(blobs: map<string, string>, folder: string, cwd: string, name: string): Fetch<string>
    requires Paths.IsAbs(cwd)
  {
    var key := Paths.Basename(name);
    if Paths.SafeJoin(folder, name, cwd).Err? then Refused(UnsafePath(name))
    else if name !in blobs then Refused(BlobNotFound(name))
    else if !Plain(key) then Refused(WriteFailed(name, Staging.IsADirectory))
    else Fetched(name, key, ReadLines(blobs[name]))
  }

  function Fetches(blobs: map<string, string>, folder: string, cwd: string, names: seq<string>): (fs: seq<Fetch<string>>)
    requires Paths.IsAbs(cwd)
    ensures |fs| == |names|
  {
    if names == [] then []
    else Fetches(blobs, folder, cwd, names[..|names| - 1]) + [FetchOf(blobs, folder, cwd, names[|names| - 1])]
  }

  /**
   * The folder (its entries and its listing order) once the fetched blobs have been written in
   * order, each with `open(path, "wb")` on the entry as it then is, or the first failure.
   */
  function Place<K(==)>(entries: map<K, Staging.Entry>, order: seq<K>, fetches: seq<Fetch<K>>)
    : Result<(map<K, Staging.Entry>, seq<K>), BlobError>
    decreases |fetches|
  {
    if fetches == [] then Ok((entries, order))
    else
      var before := Place(entries, order, fetches[..|fetches| - 1]);
      var f := fetches[|fetches| - 1];
      if before.Err? then before
      else if f.Refused? then Err(f.error)
      else
        var (es, os) := before.value;
        var e := Staging.Lookup(es, f.key);
        if Staging.WriteError(e).Some? then Err(WriteFailed(f.name, Staging.WriteError(e).value))
        else Ok((es[f.key := Staging.Written(e, f.lines)], if f.key in es then os else os + [f.key]))
  }

  /** The loop of `download_blobs_by_names` over `names`, on a folder holding `entries` listed in `order`. */
  function Download(blobs: map<string, string>, entries: map<string, Staging.Entry>, order: seq<string>,
                    folder: string, cwd: string, names: seq<string>)
    : Result<(map<string, Staging.Entry>, seq<string>), BlobError>
    requires Paths.IsAbs(cwd)
  {
    Place(entries, order, Fetches(blobs, folder, cwd, names))
  }

    class BlobStore {
    var blobs: map<string, string>   // blob name to text
    var order: seq<string>           // the order `list_blobs` returns the names in
    var log: seq<Operation>          // the writes made so far

    ghost predicate Valid()
      reads this
    {
      Listing(order, blobs)
    }

    constructor (contents: map<string, string>, listing: seq<string>)
      requires Listing(listing, contents)
      ensures Valid() && blobs == contents && order == listing && log == []
    {
      blobs, order, log := contents, listing, [];
    }

    /** `download_text_blob`: the blob's text; any failure, a missing blob among them, gives "". */
    method DownloadText(name: string) returns (text: string)
      ensures name in blobs ==> text == blobs[name]
      ensures name !in blobs ==> text == ""
    {
      text := if name in blobs then blobs[name] else "";
    }

    /** `upload_text_blob`: the blob is created, or replaced (`overwrite=True`). */
    method UploadText(name: string, text: string)
      requires Valid()
      modifies this
      ensures Valid()
      ensures blobs == old(blobs)[name := text]
      ensures order == if name in old(blobs) then old(order) else old(order) + [name]
      ensures log == old(log) + [Uploaded(name, text)]
    {
      if name in blobs {
        ListingUpdate(order, blobs, name, text);
      } else {
        ListingAppend(order, blobs, name, text);
        order := order + [name];
      }
      blobs := blobs[name := text];
      log := log + [Uploaded(name, text)];
    }

    /** `list_blob_names` without a prefix: every blob name, each once. */
    method ListBlobNames() returns (names: seq<string>)
      requires Valid()
      ensures names == order
      ensures Distinct(names) && (forall n :: n in names <==> n in blobs)
    {
      names := order;
      ListingMembers(order, blobs);
      ListingDistinct(order, blobs);
    }

    /** `delete_blob` on one blob, which raises when the blob does not exist. */
    method DeleteBlob(name: string) returns (err: Option<BlobError>)
      requires Valid()
      modifies this
      ensures Valid()
      ensures err == if name in old(blobs) then None else Some(BlobNotFound(name))
      ensures err.Some? ==> blobs == old(blobs) && order == old(order) && log == old(log)
      ensures err.None? ==> blobs == old(blobs) - {name} && order == Remaining(old(order), {name})
      ensures err.None? ==> log == old(log) + [Deleted(name)]
    {
      if name !in blobs {
        return Some(BlobNotFound(name));
      }
      ListingRemaining(order, blobs, {name});
      blobs := blobs - {name};
      order := Remaining(order, {name});
      log := log + [Deleted(name)];
      err := None;
    }

    /**
     * `delete_blobs_by_names`: the blobs are deleted in order, stopping at the first name that
     * is no longer there; that happens exactly when a name is missing or repeated.
     */
    method DeleteBlobsByNames(names: seq<string>) returns (err: Option<BlobError>)
      requires Valid()
      modifies this
      ensures Valid()
      ensures err.None? <==> Distinct(names) && (forall n :: n in names ==> n in old(blobs))
      ensures err.None? ==>
                && blobs == old(blobs) - SetOf(names)
                && order == Remaining(old(order), SetOf(names))
                && log == old(log) + Deletions(names)
      ensures err.Some? ==>
                exists k :: 0 <= k < |names|
                  && err == Some(BlobNotFound(names[k]))
                  && blobs == old(blobs) - SetOf(names[..k])
                  && order == Remaining(old(order), SetOf(names[..k]))
                  && log == old(log) + Deletions(names[..k])
    {
      RemainingNone(order);
      assert names[..0] == [];
      assert old(blobs) - {} == old(blobs);
      var i := 0;
      while i < |names|
        invariant 0 <= i <= |names|
        invariant Valid()
        invariant DeletedUpTo(names, i, old(blobs), old(order), old(log), blobs, order, log)
      {
        err := DeleteNext(names, i, old(blobs), old(order), old(log));
        if err.Some? {
          return;
        }
        i := i + 1;
      }
      assert names[..i] == names;
      err := None;
    }

    /** One pass of the deleting loop, over `names[i]`. */
    method DeleteNext(names: seq<string>, i: nat, ghost blobs0: map<string, string>, ghost order0: seq<string>,
                      ghost log0: seq<Operation>)
      returns (err: Option<BlobError>)
      requires Valid() && i < |names|
      requires DeletedUpTo(names, i, blobs0, order0, log0, blobs, order, log)
      modifies this
      ensures Valid()
      ensures err.None? ==> DeletedUpTo(names, i + 1, blobs0, order0, log0, blobs, order, log)
      ensures err.Some? ==>
                && err == Some(BlobNotFound(names[i]))
                && DeletedUpTo(names, i, blobs0, order0, log0, blobs, order, log)
                && !(Distinct(names) && (forall n :: n in names ==> n in blobs0))
    {
      DeleteStep(names, i, blobs0, order0);
      err := DeleteBlob(names[i]);
      if err.Some? {
        assert names[i] in names;
      }
    }

    /**
     * `download_blobs_by_names(folder, names)`: the folder is created if need be, then each
     * blob is written to `safe_join(folder, name)` in the order given, a later blob replacing
     * an earlier one with the same final segment; the names are returned in the order given.
     */
    method DownloadBlobsByNames(dir: Staging.StagingDir<string>, folder: string, cwd: string, names: seq<string>)
      returns (r: Result<seq<string>, BlobError>)
      requires Valid() && dir.Valid() && Paths.IsAbs(cwd)
      modifies dir
      ensures dir.Valid() && dir.present
      ensures var run := Download(blobs, old(dir.entries), old(dir.order), folder, cwd, names);
              && (r.Ok? <==> run.Ok?)
              && (r.Ok? ==> r.value == names && (dir.entries, dir.order) == run.value)
              && (r.Err? ==> r.error == run.error)
      ensures r.Err? ==>
                exists k :: 0 <= k < |names| &&
                  Place(old(dir.entries), old(dir.order), Fetches(blobs, folder, cwd, names)[..k]) == Ok((dir.entries, dir.order))
    {
      dir.MakeDirs();
      r := WriteAll(dir, folder, cwd, names, Fetches(blobs, folder, cwd, names));
    }

    /** The loop of `download_blobs_by_names`, in a folder that exists. */
    method WriteAll(dir: Staging.StagingDir<string>, folder: string, cwd: string, names: seq<string>,
                    ghost fs: seq<Fetch<string>>)
      returns (r: Result<seq<string>, BlobError>)
      requires dir.Valid() && dir.present && Paths.IsAbs(cwd) && fs == Fetches(blobs, folder, cwd, names)
      modifies dir
      ensures dir.Valid() && dir.present
      ensures var run := Place(old(dir.entries), old(dir.order), fs);
              && (r.Ok? <==> run.Ok?)
              && (r.Ok? ==> r.value == names && (dir.entries, dir.order) == run.value)
              && (r.Err? ==> r.error == run.error)
      ensures r.Err? ==>
                exists k :: 0 <= k < |names| && Place(old(dir.entries), old(dir.order), fs[..k]) == Ok((dir.entries, dir.order))
    {
      ghost var start, listing := dir.entries, dir.order;
      assert fs[..0] == [];
      var i := 0;
      while i < |names|
        invariant 0 <= i <= |names|
        invariant dir.Valid() && dir.present
        invariant start == old(dir.entries) && listing == old(dir.order)
        invariant Place(start, listing, fs[..i]) == Ok((dir.entries, dir.order))
      {
        var f := FetchOf(blobs, folder, cwd, names[i]);
        FetchesAt(blobs, folder, cwd, names, i);
        var err := WriteFetched(dir, f, start, listing, fs, i);
        if err.Some? {
          return Err(err.value);
        }
        i := i + 1;
      }
      assert fs[..i] == fs;
      r := Ok(names);
    }
  }

  /** One pass of the writing loop, over the fetch `fs[i]`: stop at a refusal, otherwise write the file. */
  method WriteFetched<K(==)>(dir: Staging.StagingDir<K>, f: Fetch<K>, ghost start: map<K, Staging.Entry>,
                             ghost listing: seq<K>, ghost fs: seq<Fetch<K>>, i: nat)
    returns (err: Option<BlobError>)
    requires dir.Valid() && dir.present && i < |fs| && fs[i] == f
    requires Place(start, listing, fs[..i]) == Ok((dir.entries, dir.order))
    modifies dir
    ensures dir.Valid() && dir.present
    ensures err.None? ==> Place(start, listing, fs[..i + 1]) == Ok((dir.entries, dir.order))
    ensures err.Some? ==>
              && Place(start, listing, fs) == Err(err.value)
              && Place(start, listing, fs[..i]) == Ok((dir.entries, dir.order))
  {
    PlaceStep(start, listing, fs, i);
    if f.Refused? {
      PlaceFailFrom(start, listing, fs, i + 1);
      return Some(f.error);
    }
    var written := dir.WriteFile(f.key, f.lines);
    if written.Some? {
      PlaceFailFrom(start, listing, fs, i + 1);
      return Some(WriteFailed(f.name, written.value));
    }
    err := None;
  }

  /** One pass of the deleting loop: the next name is present exactly when it is not a repeat and was there at the start. */
  lemma {:induction false} DeleteStep(names: seq<string>, i: nat, blobs: map<string, string>, order: seq<string>)
    requires i < |names|
    ensures var n, done := names[i], SetOf(names[..i]);
            && (n in blobs - done <==> n in blobs && n !in names[..i])
            && (blobs - done) - {n} == blobs - SetOf(names[..i + 1])
            && Remaining(Remaining(order, done), {n}) == Remaining(order, SetOf(names[..i + 1]))
            && Deletions(names[..i]) + [Deleted(n)] == Deletions(names[..i + 1])
            && (Distinct(names[..i]) && n !in names[..i] ==> Distinct(names[..i + 1]))
            && (Distinct(names) ==> n !in names[..i])
            && (forall m :: m in names[..i + 1] <==> m in names[..i] || m == n)
  {
    var pre, n := names[..i], names[i];
    assert names[..i + 1] == pre + [n];
    SetOfMembers(pre);
    SetOfSnoc(pre, n);
    RemainingAdd(order, SetOf(pre), n);
    if Distinct(names) {
      DistinctNotBefore(names, i);
    }
  }

  lemma {:induction false} FetchesAt(blobs: map<string, string>, folder: string, cwd: string, names: seq<string>, i: nat)
    requires Paths.IsAbs(cwd) && i < |names|
    ensures Fetches(blobs, folder, cwd, names)[i] == FetchOf(blobs, folder, cwd, names[i])
    decreases |names|
  {
    if i < |names| - 1 {
      FetchesAt(blobs, folder, cwd, names[..|names| - 1], i);
    }
  }

  /** One pass of the writing loop extends the run by the next fetched blob. */
  lemma {:induction false} PlaceStep<K>(entries: map<K, Staging.Entry>, order: seq<K>, fetches: seq<Fetch<K>>, i: nat)
    requires i < |fetches| && Place(entries, order, fetches[..i]).Ok?
    ensures var (es, os) := Place(entries, order, fetches[..i]).value;
            var f := fetches[i];
            Place(entries, order, fetches[..i + 1]) ==
              if f.Refused? then Err(f.error)
              else
                var e := Staging.Lookup(es, f.key);
                if Staging.WriteError(e).Some? then Err(WriteFailed(f.name, Staging.WriteError(e).value))
                else Ok((es[f.key := Staging.Written(e, f.lines)], if f.key in es then os else os + [f.key]))
  {
    assert fetches[..i + 1][..i] == fetches[..i];
  }

  /** Once the run has failed it stays failed, with the same error. */
  lemma {:induction false} PlaceFailFrom<K>(entries: map<K, Staging.Entry>, order: seq<K>, fetches: seq<Fetch<K>>, i: nat)
    requires i <= |fetches| && Place(entries, order, fetches[..i]).Err?
    ensures Place(entries, order, fetches) == Place(entries, order, fetches[..i])
    decreases |fetches| - i
  {
    if i < |fetches| {
      assert fetches[..i + 1][..i] == fetches[..i];
      PlaceFailFrom(entries, order, fetches, i + 1);
    } else {
      assert fetches[..i] == fetches;
    }
  }

  // ---------------------------------------------------------------------------
  // What the writing loop leaves in the folder

  /** The lines of the last fetched blob whose file is `key`, if any. */
  function LastLines<K(==)>(fetches: seq<Fetch<K>>, key: K): Option<seq<string>>
  {
    if fetches == [] then None
    else
      var f := fetches[|fetches| - 1];
      if f.Fetched? && f.key == key then Some(f.lines) else LastLines(fetches[..|fetches| - 1], key)
  }

  /** The files the fetched blobs are written to, each once, in the order first written. */
  function KeysOf<K(==)>(fetches: seq<Fetch<K>>): seq<K>
  {
    if fetches == [] then []
    else
      var keys, f := KeysOf(fetches[..|fetches| - 1]), fetches[|fetches| - 1];
      if f.Refused? || f.key in keys then keys else keys + [f.key]
  }

  lemma {:induction false} KeysOfMembers<K>(fetches: seq<Fetch<K>>)
    ensures forall key :: key in KeysOf(fetches) <==> LastLines(fetches, key).Some?
    decreases |fetches|
  {
    if fetches != [] {
      KeysOfMembers(fetches[..|fetches| - 1]);
    }
  }

  /**
   * After a successful run every file among the fetched blobs' holds the lines of the LAST
   * blob written to it (through a link when the entry is one), and every other entry of the
   * folder is as it was.
   */
  lemma {:induction false} PlaceLastWins<K>(entries: map<K, Staging.Entry>, order: seq<K>, fetches: seq<Fetch<K>>)
    requires Place(entries, order, fetches).Ok?
    ensures var es := Place(entries, order, fetches).value.0;
            forall key ::
              && (LastLines(fetches, key).Some? ==>
                    && Staging.WriteError(Staging.Lookup(entries, key)).None?
                    && key in es
                    && es[key] == Staging.Written(Staging.Lookup(entries, key), LastLines(fetches, key).value))
              && (LastLines(fetches, key).None? ==> Staging.Lookup(es, key) == Staging.Lookup(entries, key))
    decreases |fetches|
  {
    if fetches != [] {
      var init, f := fetches[..|fetches| - 1], fetches[|fetches| - 1];
      PlaceLastWins(entries, order, init);
      if LastLines(init, f.key).Some? {
        Staging.WrittenTwice(Staging.Lookup(entries, f.key), LastLines(init, f.key).value, f.lines);
      }
    }
  }

  /** A run succeeds exactly when every blob was fetched and every file it goes to could be opened at the start. */
  lemma {:induction false} PlaceOk<K>(entries: map<K, Staging.Entry>, order: seq<K>, fetches: seq<Fetch<K>>)
    ensures Place(entries, order, fetches).Ok? <==>
            forall i :: 0 <= i < |fetches| ==>
              fetches[i].Fetched? && Staging.WriteError(Staging.Lookup(entries, fetches[i].key)).None?
    decreases |fetches|
  {
    if fetches != [] {
      var init, f := fetches[..|fetches| - 1], fetches[|fetches| - 1];
      PlaceOk(entries, order, init);
      assert forall i :: 0 <= i < |init| ==> init[i] == fetches[i];
      if Place(entries, order, init).Ok? {
        PlaceLastWins(entries, order, init);
        if f.Fetched? && LastLines(init, f.key).Some? {
          Staging.WrittenTwice(Staging.Lookup(entries, f.key), LastLines(init, f.key).value, []);
        }
      }
    }
  }

  /** After a successful run the folder holds what it held before and the files the blobs were written to. */
  lemma {:induction false} PlaceDomain<K>(entries: map<K, Staging.Entry>, order: seq<K>, fetches: seq<Fetch<K>>)
    requires Place(entries, order, fetches).Ok?
    ensures forall key :: key in Place(entries, order, fetches).value.0 <==> key in entries || key in KeysOf(fetches)
    decreases |fetches|
  {
    if fetches != [] {
      PlaceDomain(entries, order, fetches[..|fetches| - 1]);
    }
  }

  /** After a successful run the folder lists what it listed before, then the new files in the order first written. */
  lemma {:induction false} PlaceOrder<K>(entries: map<K, Staging.Entry>, order: seq<K>, fetches: seq<Fetch<K>>)
    requires Place(entries, order, fetches).Ok?
    ensures Place(entries, order, fetches).value.1 == order + Remaining(KeysOf(fetches), entries.Keys)
    decreases |fetches|
  {
    if fetches == [] {
      assert order + [] == order;
    } else {
      var init, f := fetches[..|fetches| - 1], fetches[|fetches| - 1];
      PlaceOrder(entries, order, init);
      PlaceDomain(entries, order, init);
      var (es, os) := Place(entries, order, init).value;
      assert Place(entries, order, fetches).value.1 == if f.key in es then os else os + [f.key];
      assert KeysOf(fetches) == if f.key in KeysOf(init) then KeysOf(init) else KeysOf(init) + [f.key];
      OrderStep(order, os, KeysOf(init), f.key, es.Keys, entries.Keys);
    }
  }

  /** Writing one more file keeps the listing equal to the old one followed by the new files. */
  lemma {:induction false} OrderStep<K>(order: seq<K>, os: seq<K>, keys: seq<K>, key: K, present: set<K>, gone: set<K>)
    requires os == order + Remaining(keys, gone)
    requires forall k :: k in present <==> k in gone || k in keys
    ensures (if key in present then os else os + [key]) ==
            order + Remaining(if key in keys then keys else keys + [key], gone)
  {
    RemainingSnoc(keys, key, gone);
  }

  /** Index of the last occurrence of `key` in `ks`, or -1 when there is none. */
  function LastIndex<K(==)>(ks: seq<K>, key: K): (i: int)
    ensures -1 <= i < |ks|
    ensures i >= 0 ==> ks[i] == key
    ensures forall j :: i < j < |ks| ==> ks[j] != key
  {
    if ks == [] then -1
    else if ks[|ks| - 1] == key then |ks| - 1
    else LastIndex(ks[..|ks| - 1], key)
  }

  /** The keys of `ks`, each once, in the order of their first occurrence. */
  function Dedup<K(==)>(ks: seq<K>): (d: seq<K>)
    ensures Distinct(d)
  {
    if ks == [] then []
    else
      var d, k := Dedup(ks[..|ks| - 1]), ks[|ks| - 1];
      if k in d then d
      else
        assert (d + [k])[..|d|] == d;
        d + [k]
  }

  lemma {:induction false} DedupMembers<K>(ks: seq<K>)
    ensures forall key :: key in Dedup(ks) <==> key in ks
    decreases |ks|
  {
    if ks != [] {
      DedupMembers(ks[..|ks| - 1]);
      assert ks == ks[..|ks| - 1] + [ks[|ks| - 1]];
    }
  }

  /** Fetches that all succeeded, going to the files `ks` with the lines `ls`. */
  predicate AllFetched<K(==)>(fs: seq<Fetch<K>>, ks: seq<K>, ls: seq<seq<string>>)
  {
    && |fs| == |ks| == |ls|
    && forall i :: 0 <= i < |fs| ==> fs[i].Fetched? && fs[i].key == ks[i] && fs[i].lines == ls[i]
  }

  lemma {:induction false} AllFetchedInit<K>(fs: seq<Fetch<K>>, ks: seq<K>, ls: seq<seq<string>>)
    requires AllFetched(fs, ks, ls) && fs != []
    ensures AllFetched(fs[..|fs| - 1], ks[..|ks| - 1], ls[..|ls| - 1])
  {
  }

  /** When every fetch succeeded, the last lines written to a file are those of its last occurrence. */
  lemma {:induction false} LastLinesAll<K>(fs: seq<Fetch<K>>, ks: seq<K>, ls: seq<seq<string>>, key: K)
    requires AllFetched(fs, ks, ls)
    ensures var i := LastIndex(ks, key);
            LastLines(fs, key) == if i >= 0 then Some(ls[i]) else None
    decreases |fs|
  {
    if fs != [] {
      AllFetchedInit(fs, ks, ls);
      LastLinesAll(fs[..|fs| - 1], ks[..|ks| - 1], ls[..|ls| - 1], key);
    }
  }

  /** When every fetch succeeded, the files written are the distinct keys in order of first occurrence. */
  lemma {:induction false} KeysOfAll<K>(fs: seq<Fetch<K>>, ks: seq<K>, ls: seq<seq<string>>)
    requires AllFetched(fs, ks, ls)
    ensures KeysOf(fs) == Dedup(ks)
    decreases |fs|
  {
    if fs != [] {
      AllFetchedInit(fs, ks, ls);
      KeysOfAll(fs[..|fs| - 1], ks[..|ks| - 1], ls[..|ls| - 1]);
    }
  }

  // ---------------------------------------------------------------------------
  // The same, stated on the names passed to `download_blobs_by_names`

  /** A name the loop can write out: the blob exists and its final segment names a file. */
  predicate Downloadable(blobs: map<string, string>, name: string)
  {
    name in blobs && Plain(Paths.Basename(name))
  }

  /** A name is fetched exactly when it is downloadable, to the file its final segment names. */
  lemma {:induction false} FetchOfOutcome(blobs: map<string, string>, folder: string, cwd: string, name: string)
    requires Paths.IsAbs(cwd)
    ensures FetchOf(blobs, folder, cwd, name).Fetched? <==> Downloadable(blobs, name)
    ensures Downloadable(blobs, name) ==>
              FetchOf(blobs, folder, cwd, name) == Fetched(name, Paths.Basename(name), ReadLines(blobs[name]))
  {
    Paths.SafeJoinOutcome(folder, name, cwd);
  }

  /** The file each name goes to: its final segment. */
  function Files(names: seq<string>): seq<string>
  {
    seq(|names|, i requires 0 <= i < |names| => Paths.Basename(names[i]))
  }

  predicate AllDownloadable(blobs: map<string, string>, names: seq<string>)
  {
    forall i :: 0 <= i < |names| ==> Downloadable(blobs, names[i])
  }

  /** The lines of each name's blob. */
  function Contents(blobs: map<string, string>, names: seq<string>): (ls: seq<seq<string>>)
    requires AllDownloadable(blobs, names)
    ensures |ls| == |names|
    ensures forall i :: 0 <= i < |names| ==> ls[i] == ReadLines(blobs[names[i]])
  {
    seq(|names|, i requires 0 <= i < |names| => ReadLines(blobs[names[i]]))
  }

  /** When every name is downloadable, every fetch succeeds, to the name's file with its blob's lines. */
  lemma {:induction false} FetchesAll(blobs: map<string, string>, folder: string, cwd: string, names: seq<string>)
    requires Paths.IsAbs(cwd) && AllDownloadable(blobs, names)
    ensures AllFetched(Fetches(blobs, folder, cwd, names), Files(names), Contents(blobs, names))
  {
    var fs, ks, ls := Fetches(blobs, folder, cwd, names), Files(names), Contents(blobs, names);
    forall i | 0 <= i < |fs| ensures fs[i].Fetched? && fs[i].key == ks[i] && fs[i].lines == ls[i] {
      FetchesAt(blobs, folder, cwd, names, i);
      FetchOfOutcome(blobs, folder, cwd, names[i]);
    }
  }

  /**
   * The loop succeeds exactly when every name is downloadable and every file it goes to could
   * be opened for writing in the folder as it was at the start.
   */
  lemma {:induction false} DownloadOk(blobs: map<string, string>, entries: map<string, Staging.Entry>, order: seq<string>,
                                      folder: string, cwd: string, names: seq<string>)
    requires Paths.IsAbs(cwd)
    ensures Download(blobs, entries, order, folder, cwd, names).Ok? <==>
            forall i :: 0 <= i < |names| ==>
              Downloadable(blobs, names[i]) && Staging.WriteError(Staging.Lookup(entries, Paths.Basename(names[i]))).None?
  {
    var fs := Fetches(blobs, folder, cwd, names);
    PlaceOk(entries, order, fs);
    forall i | 0 <= i < |names|
      ensures (fs[i].Fetched? && Staging.WriteError(Staging.Lookup(entries, fs[i].key)).None?) <==>
              (Downloadable(blobs, names[i]) && Staging.WriteError(Staging.Lookup(entries, Paths.Basename(names[i]))).None?)
    {
      FetchesAt(blobs, folder, cwd, names, i);
      FetchOfOutcome(blobs, folder, cwd, names[i]);
    }
  }

  /**
   * After a successful loop, a file some name ends in holds the text of the LAST such blob
   * (written through the link when the entry is one), and every other entry is untouched.
   */
  lemma {:induction false} DownloadLastWins(blobs: map<string, string>, entries: map<string, Staging.Entry>, order: seq<string>,
                                            folder: string, cwd: string, names: seq<string>, key: string)
    requires Paths.IsAbs(cwd) && Download(blobs, entries, order, folder, cwd, names).Ok?
    ensures var es, i := Download(blobs, entries, order, folder, cwd, names).value.0, LastIndex(Files(names), key);
            && (i >= 0 ==> names[i] in blobs && key in es && Staging.WriteError(Staging.Lookup(entries, key)).None? &&
                             es[key] == Staging.Written(Staging.Lookup(entries, key), ReadLines(blobs[names[i]])))
            && (i < 0 ==> Staging.Lookup(es, key) == Staging.Lookup(entries, key))
  {
    DownloadOk(blobs, entries, order, folder, cwd, names);
    var fs := Fetches(blobs, folder, cwd, names);
    FetchesAll(blobs, folder, cwd, names);
    PlaceLastWins(entries, order, fs);
    LastLinesAll(fs, Files(names), Contents(blobs, names), key);
  }

  /** After a successful loop the folder lists what it listed before, then the new files in the order first written. */
  lemma {:induction false} DownloadOrder(blobs: map<string, string>, entries: map<string, Staging.Entry>, order: seq<string>,
                                         folder: string, cwd: string, names: seq<string>)
    requires Paths.IsAbs(cwd) && Download(blobs, entries, order, folder, cwd, names).Ok?
    ensures Download(blobs, entries, order, folder, cwd, names).value.1 == order + Remaining(Dedup(Files(names)), entries.Keys)
  {
    DownloadOk(blobs, entries, order, folder, cwd, names);
    FetchesAll(blobs, folder, cwd, names);
    PlaceOrder(entries, order, Fetches(blobs, folder, cwd, names));
    KeysOfAll(Fetches(blobs, folder, cwd, names), Files(names), Contents(blobs, names));
  }

  /** Into a folder that holds only regular files, the loop writes only regular files. */
  lemma {:induction false} PlaceFiles<K>(entries: map<K, Staging.Entry>, order: seq<K>, fetches: seq<Fetch<K>>)
    requires Staging.OnlyFiles(entries) && Place(entries, order, fetches).Ok?
    ensures Staging.OnlyFiles(Place(entries, order, fetches).value.0)
    decreases |fetches|
  {
    if fetches != [] {
      PlaceFiles(entries, order, fetches[..|fetches| - 1]);
    }
  }
}
