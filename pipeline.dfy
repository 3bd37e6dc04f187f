/**
 * `incremental_join_and_upload` (util.py): read the manifest, find the blobs not merged yet,
 * download them into a fresh temporary folder, merge them into `all_data.csv`, sort it by its
 * `Time` column, upload it as the joined blob, write the manifest back and optionally delete
 * the blobs just merged.
 */
module Pipeline {
  import opened Wrappers
  import opened Text
  import opened Listings
  import opened Manifest
  import Timestamps
  import Paths
  import Staging
  import CsvSort
  import AzureBlobs

  /** The name of the merged file inside the temporary folder. */
  const MasterFile: string := "all_data.csv"
  /** The column the merged file is sorted on. */
  const TimeColumn: string := "Time"
  const IdleStatus: string := "No new blobs to process."

  datatype PipelineError =
    | DownloadFailed(blob: AzureBlobs.BlobError)    // raised by `download_blobs_by_names`
    | StagingFailed(staging: Staging.StagingError)  // raised while joining or sorting the folder

  // ---------------------------------------------------------------------------
  // The status message

  /** `str(n)` for a natural number: its decimal digits, without leading zeros. */
  function Decimal(n: nat): (s: string)
    ensures s != "" && Timestamps.AllDigits(s)
    ensures s[0] == '0' ==> s == "0"
  {
    if n < 10 then [Timestamps.Digit(n)]
    else
      var init := Decimal(n / 10);
      init + [Timestamps.Digit(n % 10)]
  }

  /** The digits `Decimal` writes are read back as the number. */
  lemma {:induction false} DecimalValue(n: nat)
    ensures Timestamps.DecimalValue(Decimal(n)) == n
  {
    if n >= 10 {
      var s := Decimal(n);
      assert s[..|s| - 1] == Decimal(n / 10);
      DecimalValue(n / 10);
    }
  }

  /** The status returned after a run that merged `count` new blobs. */
  function Status(deleted: bool, count: nat): string
  {
    if deleted then "Processed and deleted " + Decimal(count) + " new blobs and updated joined CSV."
    else "Processed " + Decimal(count) + " new blobs and updated joined CSV."
  }

  // ---------------------------------------------------------------------------
  // The merged file

  /** The temporary folder once the new blobs are downloaded into it. */
  function Staged(blobs: map<string, string>, tempdir: string, cwd: string, newBlobs: seq<string>)
    : Result<(map<string, Staging.Entry>, seq<string>), AzureBlobs.BlobError>
    requires Paths.IsAbs(cwd)
  {
    AzureBlobs.Download(blobs, map[], [], tempdir, cwd, newBlobs)
  }

  /**
   * The lines uploaded as the joined blob. The join opens `all_data.csv` with "w", so the
   * joined blob downloaded into it beforehand (and any new blob whose final segment is
   * `all_data.csv`) is truncated away: only the other downloaded files are merged, in the
   * folder's listing order, and the result is sorted by time.
   */
  function MasterLines(blobs: map<string, string>, tempdir: string, cwd: string, newBlobs: seq<string>)
    : Result<seq<string>, PipelineError>
    requires Paths.IsAbs(cwd)
  {
    var staged := Staged(blobs, tempdir, cwd, newBlobs);
    if staged.Err? then Err(DownloadFailed(staged.error))
    else
      var (entries, order) := staged.value;
      var sorted := CsvSort.SortLines(Staging.Merged(entries, MasterFile, order), TimeColumn);
      if sorted.Err? then Err(StagingFailed(Staging.Sort(sorted.error))) else Ok(sorted.value)
  }

  /**
   * A successful download fills the temporary folder with one regular file per distinct final
   * segment, listed in the order first written, each holding the lines of the last new blob
   * with that final segment.
   */
  lemma {:induction false} StagedFolder(blobs: map<string, string>, tempdir: string, cwd: string, newBlobs: seq<string>, key: string)
    requires Paths.IsAbs(cwd) && Staged(blobs, tempdir, cwd, newBlobs).Ok?
    ensures var (entries, order) := Staged(blobs, tempdir, cwd, newBlobs).value;
            var i := AzureBlobs.LastIndex(AzureBlobs.Files(newBlobs), key);
            && order == AzureBlobs.Dedup(AzureBlobs.Files(newBlobs))
            && (key in entries <==> i >= 0)
            && (i >= 0 ==> newBlobs[i] in blobs && entries[key] == Staging.File(ReadLines(blobs[newBlobs[i]])))
  {
    var empty: map<string, Staging.Entry> := map[];
    var keys := AzureBlobs.Dedup(AzureBlobs.Files(newBlobs));
    AzureBlobs.DownloadOrder(blobs, empty, [], tempdir, cwd, newBlobs);
    AzureBlobs.DownloadLastWins(blobs, empty, [], tempdir, cwd, newBlobs, key);
    assert empty.Keys == {};
    RemainingNone(keys);
    assert [] + keys == keys;
  }

  /**
   * The merged file is produced exactly when every new blob can be downloaded to a file and
   * the merged lines sort; it then has the merged lines' header and the same data rows, in
   * ascending order of the `Time` column, rows with equal times in their merged order.
   */
  lemma {:induction false} MasterLinesCorrect(blobs: map<string, string>, tempdir: string, cwd: string, newBlobs: seq<string>)
    requires Paths.IsAbs(cwd)
    ensures var master := MasterLines(blobs, tempdir, cwd, newBlobs);
            && (Staged(blobs, tempdir, cwd, newBlobs).Ok? <==> AzureBlobs.AllDownloadable(blobs, newBlobs))
            && (master.Ok? ==>
                  var (entries, order) := Staged(blobs, tempdir, cwd, newBlobs).value;
                  var merged := Staging.Merged(entries, MasterFile, order);
                  |master.value| == |merged| && master.value[0] == merged[0]
                  && multiset(master.value[1..]) == multiset(merged[1..])
                  && TimeColumn in CsvSort.ParseRow(merged[0])
                  && CsvSort.OrderedByTime(master.value[1..], merged[1..],
                                           CsvSort.IndexOf(CsvSort.ParseRow(merged[0]), TimeColumn).value))
  {
    AzureBlobs.DownloadOk(blobs, map[], [], tempdir, cwd, newBlobs);
    var master := MasterLines(blobs, tempdir, cwd, newBlobs);
    if master.Ok? {
      var (entries, order) := Staged(blobs, tempdir, cwd, newBlobs).value;
      CsvSort.SortLinesCorrect(Staging.Merged(entries, MasterFile, order), TimeColumn);
    }
  }

  // ---------------------------------------------------------------------------
  // The manifest and the container after a run

  /** `'\n'.join(processed)`: the members of `processed`, each once, in some order. */
  ghost predicate ManifestText(text: string, processed: set<string>)
  {
    exists e :: SetOf(e) == processed && Distinct(e) && text == JoinWith(e, '\n')
  }

  /** The manifest written for a set of recordable names is read back as that set. */
  lemma {:induction false} ManifestRoundTrip(text: string, processed: set<string>)
    requires ManifestText(text, processed) && processed != {}
    requires forall x :: x in processed ==> Recordable(x)
    ensures ParseManifest(text) == processed
  {
    var e :| SetOf(e) == processed && Distinct(e) && text == JoinWith(e, '\n');
    SetOfMembers(e);
    assert e != [];
    forall i | 0 <= i < |e| ensures Recordable(e[i]) {
      assert e[i] in processed;
    }
    ParseJoin(e);
  }

  /** The listing after uploading `name` to a container that held `present`. */
  function Listed(order: seq<string>, present: set<string>, name: string): seq<string>
  {
    if name in present then order else order + [name]
  }

  /** The container's blobs, listing and log after uploading the joined blob and then the manifest. */
  function Uploads(blobs0: map<string, string>, order0: seq<string>, log0: seq<AzureBlobs.Operation>,
                   joinedBlob: string, master: string, manifestBlob: string, manifest: string)
    : (map<string, string>, seq<string>, seq<AzureBlobs.Operation>)
  {
    (blobs0[joinedBlob := master][manifestBlob := manifest],
     Listed(Listed(order0, blobs0.Keys, joinedBlob), blobs0.Keys + {joinedBlob}, manifestBlob),
     log0 + [AzureBlobs.Uploaded(joinedBlob, master), AzureBlobs.Uploaded(manifestBlob, manifest)])
  }

  /**
   * The container after a successful run: the joined blob and the manifest uploaded, in that
   * order, and then, when asked, the new blobs deleted one after the other.
   */
  ghost predicate Published(blobs0: map<string, string>, order0: seq<string>, log0: seq<AzureBlobs.Operation>,
                            joinedBlob: string, master: string, manifestBlob: string, manifest: string,
                            deleteAfter: bool, newBlobs: seq<string>,
                            blobs: map<string, string>, order: seq<string>, log: seq<AzureBlobs.Operation>)
  {
    var (uploaded, listed, uploads) := Uploads(blobs0, order0, log0, joinedBlob, master, manifestBlob, manifest);
    if deleteAfter then
      && blobs == uploaded - SetOf(newBlobs)
      && order == Remaining(listed, SetOf(newBlobs))
      && log == uploads + AzureBlobs.Deletions(newBlobs)
    else
      blobs == uploaded && order == listed && log == uploads
  }

  /** The processed set read at the start of a run on a container holding `blobs`. */
  function Processed(blobs: map<string, string>, manifestBlob: string): set<string>
  {
    ParseManifest(if manifestBlob in blobs then blobs[manifestBlob] else "")
  }

  /**
   * The next run reads back from the published manifest exactly the old processed set and the
   * new blobs, as long as the names are recordable and the manifest carries the `joined/` prefix.
   */
  lemma {:induction false} NextProcessed(blobs0: map<string, string>, order0: seq<string>, log0: seq<AzureBlobs.Operation>,
                                         joinedBlob: string, master: string, manifestBlob: string, manifest: string,
                                         deleteAfter: bool, blobs: map<string, string>, order: seq<string>,
                                         log: seq<AzureBlobs.Operation>)
    requires StartsWith(manifestBlob, JoinedPrefix)
    requires var processed := Processed(blobs0, manifestBlob);
             var newBlobs := NewBlobs(order0, processed);
             && newBlobs != []
             && (forall x :: x in processed + SetOf(newBlobs) ==> Recordable(x))
             && ManifestText(manifest, processed + SetOf(newBlobs))
             && Published(blobs0, order0, log0, joinedBlob, master, manifestBlob, manifest, deleteAfter, newBlobs, blobs, order, log)
    ensures var processed := Processed(blobs0, manifestBlob);
            Processed(blobs, manifestBlob) == processed + SetOf(NewBlobs(order0, processed))
  {
    var processed := Processed(blobs0, manifestBlob);
    var newBlobs := NewBlobs(order0, processed);
    SetOfMembers(newBlobs);
    NewBlobsMembers(order0, processed);
    assert newBlobs[0] in newBlobs;
    assert manifestBlob !in SetOf(newBlobs) by {
      assert !IsNew(manifestBlob, processed);
    }
    PublishedContents(blobs0, order0, log0, joinedBlob, master, manifestBlob, manifest, deleteAfter, newBlobs, blobs, order, log);
    ManifestRoundTrip(manifest, processed + SetOf(newBlobs));
  }

  /**
   * A run that published its results leaves nothing new for the next run, as long as the names
   * are recordable and the joined blob and the manifest carry the `joined/` prefix.
   */
  lemma {:induction false} NextRunIdle(blobs0: map<string, string>, order0: seq<string>, log0: seq<AzureBlobs.Operation>,
                                       joinedBlob: string, master: string, manifestBlob: string, manifest: string,
                                       deleteAfter: bool, blobs: map<string, string>, order: seq<string>,
                                       log: seq<AzureBlobs.Operation>)
    requires Listing(order0, blobs0) && Listing(order, blobs)
    requires StartsWith(joinedBlob, JoinedPrefix) && StartsWith(manifestBlob, JoinedPrefix)
    requires var processed := Processed(blobs0, manifestBlob);
             var newBlobs := NewBlobs(order0, processed);
             && newBlobs != []
             && (forall x :: x in processed + SetOf(newBlobs) ==> Recordable(x))
             && ManifestText(manifest, processed + SetOf(newBlobs))
             && Published(blobs0, order0, log0, joinedBlob, master, manifestBlob, manifest, deleteAfter, newBlobs, blobs, order, log)
    ensures NewBlobs(order, Processed(blobs, manifestBlob)) == []
  {
    var processed := Processed(blobs0, manifestBlob);
    var newBlobs := NewBlobs(order0, processed);
    NextProcessed(blobs0, order0, log0, joinedBlob, master, manifestBlob, manifest, deleteAfter, blobs, order, log);
    PublishedContents(blobs0, order0, log0, joinedBlob, master, manifestBlob, manifest, deleteAfter, newBlobs, blobs, order, log);
    ListingMembers(order0, blobs0);
    ListingMembers(order, blobs);
    forall i | 0 <= i < |order| ensures order[i] in order0 || StartsWith(order[i], JoinedPrefix) {
      assert order[i] in blobs;
    }
    NothingNewTwice(order0, processed, order);
  }

  /** After publishing, the container holds the manifest unless it was among the blobs deleted, and nothing but old blobs and the two uploads. */
  lemma {:induction false} PublishedContents(blobs0: map<string, string>, order0: seq<string>, log0: seq<AzureBlobs.Operation>,
                                             joinedBlob: string, master: string, manifestBlob: string, manifest: string,
                                             deleteAfter: bool, newBlobs: seq<string>, blobs: map<string, string>,
                                             order: seq<string>, log: seq<AzureBlobs.Operation>)
    requires Published(blobs0, order0, log0, joinedBlob, master, manifestBlob, manifest, deleteAfter, newBlobs, blobs, order, log)
    ensures manifestBlob !in SetOf(newBlobs) ==> manifestBlob in blobs && blobs[manifestBlob] == manifest
    ensures forall n :: n in blobs ==> n in blobs0 || n == joinedBlob || n == manifestBlob
  {
  }

  // ---------------------------------------------------------------------------
  // The run

  /**
   * Steps 3 to 6 up to the upload: download the new blobs into a fresh temporary folder, put
   * the current joined blob (if any) into `all_data.csv`, join, sort and read the file back.
   */
  method Stage(store: AzureBlobs.BlobStore, tempdir: string, cwd: string, joinedBlob: string, newBlobs: seq<string>)
    returns (r: Result<seq<string>, PipelineError>)
    requires store.Valid() && Paths.IsAbs(cwd)
    ensures r == MasterLines(store.blobs, tempdir, cwd, newBlobs)
  {
    var dir := new Staging.StagingDir<string>.Fresh();
    var downloaded := store.DownloadBlobsByNames(dir, tempdir, cwd, newBlobs);
    if downloaded.Err? {
      return Err(DownloadFailed(downloaded.error));
    }
    AzureBlobs.PlaceFiles(map[], [], AzureBlobs.Fetches(store.blobs, tempdir, cwd, newBlobs));
    var previous := store.DownloadText(joinedBlob);
    PutPrevious(dir, MasterFile, previous);
    r := JoinAndSort(dir, MasterFile, TimeColumn);
  }

  /** Step 4: the current joined blob, when not empty, is written to the output file. */
  method PutPrevious<N(==)>(dir: Staging.StagingDir<N>, output: N, previous: string)
    requires dir.Valid() && dir.present && Staging.OnlyFiles(dir.entries)
    modifies dir
    ensures dir.Valid() && dir.present && Staging.OnlyFiles(dir.entries)
    ensures Staging.Merged(dir.entries, output, dir.order) == Staging.Merged(old(dir.entries), output, old(dir.order))
  {
    if previous != "" {
      var lines := ReadLines(previous);
      var _ := dir.WriteFile(output, lines);
      Staging.MergedIgnoresOutput(old(dir.entries), output, old(dir.order), Staging.File(lines));
      Staging.MergedAppendOutput(old(dir.entries)[output := Staging.File(lines)], output, old(dir.order));
    }
  }

  /** Steps 5, 5b and the read of step 6: join into the output file, sort it by `column`, read it back. */
  method JoinAndSort<N(==)>(dir: Staging.StagingDir<N>, output: N, column: string) returns (r: Result<seq<string>, PipelineError>)
    requires dir.Valid() && dir.present && Staging.OnlyFiles(dir.entries)
    modifies dir
    ensures var sorted := CsvSort.SortLines(Staging.Merged(old(dir.entries), output, old(dir.order)), column);
            r == if sorted.Err? then Err(StagingFailed(Staging.Sort(sorted.error))) else Ok(sorted.value)
  {
    ghost var merged := Staging.Merged(dir.entries, output, dir.order);
    var _ := dir.JoinCsvFiles(output);
    assert dir.entries[output] == Staging.File(merged);
    var sorted := dir.SortCsvByTime(output, column);
    if sorted.Some? {
      return Err(StagingFailed(sorted.value));
    }
    var content := dir.ReadFile(output);
    r := Ok(content.value);
  }

  /**
   * `incremental_join_and_upload(azure_service, target_folder, joined_blob_name,
   * manifest_blob_name, delete_after_process)`. Nothing is written when there is nothing new
   * or when staging fails; otherwise the container is left as `Published` describes.
   */
  method IncrementalJoinAndUpload(store: AzureBlobs.BlobStore, tempdir: string, cwd: string,
                                  joinedBlob: string, manifestBlob: string, deleteAfter: bool)
    returns (r: Result<string, PipelineError>)
    requires store.Valid() && Paths.IsAbs(cwd)
    modifies store
    ensures store.Valid()
    ensures var processed := Processed(old(store.blobs), manifestBlob);
            var newBlobs := NewBlobs(old(store.order), processed);
            var master := MasterLines(old(store.blobs), tempdir, cwd, newBlobs);
            && (newBlobs == [] ==> r == Ok(IdleStatus))
            && (newBlobs != [] && master.Err? ==> r == Err(master.error))
            && (r.Err? || r == Ok(IdleStatus) ==>
                  store.blobs == old(store.blobs) && store.order == old(store.order) && store.log == old(store.log))
            && (newBlobs != [] && master.Ok? ==>
                  && r == Ok(Status(deleteAfter, |newBlobs|))
                  && exists manifest ::
                       && ManifestText(manifest, processed + SetOf(newBlobs))
                       && Published(old(store.blobs), old(store.order), old(store.log), joinedBlob,
                                    WriteLines(master.value), manifestBlob, manifest, deleteAfter, newBlobs,
                                    store.blobs, store.order, store.log))
  {
    var text := store.DownloadText(manifestBlob);
    var processed := ParseManifest(text);
    var listing := store.ListBlobNames();
    var newBlobs := NewBlobs(listing, processed);
    if newBlobs == [] {
      return Ok(IdleStatus);
    }
    var master := Stage(store, tempdir, cwd, joinedBlob, newBlobs);
    if master.Err? {
      return Err(master.error);
    }
    ListingMembers(listing, store.blobs);
    NewBlobsMembers(listing, processed);
    NewBlobsDistinct(listing, processed);
    Publish(store, joinedBlob, WriteLines(master.value), manifestBlob, processed, newBlobs, deleteAfter);
    r := Ok(Status(deleteAfter, |newBlobs|));
  }

  /** Steps 6 to 8: upload the joined blob, then the manifest, then delete the new blobs when asked. */
  method Publish(store: AzureBlobs.BlobStore, joinedBlob: string, master: string, manifestBlob: string,
                 processed: set<string>, newBlobs: seq<string>, deleteAfter: bool)
    requires store.Valid() && Distinct(newBlobs) && forall n :: n in newBlobs ==> n in store.blobs
    modifies store
    ensures store.Valid()
    ensures exists manifest ::
              && ManifestText(manifest, processed + SetOf(newBlobs))
              && Published(old(store.blobs), old(store.order), old(store.log), joinedBlob, master, manifestBlob, manifest,
                           deleteAfter, newBlobs, store.blobs, store.order, store.log)
  {
    var names := Enumerate(processed + SetOf(newBlobs));
    var manifest := JoinWith(names, '\n');
    assert ManifestText(manifest, processed + SetOf(newBlobs));
    UploadBoth(store, joinedBlob, master, manifestBlob, manifest);
    ghost var uploaded := store.blobs;
    if deleteAfter {
      assert forall n :: n in newBlobs ==> n in uploaded;
      var _ := store.DeleteBlobsByNames(newBlobs);
    }
    assert Published(old(store.blobs), old(store.order), old(store.log), joinedBlob, master, manifestBlob, manifest,
                     deleteAfter, newBlobs, store.blobs, store.order, store.log);
  }

  /** Steps 6 and 7: the two uploads, in that order. */
  method UploadBoth(store: AzureBlobs.BlobStore, joinedBlob: string, master: string, manifestBlob: string, manifest: string)
    requires store.Valid()
    modifies store
    ensures store.Valid()
    ensures (store.blobs, store.order, store.log) ==
            Uploads(old(store.blobs), old(store.order), old(store.log), joinedBlob, master, manifestBlob, manifest)
  {
    store.UploadText(joinedBlob, master);
    assert manifestBlob in store.blobs <==> manifestBlob in old(store.blobs).Keys + {joinedBlob};
    store.UploadText(manifestBlob, manifest);
    assert old(store.log) + [AzureBlobs.Uploaded(joinedBlob, master)] + [AzureBlobs.Uploaded(manifestBlob, manifest)] ==
           old(store.log) + [AzureBlobs.Uploaded(joinedBlob, master), AzureBlobs.Uploaded(manifestBlob, manifest)];
  }
}
