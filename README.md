# Incremental CSV merge over a blob container

This project models the core of a small service that keeps one merged CSV file up to date
from the CSV blobs dropped into an Azure blob container, and proves properties of that model.
One run of `incremental_join_and_upload` (util.py) goes through these steps:

1. It reads the manifest blob (`joined/processed_blobs.txt`), which lists the blobs already merged.
2. It lists the container and keeps the blobs that are neither in the manifest nor under `joined/`.
3. It downloads those blobs into a temporary folder. Each file is named by the final segment of
   its blob name, through the `safe_join` path guard.
4. It writes the current joined blob into `all_data.csv` in that folder.
5. It joins into `all_data.csv` every regular file of the folder, other than `all_data.csv`
   itself, that holds at least one line, whatever its extension. The first such file's header
   is kept and every later file's header is dropped.
6. It sorts the data rows by their `Time` column.
7. It uploads the result as `joined/all_data.csv`, uploads the grown manifest and, when asked,
   deletes the blobs it merged.

Modules, one per concern of the source:

- `Wrappers`: `Option` and `Result`.
- `Text`: the pieces of Python's `str` that the code uses, and a text file seen as its list of lines.
- `Listings`: name listings, each name exactly once, and what is left after removals.
- `Timestamps`: `strptime` with the format `%m/%d/%Y %H:%M:%S`, and the order on `datetime`.
- `CsvSort`: the pure computation of `sort_csv_by_time`.
- `Paths`: `basename`, `join`, `abspath` and `commonpath`, and `safe_join`.
- `Staging`: the class `StagingDir`, a local folder with its entries and its listing order,
  updated in place by `ensure_clean_folder`, `join_csv_files_in_folder` and `sort_csv_by_time`.
- `Manifest`: parsing the manifest, choosing the new blobs, writing the manifest back.
- `AzureBlobs`: the class `BlobStore`, the container with its blobs, its listing order and a
  log of the writes, plus the download loop of `download_blobs_by_names`.
- `Pipeline`: the run as a whole.

Some inputs are parameters rather than something the model reads for itself:

- the current working directory, which `abspath` uses;
- the name of the temporary folder;
- the order in which the elements of a Python `set` are enumerated.

## Model

| member | source | states |
|---|---|---|
| Text.Split | util.py:66 | `split('\n')` gives at least one piece, and no piece contains the separator |
| Text.SplitJoin | util.py:66 | splitting a joined list whose parts avoid the separator gives the parts back |
| Text.JoinSplit | util.py:93 | joining the pieces of a split with the same separator gives the text back |
| Text.JoinWithInjective | util.py:93 | two lists of separator-free parts that join to the same text are equal |
| Text.LastIndexOf | Services/azureService.py:12 | the result is -1 or a position of the character, with no occurrence after it |
| Text.Strip | util.py:66 | `strip()` gives a slice of the text with only white space before and after it, and the slice is trimmed: no white space at either end |
| Text.LStrip | util.py:66 | what is dropped is a run of leading white space, and the rest starts with a non-space |
| Text.RStrip | util.py:66 | what is dropped is a run of trailing white space, and the rest ends with a non-space |
| Text.StripTrimmed | util.py:66 | text without white space at its ends is left unchanged by `strip()` |
| Text.ReadLines | Services/fileService.py:33 | no line of a file read back contains a newline |
| Text.WriteLines | Services/fileService.py:37 | the written text is empty exactly for no lines, and otherwise ends with a newline |
| Text.ReadWriteLines | Services/fileService.py:32-37 | lines free of newlines are written and read back unchanged |
| Text.WriteReadLines | Services/fileService.py:32-37 | a file that is empty or ends with a newline is rewritten unchanged from its lines |
| Timestamps.ParseTime | Services/fileService.py:48 | `strptime(t, "%m/%d/%Y %H:%M:%S")` gives only valid timestamps: the date is the text before the last run of white space, the time the text after it, each read as three numeric fields |
| Timestamps.ParseFormat | Services/fileService.py:48 | every valid timestamp is parsed back from its formatted text |
| Timestamps.ParseSpaced | Services/fileService.py:48 | a valid timestamp is parsed back from its date and time fields joined by any non-empty run of white space, with the day zero-padded or space-padded |
| Timestamps.NotAfterTotal | Services/fileService.py:57 | any two sort keys are comparable |
| Timestamps.NotAfterTransitive | Services/fileService.py:57 | the key order is transitive |
| Timestamps.NotAfterAntisymmetric | Services/fileService.py:57 | keys that are mutually not after each other are equal |
| Timestamps.PaddedValue | Services/fileService.py:48 | a zero-padded number is read back as that number |
| CsvSort.FormatParseRow | Services/fileService.py:53-61 | writing a line's CSV row back reproduces the line |
| CsvSort.IndexOf | Services/fileService.py:55 | `header.index` fails exactly when the column is absent, and otherwise gives its first position |
| CsvSort.StableSort | Services/fileService.py:57 | the result is a permutation of the input, in ascending key order |
| CsvSort.StableSortStable | Services/fileService.py:57 | for every key, the rows with that key keep their relative order |
| CsvSort.StableSortSorted | Services/fileService.py:57 | input that is already in order is returned unchanged |
| CsvSort.InsertPermutes | Services/fileService.py:57 | one insertion step adds exactly the inserted row |
| CsvSort.SortRowsFails | Services/fileService.py:53-57 | there are three errors: no rows; no such column in the header; a data row whose value is missing or does not parse. Each happens exactly when its cause is present |
| CsvSort.SortRowsCorrect | Services/fileService.py:53-62 | on success the header is kept and the data rows are permuted into ascending time order, rows with equal times in their original order |
| CsvSort.SortRowsIdempotent | Services/fileService.py:53-62 | sorting a file the sort just produced gives the same file |
| CsvSort.SortLinesCorrect | Services/fileService.py:51-64 | on success the first line is kept, and the other lines are a permutation of the input's in ascending order of the time column, lines with equal timestamps in their input order |
| CsvSort.SortLinesRows | Services/fileService.py:51-64 | reading back the written lines as CSV gives exactly the sorted rows |
| CsvSort.SortRows | Services/fileService.py:53-62 | defines the sort of parsed rows on the column: the header first, then the data rows stably sorted by time, or one of three errors; its properties are proved by CsvSort.SortRowsFails, CsvSort.SortRowsCorrect and CsvSort.SortRowsIdempotent |
| CsvSort.SortLines | Services/fileService.py:51-64 | defines `sort_csv_by_time` on the lines of a file: parse, sort the rows, format them back; its properties are proved by CsvSort.SortLinesCorrect |
| Paths.Basename | Services/azureService.py:12 | the result has no slash and is the suffix of the path after its last slash |
| Paths.Resolve | Services/azureService.py:14 | `normpath` of an absolute path keeps no empty, `.` or `..` segment |
| Paths.CommonPrefix | Services/azureService.py:14 | the result is the longest common prefix of two segment lists |
| Paths.CommonPathCheck | Services/azureService.py:14 | `commonpath([p, bd]) == bd` holds exactly when the segments of `bd` begin those of `p` |
| Paths.SafeJoinContained | Services/azureService.py:11-16 | `safe_join` succeeds exactly when the absolute result lies inside the absolute folder, and a success always lies inside it |
| Paths.SafeJoinOutcome | Services/azureService.py:11-16 | it fails exactly when the final segment is `..` and the folder is not the root, and otherwise returns the folder joined with the final segment |
| Paths.SafeJoinIgnoresDirectories | Services/azureService.py:12 | the directory part of a blob name has no effect on the result |
| Paths.SafeJoinIdempotent | Services/azureService.py:11-16 | guarding a path the guard returned gives the same path |
| Paths.TraversalIsFlattened | Services/azureService.py:12-16 | `../../etc/passwd` under `/data/stage` is accepted as `/data/stage/passwd` instead of being refused |
| Paths.PlainNameAccepted | Services/azureService.py:11-16 | a slash-free name other than `..` goes into the folder, one slash after the folder |
| Paths.ParentNameRefused | Services/azureService.py:14-15 | a name whose final segment is `..` is refused under a folder whose last segment is an ordinary name |
| Paths.BasenameJoin | Services/azureService.py:12-13 | the final segment of the joined path is the file name |
| Paths.Join | Services/azureService.py:13 | defines `os.path.join` of two parts: an absolute second part replaces the first, otherwise one `/` separates them; its properties are proved by Paths.BasenameJoin and Paths.SafeJoinOutcome |
| Paths.AbsPath | Services/azureService.py:14 | defines `os.path.abspath`: the path made absolute against the working directory and normalised; its properties are proved by Paths.Resolve and Paths.TraversalIsFlattened |
| Paths.CommonPath | Services/azureService.py:14 | defines `os.path.commonpath` of two paths as their longest common run of components; its properties are proved by Paths.CommonPrefix and Paths.CommonPathCheck |
| Paths.SafeJoin | Services/azureService.py:11-16 | defines `safe_join`: the folder joined with the file name's last segment, refused when it lies outside the folder; its properties are proved by Paths.SafeJoinContained, Paths.SafeJoinOutcome and Paths.SafeJoinIdempotent |
| Staging.WrittenLines | Services/fileService.py:63-64 | what `open(path, "w")` writes is read back, through a file or a link alike |
| Staging.WrittenTwice | Services/fileService.py:63-64 | a second write replaces the first one's lines |
| Staging.StagingDir.constructor | util.py:75 | the temporary folder starts out present and empty |
| Staging.StagingDir.MakeDirs | Services/azureService.py:52 | `makedirs(exist_ok=True)` leaves the folder present with the entries it had |
| Staging.StagingDir.EnsureCleanFolder | Services/fileService.py:10-20 | an absent folder is created empty; in a present one every file, link and directory is removed, and the listing keeps the rest in order |
| Staging.CleanIdempotent | Services/fileService.py:10-20 | after a clean only special entries are left, and a second clean changes nothing |
| Staging.CleanEntries | Services/fileService.py:10-20 | defines the folder after `ensure_clean_folder`: an absent folder becomes empty, a present one loses its files, links and sub-folders and keeps only special entries; its properties are proved by Staging.CleanIdempotent and Staging.StagingDir.EnsureCleanFolder |
| Staging.StagingDir.JoinCsvFiles | Services/fileService.py:23-42 | it opens the output or fails without touching anything. It then writes the merged files to the output and removes exactly the merged inputs: other names, files, at least one line |
| Staging.StagingDir.JoinAll | Services/fileService.py:28-42 | the loop leaves the folder as the join of every listed name |
| Staging.StagingDir.JoinNext | Services/fileService.py:29-42 | one pass extends the join by one listed name |
| Staging.JoinedEntriesContents | Services/fileService.py:23-42 | after the join the output holds the merged lines, the inputs are gone, and every other entry is unchanged |
| Staging.ConsumedMembers | Services/fileService.py:30-35 | a name is merged exactly when it is listed, is not the output, and is a non-empty file |
| Staging.ConcatenateSameHeader | Services/fileService.py:36-41 | files that share a header merge into that header once, followed by every file's data lines in order |
| Staging.MergedIgnoresOutput | Services/fileService.py:27 | what the output held before the join has no influence on the merge |
| Staging.MergedAppendOutput | Services/fileService.py:30 | the output's own listing entry is skipped |
| Staging.Concatenate | Services/fileService.py:36-41 | defines the merge of several files: all lines of the first, then every later file without its first line; its properties are proved by Staging.ConcatenateSameHeader |
| Staging.Merged | Services/fileService.py:23-42 | defines the lines `join_csv_files_in_folder` writes: the merge, in listing order, of the files other than the output that hold at least one line; its properties are proved by Staging.MergedIgnoresOutput and Staging.MergedAppendOutput |
| Staging.JoinedEntries | Services/fileService.py:23-42 | defines the folder after the join: the merged files removed and the output holding the merged lines; its properties are proved by Staging.JoinedEntriesContents and Staging.StagingDir.JoinCsvFiles |
| Staging.StagingDir.Remove | Services/fileService.py:42 | removing an entry deletes exactly that name from the folder and its listing, and leaves every other entry as it was |
| Staging.StagingDir.Absorb | Services/fileService.py:37-42 | one join step: the output takes its new contents and the merged input is removed, nothing else changes |
| Staging.StagingDir.ReadFile | util.py:88-89 | reading fails exactly when the entry is no readable file, and otherwise gives its lines |
| Staging.StagingDir.WriteFile | util.py:81-82 | the entry is created or overwritten, or the write fails with the folder unchanged |
| Staging.StagingDir.SortCsvByTime | Services/fileService.py:45-64 | the file is rewritten with its lines sorted. Otherwise the read or sort error is returned and the folder is unchanged |
| Manifest.ParseManifest | util.py:63-66 | empty text means nothing processed; other text gives a non-empty set of newline-free names |
| Manifest.NewBlobsMembers | util.py:70 | a name is new exactly when it is listed, not in the manifest, and not under `joined/` |
| Manifest.NewBlobsAppend | util.py:70 | the filter keeps the listing order |
| Manifest.NewBlobsDistinct | util.py:70 | a listing without repeats gives new blobs without repeats |
| Manifest.NewBlobs | util.py:70 | defines the list comprehension that keeps the listed names neither processed nor under `joined/`; its properties are proved by Manifest.NewBlobsMembers, Manifest.NewBlobsAppend and Manifest.NewBlobsDistinct |
| Manifest.NoNewBlobs | util.py:70-72 | nothing is new when no listed name is |
| Manifest.NothingNewTwice | util.py:69-92 | once the new blobs join the processed set, no listed name and no `joined/` name is new again |
| Manifest.ParseJoin | util.py:63-66 | a manifest written for recordable names is parsed back as exactly their set |
| Manifest.ManifestGrows | util.py:92-93 | the manifest read by the next run holds the old processed set and the new blobs, so it never loses a name |
| Manifest.LeadingSpaceLost | util.py:63-66 | a name with leading white space that is written first comes back without it, so it is no longer recognised |
| Manifest.Enumerate | util.py:93 | iterating a set yields each member exactly once |
| AzureBlobs.BlobStore.constructor | Services/azureService.py:5-9 | the store starts with the given blobs and listing and an empty write log |
| AzureBlobs.BlobStore.DownloadText | Services/azureService.py:32-38 | the blob's text, or `""` when the blob does not exist |
| AzureBlobs.BlobStore.UploadText | Services/azureService.py:40-42 | the blob is created or overwritten, listed once, and the upload is logged |
| AzureBlobs.BlobStore.ListBlobNames | Services/azureService.py:44-48 | every blob name, each exactly once |
| AzureBlobs.BlobStore.DeleteBlob | Services/azureService.py:66-67 | a present blob is removed and logged; deleting a missing one fails and changes nothing |
| AzureBlobs.BlobStore.DeleteBlobsByNames | Services/azureService.py:64-67 | it succeeds exactly when the names are distinct and present, and then deletes them in order. Otherwise it stops at the first missing name, after deleting the ones before |
| AzureBlobs.BlobStore.DeleteNext | Services/azureService.py:65-67 | one pass deletes the next name or reports it missing |
| AzureBlobs.BlobStore.DownloadBlobsByNames | Services/azureService.py:50-62 | the folder exists afterwards and the loop's model result is reached. A failure reports the loop's first error, after writing the names before it |
| AzureBlobs.BlobStore.WriteAll | Services/azureService.py:53-62 | the loop ends in the folder state of writing every fetched blob in order, or in the first failure |
| AzureBlobs.WriteFetched | Services/azureService.py:55-61 | one pass writes the next blob's file, or stops with the error that ends the whole loop |
| AzureBlobs.FetchOfOutcome | Services/azureService.py:55-58 | a name is fetched exactly when its blob exists and its final segment names a file, and it then carries that segment and the blob's lines |
| AzureBlobs.FetchOf | Services/azureService.py:55-58 | defines the fetch of one blob: refused for an unsafe name, a missing blob, or a key naming a folder, otherwise its key and lines; its properties are proved by AzureBlobs.FetchOfOutcome |
| AzureBlobs.PlaceOk | Services/azureService.py:54-61 | the writes succeed exactly when every blob was fetched and every target could be opened at the start |
| AzureBlobs.PlaceLastWins | Services/azureService.py:54-61 | every target file holds the lines of the last blob written to it, and every other entry is unchanged |
| AzureBlobs.PlaceDomain | Services/azureService.py:54-61 | afterwards the folder holds its old entries and the target files |
| AzureBlobs.PlaceOrder | Services/azureService.py:54-61 | afterwards the folder lists its old names, then the new files in the order first written |
| AzureBlobs.PlaceFiles | Services/azureService.py:59-60 | into a folder of regular files only regular files are written |
| AzureBlobs.KeysOfMembers | Services/azureService.py:54-61 | a file is among the written ones exactly when some fetched blob was written to it |
| AzureBlobs.DownloadOk | Services/azureService.py:50-62 | the loop succeeds exactly when every name is downloadable and its target could be opened at the start |
| AzureBlobs.DownloadLastWins | Services/azureService.py:54-61 | a file some name ends in holds the text of the last such blob, and every other entry is unchanged |
| AzureBlobs.DownloadOrder | Services/azureService.py:54-61 | the folder lists its old names, then the distinct final segments in the order first written |
| AzureBlobs.Place | Services/azureService.py:54-61 | defines the writes of the fetched blobs into the folder, stopping at the first refusal; its properties are proved by AzureBlobs.PlaceOk, AzureBlobs.PlaceLastWins, AzureBlobs.PlaceDomain and AzureBlobs.PlaceOrder |
| AzureBlobs.Download | Services/azureService.py:50-62 | defines `download_blobs_by_names` on the folder: fetch every name, then place the results; its properties are proved by AzureBlobs.DownloadOk, AzureBlobs.DownloadLastWins and AzureBlobs.DownloadOrder |
| Pipeline.Decimal | util.py:98-99 | `str(n)` is a non-empty string of digits without a leading zero |
| Pipeline.DecimalValue | util.py:98-99 | the digits in the status message read back as the count of new blobs |
| Pipeline.Status | util.py:96-99 | defines the status message, which mentions the deletion exactly when the blobs were deleted and gives the count of new blobs; Pipeline.IncrementalJoinAndUpload returns it |
| Pipeline.StagedFolder | util.py:75-76 | the downloaded folder holds one regular file per distinct final segment, in the order first written, each with its last blob's lines |
| Pipeline.MasterLinesCorrect | util.py:75-89 | staging succeeds exactly when every new blob is downloadable; the uploaded file then has the merged lines' header and their data rows, permuted into ascending `Time` order, rows with equal times in merged order |
| Pipeline.MasterLines | util.py:75-89 | defines the joined CSV the run uploads: the new blobs staged, merged and sorted by time; its properties are proved by Pipeline.MasterLinesCorrect |
| Pipeline.ManifestRoundTrip | util.py:92-93 | the written manifest of recordable names is read back as the processed set |
| Pipeline.NextProcessed | util.py:63-93 | the next run reads the old processed set together with the new blobs |
| Pipeline.NextRunIdle | util.py:61-97 | a run that published leaves nothing new for the next run |
| Pipeline.PublishedContents | util.py:90-97 | afterwards the container holds the manifest unless it was among the deleted blobs, and nothing but old blobs and the two uploads |
| Pipeline.Stage | util.py:75-89 | the lines uploaded as the joined blob, or the download or staging error |
| Pipeline.PutPrevious | util.py:78-82 | writing the current joined blob into the output file does not change what the join merges |
| Pipeline.JoinAndSort | util.py:84-89 | the join, sort and read-back give the sorted merge of the folder, or the sort error |
| Pipeline.IncrementalJoinAndUpload | util.py:61-99 | With nothing new it returns the idle status. A failed staging returns its error. Either way the container is unchanged. Otherwise the status counts the new blobs, and the container holds the sorted merge, then a manifest of the old and new names, then (when asked) the deletions |
| Pipeline.Publish | util.py:90-97 | the joined blob and the manifest are uploaded in that order, then the new blobs are deleted when asked |
| Pipeline.UploadBoth | util.py:90-93 | the container after the two uploads, in that order |

## Left out

- Concurrency: the `async`/`await` structure is left out, and so is any concurrent access to the
  container or the folder. Each operation runs to completion on its own.
- The Azure SDK: the container is a map from name to text plus a listing order. Connection
  strings, credentials and network failures other than a missing blob are not modelled.
- AzureBlobs.BlobStore.UploadText: a newly created blob is listed after the existing ones, whereas
  Azure lists blob names in lexicographic order. Which blobs are new does not depend on this; the
  order of the new blobs, and so the order they are downloaded in, does.
- `download_text_blob`: every failure gives `""`, which the model represents by an absent blob.
  Bytes and UTF-8 decoding are not modelled; blob contents are strings of characters.
- `list_blob_names`: its optional `prefix` parameter is not modelled, because the pipeline calls it
  without one.
- `download_blobs` (Services/azureService.py:18-30) is not part of this model: the pipeline does not
  call it.
- `download_blobs_by_names`: the model returns the list of names, not the dictionary that wraps them.
  `os.makedirs` can only find the folder present here, because the pipeline creates it just before.
- Files are lists of lines, read at `\n` only. `\r\n` and `\r` translation and encodings are
  not modelled.
- Staging.Merged: every merged line ends with a newline. In the source `readlines` keeps each
  line's terminator and `writelines` adds none, so when a file's last line has no newline, the
  next file's first data line is glued onto it.
- CsvSort.SortLines: the file is split into rows at `\n` only. `splitlines()` also breaks lines at
  `\x0b`, `\x0c`, `\x1c` to `\x1e`, `\x85`, `\u2028` and `\u2029`, so a file holding those
  characters has more rows in the source than in the model.
- Timestamps.ParseTime: only the ASCII digits are digits. The regular expression behind
  `strptime` also takes other Unicode decimal digits, which then read as numbers.
- CSV quoting and escaping are not modelled: a row is its line split at commas.
- `strptime` is modelled for the default format only, and without locale or time zone.
- Links are copies: a link stores the contents of the file it resolves to. Sharing between a link
  and its target is not modelled.
- Staging.WriteError: opening a dangling link for writing creates its target. A target in a
  directory that does not exist, which makes the open fail, is not modelled.
- Staging.StagingDir.EnsureCleanFolder: the folder is either absent or a directory, and every
  removal succeeds. The source raises in cases the model does not have: the path is a regular
  file (`listdir` fails), the path is a dangling link (`exists` is false, then `mkdir` fails), the
  parent directory is missing (`mkdir` fails), or a removal is refused for lack of permission.
- The folder's listing order: the model lists a folder's entries in the order they were created,
  a new file after the existing ones. `os.listdir` promises no order; the real order depends on the
  file system. The members below depend on this choice:
- AzureBlobs.PlaceOrder: the listing after the writes, old names first and then new files in the
  order first written, holds only for the creation-order listing.
- AzureBlobs.DownloadOrder: the same, for the download loop.
- Pipeline.StagedFolder: the part `order == Dedup(Files(newBlobs))` holds only for the
  creation-order listing; the files present and their contents do not depend on it.
- Staging.StagingDir.JoinCsvFiles: the files are merged in the folder's modelled listing order.
  With another order the same files are merged and removed, but another file's header is kept
  and the data lines come in another order.
- Pipeline.MasterLines: which downloaded file's header the uploaded file keeps, and the order of
  rows with equal `Time` values, follow the download order. Under another listing order the
  source can keep another header and order rows with equal times differently.
- Pipeline.IncrementalJoinAndUpload: its uploaded file is `Pipeline.MasterLines`, with the same
  dependence on the listing order.
- `os.path.abspath` takes the working directory as a parameter. The special meaning of a leading
  `//` is not modelled.
- The temporary folder: `tempfile.TemporaryDirectory` is a fresh, empty folder whose name is a
  parameter. Deleting it afterwards is not modelled.
- The `target_folder` parameter of `incremental_join_and_upload` is unused by it, and so is absent.
  main.py, the data models and the other functions of util.py are not part of this model.
- Where the code and its description disagree, the model follows the code:
  - `safe_join` keeps only the final segment of the name. A name that climbs out of the folder is
    therefore flattened into it, not refused (`Paths.TraversalIsFlattened`).
  - `join_csv_files_in_folder` opens `all_data.csv` with "w". This truncates the joined blob
    written there in step 4, so the uploaded file holds only the newly merged blobs, sorted
    (`Pipeline.MasterLines`, `Pipeline.PutPrevious`).
  - The manifest is stripped as a whole, not name by name (`Manifest.LeadingSpaceLost`).
- Manifest.ParseJoin: stated only for names that are non-empty, newline-free, and without white
  space at their ends. Other names are not read back faithfully, as `Manifest.LeadingSpaceLost`
  shows.
- Pipeline.NextRunIdle: stated only when the joined blob and the manifest are under `joined/`, as
  they are by default. With other names the next run would treat the pipeline's outputs as input.
- Pipeline.IncrementalJoinAndUpload: the status is returned as its text, not as the dictionary
  `{'status': ...}`.
