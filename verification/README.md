# PyDupes duplicate classification, modelled in Dafny

PyDupes is a small Tkinter tool that lists the files under a directory and
reports which ones are duplicates. Its one piece of real logic is
`DuplicateFilesFinder.find_duplicates`. This method walks the file list once, in
order. It keeps a map `seen_hashes` from MD5 hex digest to the path currently
kept for that digest (the keeper). It also keeps a list `duplicates` of the
paths it reports for deletion. For each file:

- a digest seen for the first time makes the file that digest's keeper;
- a digest already in the map compares the modification times of the file and
  of the keeper. The file is reported if it is strictly older. Otherwise the old
  keeper is reported and the file becomes the new keeper.

The project models this fold as a pure function and proves what it guarantees.

- `scanning.dfy` (module `Scanning`) defines paths, digests and the scan state.
  It also defines `Step`, one iteration of the loop, and `FindDuplicates`, the
  whole fold. The digest and the modification time are total functions of the
  path, bundled in a `FileSystem` value. The MD5 computation and
  `os.path.getmtime` therefore become parameters.
- `properties.dfy` (module `ScanProperties`) proves properties of the whole
  scan. These cover keys, counts, the partition of the input between keepers
  and duplicates, which file a bucket keeps, and when nothing is reported.
- `finder.dfy` (module `Finder`) mirrors the method as written: a loop with the
  source's variable names in camelCase (`seen_hashes` is `seen`) and its
  progress percentage. It proves that the loop
  computes `FindDuplicates`. It also models the finder's state across runs.

**Which copy is kept.** The comment at `PyDupes.py:83` says the file with the
earliest modification time is kept. The code does the opposite, and this model follows the code. A bucket keeps its most recently
modified file. Among equally recent files it keeps the one processed last.
`ScanProperties.KeeperIsLastLatest` states this for every bucket.
`ScanProperties.TwoCopiesKeepLatest` is the two-file case: the older copy,
processed first, is the one reported for deletion.

## Model

| member | source | states |
|---|---|---|
| Scanning.Step | PyDupes.py:76-90 | A new digest makes the file its keeper and reports nothing. A known digest reports exactly one of {file, keeper} and keeps the other. The kept one is never older, and on equal times the current file is kept. Other buckets are untouched, the key set grows by the file's digest, and earlier duplicates stay in place. |
| Scanning.FindDuplicates | PyDupes.py:70-91 | Starting from an empty map and list, the final key set of `seen_hashes` is exactly the set of digests of the input files. |
| ScanProperties.DuplicateCount | PyDupes.py:78-90 | The number of reported duplicates equals the number of input files minus the number of distinct digests. |
| ScanProperties.KeepersBelongToTheirBucket | PyDupes.py:78-90 | Each keeper has the digest it is filed under and is one of the input files. |
| ScanProperties.DuplicatesNotNewerThanKeeper | PyDupes.py:78-88 | Each reported duplicate is an input file. Its digest has a keeper, and that keeper's modification time is at least the duplicate's. |
| ScanProperties.Partition | PyDupes.py:84-90 | For every path, its occurrences in the input equal its occurrences among the duplicates plus one if it is its bucket's keeper. Nothing is lost and nothing is invented. |
| ScanProperties.PartitionMultiset | PyDupes.py:84-90 | As multisets, input files = reported duplicates + keepers (the values of `seen_hashes`). |
| ScanProperties.KeeperIsLastLatest | PyDupes.py:80-88 | Each bucket's keeper is the file, among those with that digest, that is most recently modified and, among those, processed last. When a bucket holds files with different times, the keeper is the latest one, not the earliest, so the code contradicts its comment at line 83 (`TwoCopiesKeepLatest` is the two-file case). |
| ScanProperties.LastLatestUnique | PyDupes.py:84-88 | The description of a bucket's keeper fits at most one input position, so it determines the keeper. |
| ScanProperties.UniqueDigestIsKept | PyDupes.py:78-90 | A file whose digest no other input file has is its bucket's keeper and is never reported. |
| ScanProperties.DistinctPathsPartition | PyDupes.py:84-90 | With no path listed twice, each input path is either its bucket's keeper or a reported duplicate, never both. Only input paths appear. No path is reported twice, so no duplicate is its own bucket's keeper. |
| ScanProperties.NoDuplicatesIff | PyDupes.py:75-90 | The duplicate list is empty if and only if no two input files share a digest. |
| ScanProperties.RescanKeepersFindsNothing | PyDupes.py:75-90 | Scanning again only kept files, each once, reports no duplicates. |
| ScanProperties.TwoCopiesKeepLatest | PyDupes.py:83-88 | Take two files with the same digest where the first processed is not newer than the second. The second is kept and the first is reported. |
| Finder.Progress | PyDupes.py:93 | The progress after file `i` of `total` lies in (0, 100] and is 100 exactly after the last file. |
| Finder.ProgressIncreases | PyDupes.py:93-94 | Progress strictly increases from one iteration to the next. |
| Finder.FindDuplicatesLoop | PyDupes.py:70-95 | The loop's final map and duplicate list are those of `FindDuplicates`. Its progress values are one per file, the i-th being `Progress(i, total)`. An empty list yields an empty map, an empty list and no progress update, so the division by the file count is never reached. |
| Finder.Run | PyDupes.py:70-75 | A run keeps the file list and replaces the previous duplicates. Their number is the file count minus the distinct digests, and every one is an input file. |
| Finder.RunIgnoresPreviousResult | PyDupes.py:71-72 | Both collections are reset at the start of each run, so the result depends only on the file list. Running twice gives the same state as running once. |

## Left out

- The MD5 computation and the chunked 8 KiB reads of `hash_file` (PyDupes.py:63-68). The digest is a total function of the path. A file that cannot be read raises in the source and aborts the scan; the model has no unreadable files.
- `get_files_in_directory` and `browse_directory` (PyDupes.py:51-61). These are a wrapper over `os.walk`. The file list is an input sequence.
- All Tkinter code: `create_widgets`, `display_result`, `add_checkbox_to_result_text` and `auto_select_duplicates` (PyDupes.py:17-49, 99-118). This is presentation. The final `display_result` call at line 97 is not modelled either.
- `delete_selected` (PyDupes.py:120-131). It passes each checkbox's boolean variable, not a file path, to `os.remove`, so it has no coherent deletion semantics.
- Modification times are integers. `os.path.getmtime` returns a float, and only its ordering matters here. Each time is read once per path: a file changing during the scan (the keeper's time is re-read at line 81) is not modelled.
- Finder.Progress: uses exact real arithmetic, not IEEE floating point, so the last value is exactly 100. Setting the Tkinter variable and `update_idletasks` (lines 94-95) are not modelled.
