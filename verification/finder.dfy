/**
 The finder object as the user interface drives it: it holds the current
 file list and the duplicates of the last run. A run walks the list once
 with a loop, updating the progress percentage after every file.
 */
module Finder {
  import opened Scanning
  import ScanProperties

  /** The part of the finder's state that a run reads and writes. */
  datatype Finder = Finder(fileList: seq<Path>, duplicates: seq<Path>)

  /** Progress shown after the file at index `i` of `total` files is processed. */
  function Progress(i: nat, total: nat): (r: real)
    requires i < total
    ensures 0.0 < r <= 100.0
    ensures i + 1 == total <==> r == 100.0
  {
    (i + 1) as real / total as real * 100.0
  }

  /** The progress values recorded after each of the first `n` of `total` files. */
  function ProgressSeries(n: nat, total: nat): (r: seq<real>)
    requires n <= total
    ensures |r| == n
    ensures forall i :: 0 <= i < n ==> r[i] == Progress(i, total)
  {
    if n == 0 then [] else ProgressSeries(n - 1, total) + [Progress(n - 1, total)]
  }

  /** Progress only increases as the loop advances. */
  lemma ProgressIncreases(i: nat, j: nat, total: nat)
    requires i < j < total
    ensures Progress(i, total) < Progress(j, total)
  {
    var t := total as real;
    assert (i + 1) as real / t < (j + 1) as real / t;
  }

  /** Hint for the verifier: the prefix of the whole length is the sequence itself. */
  lemma WholePrefix(s: seq<Path>)
    ensures s[..|s|] == s
  {
  }

  /**
   The loop of a run, written as the source writes it. The two collections
   start empty, each file is classified against the keeper of its digest,
   and a progress value is recorded per file; an empty list runs no
   iteration and so never divides by the file count.
   */
  method FindDuplicatesLoop(fs: FileSystem, fileList: seq<Path>)
    returns (seen: map<Digest, Path>, duplicates: seq<Path>, progress: seq<real>)
    ensures Scan(seen, duplicates) == FindDuplicates(fs, fileList)
    ensures progress == ProgressSeries(|fileList|, |fileList|)
    ensures fileList == [] ==> seen == map[] && duplicates == [] && progress == []
  {
    duplicates := [];
    seen := map[];
    var totalFiles := |fileList|;
    progress := [];
    var i := 0;
    while i < totalFiles
      invariant 0 <= i <= totalFiles
      invariant Scan(seen, duplicates) == FindDuplicates(fs, fileList[..i])
      invariant progress == ProgressSeries(i, totalFiles)
    {
      ScanProperties.PrefixStep(fs, fileList, i);
      var filePath := fileList[i];
      var fileHash := fs.digest(filePath);
      if fileHash in seen {
        var currentTimestamp := fs.mtime(filePath);
        var existingTimestamp := fs.mtime(seen[fileHash]);
        if currentTimestamp < existingTimestamp {
          duplicates := duplicates + [filePath];
        } else {
          duplicates := duplicates + [seen[fileHash]];
          seen := seen[fileHash := filePath];
        }
      } else {
        seen := seen[fileHash := filePath];
      }
      var progressPercentage := (i + 1) as real / totalFiles as real * 100.0;
      assert progressPercentage == Progress(i, totalFiles);
      progress := progress + [progressPercentage];
      assert progress == ProgressSeries(i + 1, totalFiles);
      i := i + 1;
    }
    WholePrefix(fileList);
  }

  /**
   A run of the finder: the previous duplicates are discarded and replaced
   by those of a fresh scan of the current file list; the file list itself
   is left alone.
   */
  function Run(fs: FileSystem, f: Finder): (r: Finder)
    ensures r.fileList == f.fileList
    ensures |r.duplicates| == |f.fileList| - |Digests(fs, f.fileList)|
    ensures forall p :: p in r.duplicates ==> p in f.fileList
  {
    var s := FindDuplicates(fs, f.fileList);
    DuplicatesInInput(fs, f.fileList);
    ScanProperties.DuplicateCount(fs, f.fileList);
    Finder(f.fileList, s.duplicates)
  }

  /** Corollary of `ScanProperties.DuplicatesNotNewerThanKeeper`: every reported duplicate is an input path. */
  lemma DuplicatesInInput(fs: FileSystem, files: seq<Path>)
    ensures forall p :: p in FindDuplicates(fs, files).duplicates ==> p in files
  {
    ScanProperties.DuplicatesNotNewerThanKeeper(fs, files);
  }

  /**
   Because both collections are reset at the start of a run, the result
   depends only on the file list: the previous duplicates do not matter,
   and running twice gives the same state as running once.
   */
  lemma RunIgnoresPreviousResult(fs: FileSystem, f: Finder, g: Finder)
    requires f.fileList == g.fileList
    ensures Run(fs, f) == Run(fs, g)
    ensures Run(fs, Run(fs, f)) == Run(fs, f)
  {
  }
}
