/**
 The duplicate-classification fold of the duplicate files finder.

 The finder walks a list of file paths once, in order. It keeps a map from
 content digest to the path currently kept for that digest (the "keeper") and
 an append-only list of paths reported as duplicates. The digest of a file
 (an MD5 hex digest) and its modification time are fixed functions of the path
 here; they are bundled in a `FileSystem` value.
 */
module Scanning {

  type Path = string

  /** Hexadecimal content digest of a file. */
  type Digest = string

  /** What the scan asks of the file system: a digest and a modification time per path. */
  datatype FileSystem = FileSystem(digest: Path -> Digest, mtime: Path -> int)

  /** State of a scan: the keeper per digest, and the duplicates reported so far. */
  datatype Scan = Scan(seen: map<Digest, Path>, duplicates: seq<Path>)

  /** Both collections start empty on every run. */
  const Empty: Scan := Scan(map[], [])

  /** The set of digests of the given paths. */
  function Digests(fs: FileSystem, files: seq<Path>): (r: set<Digest>)
    ensures forall i :: 0 <= i < |files| ==> fs.digest(files[i]) in r
    decreases |files|
  {
    if files == [] then {} else Digests(fs, files[..|files| - 1]) + {fs.digest(files[|files| - 1])}
  }

  /** Every member of `Digests` is the digest of some input path. */
  lemma {:induction false} DigestsWitness(fs: FileSystem, files: seq<Path>, h: Digest) returns (i: int)
    requires h in Digests(fs, files)
    ensures 0 <= i < |files| && fs.digest(files[i]) == h
  {
    var prefix := files[..|files| - 1];
    if h == fs.digest(files[|files| - 1]) {
      i := |files| - 1;
    } else {
      i := DigestsWitness(fs, prefix, h);
      assert files[i] == prefix[i];
    }
  }

  /** True when `p` is the path kept for its own digest. */
  predicate IsKeeper(fs: FileSystem, s: Scan, p: Path)
  {
    fs.digest(p) in s.seen && s.seen[fs.digest(p)] == p
  }

  /**
   Processes one file. A new digest makes the file its keeper and reports
   nothing. A known digest reports exactly one of the file and the current
   keeper as a duplicate and keeps the other: the kept path is never older
   than the reported one, and on equal times the file just processed is kept.
   */
  function Step(fs: FileSystem, s: Scan, file: Path): (r: Scan)
    ensures r.seen.Keys == s.seen.Keys + {fs.digest(file)}
    ensures forall h :: h in s.seen && h != fs.digest(file) ==> r.seen[h] == s.seen[h]
    ensures fs.digest(file) !in s.seen ==>
      r.seen[fs.digest(file)] == file && r.duplicates == s.duplicates
    ensures var d := fs.digest(file);
      d in s.seen ==>
        && |r.duplicates| == |s.duplicates| + 1
        && r.duplicates[..|s.duplicates|] == s.duplicates
        && var kept, dropped := r.seen[d], r.duplicates[|s.duplicates|];
           && ((kept == file && dropped == s.seen[d]) || (kept == s.seen[d] && dropped == file))
           && fs.mtime(dropped) <= fs.mtime(kept)
           && (fs.mtime(file) == fs.mtime(s.seen[d]) ==> kept == file)
  {
    var d := fs.digest(file);
    if d in s.seen then
      if fs.mtime(file) < fs.mtime(s.seen[d]) then
        Scan(s.seen, s.duplicates + [file])
      else
        Scan(s.seen[d := file], s.duplicates + [s.seen[d]])
    else
      Scan(s.seen[d := file], s.duplicates)
  }

  /**
   The whole scan: `Step` applied to every path of `files`, first to last,
   starting from empty collections. Afterwards the map holds one keeper per
   distinct digest of the input.
   */
  function FindDuplicates(fs: FileSystem, files: seq<Path>): (r: Scan)
    ensures r.seen.Keys == Digests(fs, files)
    decreases |files|
  {
    if files == [] then
      Empty
    else
      Step(fs, FindDuplicates(fs, files[..|files| - 1]), files[|files| - 1])
  }
}
