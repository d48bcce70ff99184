/**
 Properties of the whole scan: where every input path ends up, which path a
 digest bucket keeps, and when nothing is reported at all.
 */
module ScanProperties {
  import opened Scanning

  /** No path occurs twice. */
  predicate Distinct(s: seq<Path>)
  {
    forall i, j :: 0 <= i < j < |s| ==> s[i] != s[j]
  }

  /** No two paths have the same digest. */
  predicate DistinctDigests(fs: FileSystem, files: seq<Path>)
  {
    forall i, j :: 0 <= i < j < |files| ==> fs.digest(files[i]) != fs.digest(files[j])
  }

  /**
   Reference description of the path a bucket keeps: `files[j]` has digest
   `h`, no file with that digest is newer, and every later file with that
   digest is strictly older.
   */
  predicate LastLatest(fs: FileSystem, files: seq<Path>, h: Digest, j: int)
  {
    && 0 <= j < |files|
    && fs.digest(files[j]) == h
    && (forall i :: 0 <= i < |files| && fs.digest(files[i]) == h ==> fs.mtime(files[i]) <= fs.mtime(files[j]))
    && (forall i :: j < i < |files| && fs.digest(files[i]) == h ==> fs.mtime(files[i]) < fs.mtime(files[j]))
  }

  /** At most one index satisfies the reference description of a keeper. */
  lemma LastLatestUnique(fs: FileSystem, files: seq<Path>, h: Digest, j1: int, j2: int)
    requires LastLatest(fs, files, h, j1) && LastLatest(fs, files, h, j2)
    ensures j1 == j2
  {
  }

  /** Every keeper of `s` has the digest it is filed under and occurs in `files`. */
  ghost predicate KeepersFrom(fs: FileSystem, s: Scan, files: seq<Path>)
  {
    forall h :: h in s.seen ==> fs.digest(s.seen[h]) == h && s.seen[h] in files
  }

  /** Every duplicate of `s` occurs in `files` and is not newer than its bucket's keeper. */
  ghost predicate DuplicatesBelow(fs: FileSystem, s: Scan, files: seq<Path>)
  {
    forall p :: p in s.duplicates ==>
      && p in files
      && fs.digest(p) in s.seen
      && fs.mtime(p) <= fs.mtime(s.seen[fs.digest(p)])
  }

  /** Each occurrence of a path in `files` is a duplicate of `s` or its being a keeper. */
  ghost predicate Accounted(fs: FileSystem, s: Scan, files: seq<Path>)
  {
    forall p :: multiset(files)[p] == multiset(s.duplicates)[p] + (if IsKeeper(fs, s, p) then 1 else 0)
  }

  lemma {:induction false} FindDuplicatesSnoc(fs: FileSystem, files: seq<Path>)
    requires files != []
    ensures files == files[..|files| - 1] + [files[|files| - 1]]
    ensures FindDuplicates(fs, files) == Step(fs, FindDuplicates(fs, files[..|files| - 1]), files[|files| - 1])
  {
  }

  /** The same unfolding, stated for the prefixes a loop over `files` walks through. */
  lemma PrefixStep(fs: FileSystem, files: seq<Path>, i: nat)
    requires i < |files|
    ensures FindDuplicates(fs, files[..i + 1]) == Step(fs, FindDuplicates(fs, files[..i]), files[i])
  {
    assert files[..i + 1][..i] == files[..i];
    FindDuplicatesSnoc(fs, files[..i + 1]);
  }

  lemma StepKeepsKeepersFrom(fs: FileSystem, s: Scan, files: seq<Path>, file: Path)
    requires KeepersFrom(fs, s, files)
    ensures KeepersFrom(fs, Step(fs, s, file), files + [file])
  {
    var r := Step(fs, s, file);
    forall h | h in r.seen
      ensures fs.digest(r.seen[h]) == h && r.seen[h] in files + [file]
    {
      if h != fs.digest(file) {
        assert r.seen[h] == s.seen[h];
      }
    }
  }

  lemma StepKeepsDuplicatesBelow(fs: FileSystem, s: Scan, files: seq<Path>, file: Path)
    requires KeepersFrom(fs, s, files)
    requires DuplicatesBelow(fs, s, files)
    ensures DuplicatesBelow(fs, Step(fs, s, file), files + [file])
  {
    var r := Step(fs, s, file);
    var d := fs.digest(file);
    forall p | p in r.duplicates
      ensures p in files + [file]
      ensures fs.digest(p) in r.seen
      ensures fs.mtime(p) <= fs.mtime(r.seen[fs.digest(p)])
    {
      if p in s.duplicates {
        if fs.digest(p) == d {
          assert fs.mtime(s.seen[d]) <= fs.mtime(r.seen[d]);
        } else {
          assert r.seen[fs.digest(p)] == s.seen[fs.digest(p)];
        }
      }
    }
  }

  lemma StepKeepsAccounted(fs: FileSystem, s: Scan, files: seq<Path>, file: Path)
    requires KeepersFrom(fs, s, files)
    requires Accounted(fs, s, files)
    ensures Accounted(fs, Step(fs, s, file), files + [file])
  {
    var r := Step(fs, s, file);
    var d := fs.digest(file);
    forall p
      ensures multiset(files + [file])[p] == multiset(r.duplicates)[p] + (if IsKeeper(fs, r, p) then 1 else 0)
    {
      assert multiset(files + [file])[p] == multiset(files)[p] + (if p == file then 1 else 0);
      if d in s.seen {
        var added := r.duplicates[|s.duplicates|];
        assert r.duplicates == s.duplicates + [added];
        assert multiset(r.duplicates)[p] == multiset(s.duplicates)[p] + (if p == added then 1 else 0);
        if fs.digest(p) != d {
          assert IsKeeper(fs, r, p) == IsKeeper(fs, s, p);
        }
      } else {
        if fs.digest(p) != d {
          assert IsKeeper(fs, r, p) == IsKeeper(fs, s, p);
        }
      }
    }
  }

  /**
   A file whose digest is already known adds exactly one duplicate and a new
   digest adds none, so the duplicates number the files minus the distinct digests.
   */
  lemma {:induction false} DuplicateCount(fs: FileSystem, files: seq<Path>)
    ensures |FindDuplicates(fs, files).duplicates| == |files| - |Digests(fs, files)|
  {
    if files != [] {
      var prefix, last := files[..|files| - 1], files[|files| - 1];
      FindDuplicatesSnoc(fs, files);
      DuplicateCount(fs, prefix);
      var r0, r := FindDuplicates(fs, prefix), FindDuplicates(fs, files);
      if fs.digest(last) in r0.seen {
        assert r.seen.Keys == r0.seen.Keys;
      } else {
        assert r.seen.Keys == r0.seen.Keys + {fs.digest(last)};
      }
    }
  }

  /** Every keeper has the digest it is filed under and is one of the input paths. */
  lemma {:induction false} KeepersBelongToTheirBucket(fs: FileSystem, files: seq<Path>)
    ensures KeepersFrom(fs, FindDuplicates(fs, files), files)
  {
    if files != [] {
      var prefix, last := files[..|files| - 1], files[|files| - 1];
      FindDuplicatesSnoc(fs, files);
      KeepersBelongToTheirBucket(fs, prefix);
      StepKeepsKeepersFrom(fs, FindDuplicates(fs, prefix), prefix, last);
    }
  }

  /**
   Every reported duplicate is an input path whose digest has a keeper, and
   that keeper is at least as recent as the duplicate.
   */
  lemma {:induction false} DuplicatesNotNewerThanKeeper(fs: FileSystem, files: seq<Path>)
    ensures DuplicatesBelow(fs, FindDuplicates(fs, files), files)
  {
    if files != [] {
      var prefix, last := files[..|files| - 1], files[|files| - 1];
      FindDuplicatesSnoc(fs, files);
      DuplicatesNotNewerThanKeeper(fs, prefix);
      KeepersBelongToTheirBucket(fs, prefix);
      StepKeepsDuplicatesBelow(fs, FindDuplicates(fs, prefix), prefix, last);
    }
  }

  /**
   Nothing is lost and nothing is invented: each occurrence of a path in the
   input is either a reported duplicate or the path's being its bucket's keeper.
   */
  lemma {:induction false} Partition(fs: FileSystem, files: seq<Path>)
    ensures Accounted(fs, FindDuplicates(fs, files), files)
  {
    if files != [] {
      var prefix, last := files[..|files| - 1], files[|files| - 1];
      FindDuplicatesSnoc(fs, files);
      Partition(fs, prefix);
      KeepersBelongToTheirBucket(fs, prefix);
      StepKeepsAccounted(fs, FindDuplicates(fs, prefix), prefix, last);
    }
  }

  /** The same partition, as an equation of multisets. */
  lemma PartitionMultiset(fs: FileSystem, files: seq<Path>)
    ensures var r := FindDuplicates(fs, files);
      multiset(files) == multiset(r.duplicates) + multiset(r.seen.Values)
  {
    var r := FindDuplicates(fs, files);
    Partition(fs, files);
    KeepersBelongToTheirBucket(fs, files);
    forall p
      ensures multiset(files)[p] == (multiset(r.duplicates) + multiset(r.seen.Values))[p]
    {
      assert IsKeeper(fs, r, p) <==> p in r.seen.Values;
    }
  }

  /** How the reference description of a keeper extends by one more file. */
  lemma LastLatestSnoc(fs: FileSystem, files: seq<Path>, last: Path, h: Digest, j0: int)
    requires LastLatest(fs, files, h, j0)
    ensures fs.digest(last) != h || fs.mtime(last) < fs.mtime(files[j0]) ==>
      LastLatest(fs, files + [last], h, j0)
    ensures fs.digest(last) == h && fs.mtime(files[j0]) <= fs.mtime(last) ==>
      LastLatest(fs, files + [last], h, |files|)
  {
    var ext := files + [last];
    assert forall i :: 0 <= i < |files| ==> ext[i] == files[i];
  }

  /** A file whose digest is new is the reference keeper of its bucket. */
  lemma LastLatestFirst(fs: FileSystem, files: seq<Path>, last: Path)
    requires fs.digest(last) !in Digests(fs, files)
    ensures LastLatest(fs, files + [last], fs.digest(last), |files|)
  {
    var ext := files + [last];
    forall i | 0 <= i < |files|
      ensures fs.digest(ext[i]) != fs.digest(last)
    {
      assert ext[i] == files[i];
      assert files[i] in files;
    }
  }

  /**
   The keeper of each digest is the last-processed of the most recently
   modified files with that digest.
   */
  lemma {:induction false} KeeperIsLastLatest(fs: FileSystem, files: seq<Path>, h: Digest) returns (j: int)
    requires h in FindDuplicates(fs, files).seen
    ensures LastLatest(fs, files, h, j)
    ensures FindDuplicates(fs, files).seen[h] == files[j]
  {
    var prefix, last := files[..|files| - 1], files[|files| - 1];
    FindDuplicatesSnoc(fs, files);
    var r0 := FindDuplicates(fs, prefix);
    if h in r0.seen {
      var j0 := KeeperIsLastLatest(fs, prefix, h);
      LastLatestSnoc(fs, prefix, last, h, j0);
      if fs.digest(last) == h && fs.mtime(r0.seen[h]) <= fs.mtime(last) {
        j := |prefix|;
      } else {
        j := j0;
      }
    } else {
      LastLatestFirst(fs, prefix, last);
      j := |prefix|;
    }
  }

  /** An element found at one index only occurs once in the multiset of the sequence. */
  lemma OccursOnce(s: seq<Path>, k: int)
    requires 0 <= k < |s|
    requires forall i :: 0 <= i < |s| && s[i] == s[k] ==> i == k
    ensures multiset(s)[s[k]] == 1
  {
    assert s == s[..k] + [s[k]] + s[k + 1..];
    assert s[k] !in s[..k];
    var tail := s[k + 1..];
    forall i | 0 <= i < |tail|
      ensures tail[i] != s[k]
    {
      assert tail[i] == s[k + 1 + i];
    }
  }

  /** An element found at two indices occurs at least twice in the multiset of the sequence. */
  lemma OccursTwice(s: seq<Path>, i: int, j: int)
    requires 0 <= i < j < |s| && s[i] == s[j]
    ensures multiset(s)[s[i]] >= 2
  {
    assert s == s[..j] + [s[j]] + s[j + 1..];
    assert s[i] == s[..j][i];
  }

  /**
   A file whose digest no other input file shares is the keeper of its
   bucket and is never reported as a duplicate.
   */
  lemma UniqueDigestIsKept(fs: FileSystem, files: seq<Path>, k: int)
    requires 0 <= k < |files|
    requires forall i :: 0 <= i < |files| && fs.digest(files[i]) == fs.digest(files[k]) ==> i == k
    ensures var r := FindDuplicates(fs, files);
      && fs.digest(files[k]) in r.seen
      && r.seen[fs.digest(files[k])] == files[k]
      && files[k] !in r.duplicates
  {
    var r := FindDuplicates(fs, files);
    var f, d := files[k], fs.digest(files[k]);
    assert f in files;
    KeepersBelongToTheirBucket(fs, files);
    var i :| 0 <= i < |files| && files[i] == r.seen[d];
    Partition(fs, files);
    OccursOnce(files, k);
  }

  /**
   With no path listed twice, every input path ends up in exactly one place:
   as the keeper of its bucket or once among the duplicates. Nothing else
   appears in either. In particular no duplicate is its own bucket's keeper.
   */
  lemma DistinctPathsPartition(fs: FileSystem, files: seq<Path>)
    requires Distinct(files)
    ensures var r := FindDuplicates(fs, files);
      && (forall p :: p in files ==> (IsKeeper(fs, r, p) <==> p !in r.duplicates))
      && (forall p :: IsKeeper(fs, r, p) || p in r.duplicates ==> p in files)
      && Distinct(r.duplicates)
  {
    var r := FindDuplicates(fs, files);
    Partition(fs, files);
    assert Accounted(fs, r, files);
    forall p | p in files
      ensures IsKeeper(fs, r, p) <==> p !in r.duplicates
    {
      var k :| 0 <= k < |files| && files[k] == p;
      OccursOnce(files, k);
      assert multiset(files)[p] == multiset(r.duplicates)[p] + (if IsKeeper(fs, r, p) then 1 else 0);
    }
    forall p | IsKeeper(fs, r, p) || p in r.duplicates
      ensures p in files
    {
      assert multiset(files)[p] == multiset(r.duplicates)[p] + (if IsKeeper(fs, r, p) then 1 else 0);
    }
    forall i, j | 0 <= i < j < |r.duplicates|
      ensures r.duplicates[i] != r.duplicates[j]
    {
      if r.duplicates[i] == r.duplicates[j] {
        var p := r.duplicates[i];
        OccursTwice(r.duplicates, i, j);
        assert multiset(files)[p] == multiset(r.duplicates)[p] + (if IsKeeper(fs, r, p) then 1 else 0);
        var k :| 0 <= k < |files| && files[k] == p;
        OccursOnce(files, k);
        assert false;
      }
    }
  }

  lemma DistinctDigestsSnoc(fs: FileSystem, files: seq<Path>, last: Path)
    ensures DistinctDigests(fs, files + [last]) <==>
      DistinctDigests(fs, files) && fs.digest(last) !in Digests(fs, files)
  {
    var ext := files + [last];
    assert forall i :: 0 <= i < |files| ==> ext[i] == files[i];
    if fs.digest(last) in Digests(fs, files) {
      var i := DigestsWitness(fs, files, fs.digest(last));
      assert fs.digest(ext[i]) == fs.digest(ext[|files|]);
    }
  }

  /** The scan reports no duplicates exactly when no two input files share a digest. */
  lemma {:induction false} NoDuplicatesIff(fs: FileSystem, files: seq<Path>)
    ensures FindDuplicates(fs, files).duplicates == [] <==> DistinctDigests(fs, files)
  {
    if files != [] {
      var prefix, last := files[..|files| - 1], files[|files| - 1];
      FindDuplicatesSnoc(fs, files);
      NoDuplicatesIff(fs, prefix);
      DistinctDigestsSnoc(fs, prefix, last);
    }
  }

  /**
   Scanning again only files that the scan kept, each once, reports no
   duplicates: removing every reported duplicate leaves a duplicate-free set.
   */
  lemma RescanKeepersFindsNothing(fs: FileSystem, files: seq<Path>, keepers: seq<Path>)
    requires Distinct(keepers)
    requires forall p :: p in keepers ==> IsKeeper(fs, FindDuplicates(fs, files), p)
    ensures FindDuplicates(fs, keepers).duplicates == []
  {
    var r := FindDuplicates(fs, files);
    forall i, j | 0 <= i < j < |keepers|
      ensures fs.digest(keepers[i]) != fs.digest(keepers[j])
    {
      assert IsKeeper(fs, r, keepers[i]) && IsKeeper(fs, r, keepers[j]);
    }
    NoDuplicatesIff(fs, keepers);
  }

  /**
   Two copies of the same content: the one processed second is kept whenever
   it is not older, so the older (earlier-modified) copy is the one reported.
   */
  lemma TwoCopiesKeepLatest(fs: FileSystem, first: Path, second: Path)
    requires fs.digest(first) == fs.digest(second)
    requires fs.mtime(first) <= fs.mtime(second)
    ensures var r := FindDuplicates(fs, [first, second]);
      && r.seen.Keys == {fs.digest(second)}
      && r.seen[fs.digest(second)] == second
      && r.duplicates == [first]
  {
    var d := fs.digest(first);
    var afterFirst := Step(fs, Empty, first);
    assert afterFirst.seen.Keys == {d} && afterFirst.seen[d] == first && afterFirst.duplicates == [];
    assert FindDuplicates(fs, [first]) == afterFirst by {
      FindDuplicatesSnoc(fs, [first]);
      assert [first][..0] == [];
    }
    assert FindDuplicates(fs, [first, second]) == Step(fs, afterFirst, second) by {
      FindDuplicatesSnoc(fs, [first, second]);
      assert [first, second][..1] == [first];
    }
  }
}
