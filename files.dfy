/**
  The file system the two file sinks write to, reduced to a map from path to
  file, and the retention policy both sinks apply to it.
*/
module Files {
  import opened Strings

  /** A path as Path.Combine(dir, name) builds it. */
  datatype Path = Path(dir: string, name: string)

  /** A file: its text and its creation time (clock ticks). */
  datatype FileData = FileData(content: string, created: int)

  type Disk = map<Path, FileData>

  /** FileInfo.Length: the file's size in bytes, its text being written as UTF-8. */
  function Length(f: FileData): nat
  {
    Utf8Length(f.content)
  }

  /** new StreamWriter(path, true).Write(text): creates the file at time `now` if needed, then appends. */
  function Append(disk: Disk, path: Path, text: string, now: int): (d: Disk)
    ensures d.Keys == disk.Keys + {path}
    ensures forall p :: p in disk && p != path ==> d[p] == disk[p]
    ensures d[path].content == (if path in disk then disk[path].content else "") + text
    ensures d[path].created == if path in disk then disk[path].created else now
  {
    if path in disk then disk[path := FileData(disk[path].content + text, disk[path].created)]
    else disk[path := FileData(text, now)]
  }

  /** Appending grows the file by the text's UTF-8 byte count; a new file holds exactly that many bytes. */
  lemma AppendGrowsLength(disk: Disk, path: Path, text: string, now: int)
    ensures Length(Append(disk, path, text, now)[path]) == (if path in disk then Length(disk[path]) else 0) + Utf8Length(text)
  {
    var oldContent := if path in disk then disk[path].content else "";
    Utf8LengthAppend(oldContent, text);
  }

  /** new StreamWriter(path) followed by writes: creates the file, or truncates an existing one. */
  function Overwrite(disk: Disk, path: Path, text: string, now: int): (d: Disk)
    ensures d.Keys == disk.Keys + {path}
    ensures forall p :: p in disk && p != path ==> d[p] == disk[p]
    ensures d[path].content == text
    ensures d[path].created == if path in disk then disk[path].created else now
  {
    disk[path := FileData(text, if path in disk then disk[path].created else now)]
  }

  /** Whether `p` is one of DirectoryInfo(dir).GetFiles(prefix + "*" + ext). */
  predicate Matches(p: Path, dir: string, prefix: string, ext: string)
  {
    p.dir == dir && |p.name| >= |prefix| + |ext|
    && p.name[..|prefix|] == prefix && p.name[|p.name| - |ext|..] == ext
  }

  function Matching(disk: Disk, dir: string, prefix: string, ext: string): (s: set<Path>)
    ensures forall p :: p in s <==> p in disk && Matches(p, dir, prefix, ext)
  {
    set p | p in disk.Keys && Matches(p, dir, prefix, ext)
  }

  predicate AllOnDisk(disk: Disk, files: seq<Path>)
  {
    forall i :: 0 <= i < |files| ==> files[i] in disk
  }

  /** Ascending creation time. */
  predicate SortedByCreation(disk: Disk, files: seq<Path>)
    requires AllOnDisk(disk, files)
  {
    forall i, j :: 0 <= i < j < |files| ==> disk[files[i]].created <= disk[files[j]].created
  }

  /** Inserts `p` into a list sorted by creation time, after every strictly older file. */
  function InsertByCreation(disk: Disk, files: seq<Path>, p: Path): (r: seq<Path>)
    requires p in disk && AllOnDisk(disk, files)
    ensures AllOnDisk(disk, r)
    ensures multiset(r) == multiset(files) + multiset{p}
    ensures forall i :: 0 <= i < |r| ==> r[i] == p || r[i] in files
  {
    if files == [] then [p]
    else if disk[p].created <= disk[files[0]].created then [p] + files
    else
      assert files == [files[0]] + files[1..];
      [files[0]] + InsertByCreation(disk, files[1..], p)
  }

  lemma {:induction false} InsertKeepsSorted(disk: Disk, files: seq<Path>, p: Path)
    requires p in disk && AllOnDisk(disk, files) && SortedByCreation(disk, files)
    ensures SortedByCreation(disk, InsertByCreation(disk, files, p))
  {
    if files != [] && disk[p].created > disk[files[0]].created {
      var rest := InsertByCreation(disk, files[1..], p);
      InsertKeepsSorted(disk, files[1..], p);
      assert forall k :: 0 <= k < |rest| ==> disk[files[0]].created <= disk[rest[k]].created;
    }
  }

  /**
    GetFiles(prefix + "*" + ext) on `dir`, then List.Sort by ascending
    creation time: every matching file exactly once, oldest first (files
    created at the same instant may come in any order).
  */
  method ListByCreation(disk: Disk, dir: string, prefix: string, ext: string) returns (files: seq<Path>)
    ensures AllOnDisk(disk, files) && SortedByCreation(disk, files)
    ensures multiset(files) == multiset(Matching(disk, dir, prefix, ext))
  {
    var pending := Matching(disk, dir, prefix, ext);
    files := [];
    while pending != {}
      invariant pending <= Matching(disk, dir, prefix, ext)
      invariant AllOnDisk(disk, files) && SortedByCreation(disk, files)
      invariant multiset(files) + multiset(pending) == multiset(Matching(disk, dir, prefix, ext))
      decreases |pending|
    {
      var p :| p in pending;
      InsertKeepsSorted(disk, files, p);
      files := InsertByCreation(disk, files, p);
      assert multiset(pending) == multiset(pending - {p}) + multiset{p};
      pending := pending - {p};
    }
  }

  /** The files a retention pass deletes: all but the last `keep` of the list. */
  function Doomed(files: seq<Path>, keep: nat): (r: seq<Path>)
    ensures |r| == if |files| > keep then |files| - keep else 0
  {
    if |files| > keep then files[..|files| - keep] else []
  }

  function Elements(s: seq<Path>): (e: set<Path>)
    ensures forall p :: p in e <==> p in s
  {
    set p | p in s
  }

  /** `while (files.Count > keep) { File.Delete(files[0].FullName); files.RemoveAt(0); }` */
  method DeleteOldest(disk: Disk, files: seq<Path>, keep: nat) returns (d: Disk)
    ensures d == disk - Elements(Doomed(files, keep))
  {
    d := disk;
    var rest := files;
    ghost var deleted: set<Path> := {};
    while |rest| > keep
      invariant rest == files[|files| - |rest|..]
      invariant rest == files || |rest| >= keep
      invariant deleted == Elements(files[..|files| - |rest|])
      invariant d == disk - deleted
      decreases |rest|
    {
      assert files[..|files| - |rest| + 1] == files[..|files| - |rest|] + [rest[0]];
      d := d - {rest[0]};
      deleted := deleted + {rest[0]};
      rest := rest[1..];
    }
    assert Doomed(files, keep) == files[..|files| - |rest|];
  }

  /**
    Run on a creation-ordered listing of the files matching one pattern, the
    deletion loop removes only matching files, leaves `min(keep, count)` of
    them, and every file it deletes is at least as old as every matching file
    it keeps.
  */
  lemma RetentionKeepsNewest(disk: Disk, files: seq<Path>, keep: nat, dir: string, prefix: string, ext: string)
    requires AllOnDisk(disk, files) && SortedByCreation(disk, files)
    requires multiset(files) == multiset(Matching(disk, dir, prefix, ext))
    ensures Elements(Doomed(files, keep)) <= Matching(disk, dir, prefix, ext)
    ensures var kept := Matching(disk, dir, prefix, ext) - Elements(Doomed(files, keep));
      |kept| == (if |files| > keep then keep else |files|)
      && forall p, q :: p in Elements(Doomed(files, keep)) && q in kept ==> disk[p].created <= disk[q].created
  {
    var m := Matching(disk, dir, prefix, ext);
    var n := |Doomed(files, keep)|;
    ListingIsDistinct(files, m);
    KeptIsSuffix(files, m, n);
    DistinctCardinality(files[n..]);
    assert Doomed(files, keep) == files[..n];
    PrefixNoNewer(disk, files, n);
  }

  /** In a creation-ordered listing, no file before position `n` is newer than one from `n` on. */
  lemma PrefixNoNewer(disk: Disk, files: seq<Path>, n: nat)
    requires AllOnDisk(disk, files) && SortedByCreation(disk, files) && n <= |files|
    ensures forall p, q :: p in Elements(files[..n]) && q in Elements(files[n..]) ==> disk[p].created <= disk[q].created
  {
    forall p, q | p in Elements(files[..n]) && q in Elements(files[n..])
      ensures disk[p].created <= disk[q].created
    {
      var i :| 0 <= i < n && files[i] == p;
      var j :| n <= j < |files| && files[j] == q;
    }
  }

  predicate Distinct(s: seq<Path>)
  {
    forall i, j :: 0 <= i < j < |s| ==> s[i] != s[j]
  }

  /** A listing with the multiset of a set holds exactly that set's elements, each once. */
  lemma ListingIsDistinct(files: seq<Path>, m: set<Path>)
    requires multiset(files) == multiset(m)
    ensures Distinct(files)
    ensures forall p :: p in files <==> p in m
  {
    forall i, j | 0 <= i < j < |files| ensures files[i] != files[j] {
      DistinctFromSetMultiset(files, m, i, j);
    }
    forall p ensures p in files <==> p in m {
      assert p in files <==> p in multiset(files);
      assert p in m <==> p in multiset(m);
    }
  }

  lemma DistinctFromSetMultiset(files: seq<Path>, m: set<Path>, i: nat, j: nat)
    requires multiset(files) == multiset(m)
    requires i < j < |files|
    ensures files[i] != files[j]
  {
    var x := files[i];
    assert files == files[..i] + [x] + files[i + 1..j] + [files[j]] + files[j + 1..];
    assert multiset(files)[x] ==
      multiset(files[..i])[x] + 1 + multiset(files[i + 1..j])[x] + multiset([files[j]])[x] + multiset(files[j + 1..])[x];
    assert multiset(m)[x] <= 1;
  }

  /** Without its first `n` files, a duplicate-free listing of `m` is the rest of `m`. */
  lemma KeptIsSuffix(files: seq<Path>, m: set<Path>, n: nat)
    requires n <= |files| && Distinct(files)
    requires forall p :: p in files <==> p in m
    ensures Elements(files[..n]) <= m
    ensures m - Elements(files[..n]) == Elements(files[n..])
  {
    forall p | p in m - Elements(files[..n]) ensures p in files[n..] {
      var i :| 0 <= i < |files| && files[i] == p;
      assert i >= n;
      assert files[n..][i - n] == p;
    }
    forall p | p in files[n..] ensures p !in files[..n] {
      var j :| n <= j < |files| && files[j] == p;
      forall i | 0 <= i < n ensures files[..n][i] != p {
        assert files[i] != files[j];
      }
    }
  }

  /** A duplicate-free list has as many elements as its set. */
  lemma {:induction false} DistinctCardinality(s: seq<Path>)
    requires Distinct(s)
    ensures |Elements(s)| == |s|
  {
    if s != [] {
      var t := s[1..];
      DistinctCardinality(t);
      assert Elements(s) == Elements(t) + {s[0]};
      assert s[0] !in Elements(t);
    }
  }

  /** A creation-ordered listing of every file of `dir` matching `prefix*ext`. */
  ghost predicate IsListing(disk: Disk, files: seq<Path>, dir: string, prefix: string, ext: string)
  {
    AllOnDisk(disk, files) && SortedByCreation(disk, files)
    && multiset(files) == multiset(Matching(disk, dir, prefix, ext))
  }

  /**
    What one Cleanup pass leaves: both listings are taken first, then all but
    the newest `keep` of each are deleted.
  */
  ghost predicate CleanedUp(before: Disk, after: Disk, dir: string, logPrefix: string, crashPrefix: string, ext: string, keep: nat)
  {
    exists filesL, filesC ::
      IsListing(before, filesL, dir, logPrefix, ext) && IsListing(before, filesC, dir, crashPrefix, ext)
      && after == before - Elements(Doomed(filesL, keep)) - Elements(Doomed(filesC, keep))
  }

  /** The body both sinks' Cleanup share, for a given directory, pair of prefixes and extension. */
  method Cleanup(disk: Disk, dir: string, logPrefix: string, crashPrefix: string, ext: string, keep: nat)
    returns (after: Disk)
    ensures CleanedUp(disk, after, dir, logPrefix, crashPrefix, ext, keep)
  {
    var filesL := ListByCreation(disk, dir, logPrefix, ext);
    var filesC := ListByCreation(disk, dir, crashPrefix, ext);
    after := DeleteOldest(disk, filesL, keep);
    after := DeleteOldest(after, filesC, keep);
    assert IsListing(disk, filesL, dir, logPrefix, ext) && IsListing(disk, filesC, dir, crashPrefix, ext);
  }

  /**
    After a Cleanup pass: nothing was added or changed, only files matching
    one of the two patterns were deleted, and at most `keep` files match each
    pattern.
  */
  lemma CleanupBounds(before: Disk, after: Disk, dir: string, logPrefix: string, crashPrefix: string, ext: string, keep: nat)
    requires CleanedUp(before, after, dir, logPrefix, crashPrefix, ext, keep)
    ensures after.Keys <= before.Keys
    ensures forall p :: p in after ==> after[p] == before[p]
    ensures forall p :: p in before && p !in after ==>
      Matches(p, dir, logPrefix, ext) || Matches(p, dir, crashPrefix, ext)
    ensures |Matching(after, dir, logPrefix, ext)| <= keep
    ensures |Matching(after, dir, crashPrefix, ext)| <= keep
  {
    var filesL, filesC :| IsListing(before, filesL, dir, logPrefix, ext) && IsListing(before, filesC, dir, crashPrefix, ext)
      && after == before - Elements(Doomed(filesL, keep)) - Elements(Doomed(filesC, keep));
    RetentionKeepsNewest(before, filesL, keep, dir, logPrefix, ext);
    RetentionKeepsNewest(before, filesC, keep, dir, crashPrefix, ext);
    var keptL := Matching(before, dir, logPrefix, ext) - Elements(Doomed(filesL, keep));
    var keptC := Matching(before, dir, crashPrefix, ext) - Elements(Doomed(filesC, keep));
    SubsetCardinality(Matching(after, dir, logPrefix, ext), keptL);
    SubsetCardinality(Matching(after, dir, crashPrefix, ext), keptC);
  }

  lemma SubsetCardinality(a: set<Path>, b: set<Path>)
    requires a <= b
    ensures |a| <= |b|
  {
    assert b == a + (b - a);
  }
}
