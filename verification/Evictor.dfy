/**
  The cap on the total size of attachments (EnforceTotalSize in
  internal/attach/store.go): the oldest files go first, until the rest fits.

  A path whose removal fails is "stuck". Every file is tried once at most, so
  any pattern of failures is a set of stuck paths.
 */
module Evictor {

  datatype AttachFile = AttachFile(path: string, size: nat, mtime: int)

  // --- the order of removal --------------------------------------------------------------

  predicate PathBefore(a: string, b: string) {
    b != "" && (a == "" || a[0] < b[0] || (a[0] == b[0] && PathBefore(a[1..], b[1..])))
  }

  predicate Before(f: AttachFile, g: AttachFile) {
    if f.mtime == g.mtime then PathBefore(f.path, g.path) else f.mtime < g.mtime
  }

  lemma {:induction false} PathOrder(a: string, b: string, c: string)
    ensures !PathBefore(a, a)
    ensures PathBefore(a, b) || PathBefore(b, a) || a == b
    ensures PathBefore(a, b) && PathBefore(b, c) ==> PathBefore(a, c)
  {
    if a != "" && b != "" && c != "" {
      PathOrder(a[1..], b[1..], c[1..]);
    } else if a != "" && b != "" {
      PathOrder(a[1..], b[1..], "");
    } else if a != "" {
      PathOrder(a[1..], "", "");
    }
    assert a != "" ==> a == [a[0]] + a[1..];
    assert b != "" ==> b == [b[0]] + b[1..];
  }

  ghost predicate InOrder(files: seq<AttachFile>) {
    forall i, j | 0 <= i < j < |files| :: Before(files[i], files[j])
  }

  ghost predicate DistinctPaths(files: seq<AttachFile>) {
    forall i, j | 0 <= i < j < |files| :: files[i].path != files[j].path
  }

  // sort.Slice, by insertion.
  function Insert(f: AttachFile, files: seq<AttachFile>): (r: seq<AttachFile>)
    ensures multiset(r) == multiset(files) + multiset{f}
  {
    if files == [] || Before(f, files[0]) then [f] + files
    else
      assert files == [files[0]] + files[1..];
      [files[0]] + Insert(f, files[1..])
  }

  function Sorted(files: seq<AttachFile>): (r: seq<AttachFile>)
    ensures multiset(r) == multiset(files)
  {
    if files == [] then []
    else
      assert files == [files[0]] + files[1..];
      Insert(files[0], Sorted(files[1..]))
  }

  lemma {:induction false} InsertKeepsOrder(f: AttachFile, files: seq<AttachFile>)
    requires InOrder(files) && forall g <- files :: g.path != f.path
    ensures InOrder(Insert(f, files))
  {
    if files != [] {
      PathOrder(f.path, files[0].path, "");
      if Before(f, files[0]) {
        forall j | 0 <= j < |files| ensures Before(f, files[j]) {
          PathOrder(f.path, files[0].path, files[j].path);
        }
      } else {
        var rest := Insert(f, files[1..]);
        InsertKeepsOrder(f, files[1..]);
        forall j | 0 <= j < |rest|
          ensures Before(files[0], rest[j])
        {
          assert rest[j] in multiset(rest);
          assert rest[j] == f || rest[j] in files[1..];
        }
      }
    }
  }

  // The older of two files, and of two equally old ones the one whose path comes
  // first: up to some character alike, and then at its end or smaller.
  ghost predicate GoesFirst(f: AttachFile, g: AttachFile) {
    || f.mtime < g.mtime
    || (f.mtime == g.mtime && exists k :: ComesFirst(f.path, g.path, k))
  }

  predicate ComesFirst(a: string, b: string, k: int) {
    0 <= k <= |a| && k < |b| && a[..k] == b[..k] && (k == |a| || a[k] < b[k])
  }

  lemma {:induction false} PathBeforeIsComesFirst(a: string, b: string)
    ensures PathBefore(a, b) <==> exists k :: ComesFirst(a, b, k)
  {
    if a == "" || b == "" || a[0] < b[0] {
      assert b != "" ==> ComesFirst(a, b, 0);
    } else {
      PathBeforeIsComesFirst(a[1..], b[1..]);
      if k :| ComesFirst(a[1..], b[1..], k) && a[0] == b[0] {
        assert a[..k + 1] == [a[0]] + a[1..][..k] && b[..k + 1] == [b[0]] + b[1..][..k];
        assert ComesFirst(a, b, k + 1);
      }
      if k :| ComesFirst(a, b, k) {
        assert k > 0 && a[0] == a[..k][0] == b[..k][0] == b[0];
        assert a[1..][..k - 1] == a[..k][1..] && b[1..][..k - 1] == b[..k][1..];
        assert ComesFirst(a[1..], b[1..], k - 1);
      }
    }
  }

  lemma {:induction false} SortedIsInOrder(files: seq<AttachFile>)
    requires DistinctPaths(files)
    ensures InOrder(Sorted(files))
    ensures forall i, j | 0 <= i < j < |Sorted(files)| :: GoesFirst(Sorted(files)[i], Sorted(files)[j])
  {
    forall f: AttachFile, g: AttachFile
      ensures Before(f, g) <==> GoesFirst(f, g)
    {
      PathBeforeIsComesFirst(f.path, g.path);
    }
    if files != [] {
      SortedIsInOrder(files[1..]);
      forall g | g in Sorted(files[1..])
        ensures g.path != files[0].path
      {
        assert g in multiset(Sorted(files[1..]));
        assert g in files[1..];
      }
      InsertKeepsOrder(files[0], Sorted(files[1..]));
    }
  }

  lemma {:induction false} DistinctWhenSorted(files: seq<AttachFile>)
    requires DistinctPaths(files)
    ensures DistinctPaths(Sorted(files))
  {
    var sorted := Sorted(files);
    SortedIsInOrder(files);
    forall i, j | 0 <= i < j < |sorted|
      ensures sorted[i].path != sorted[j].path
    {
      assert sorted[i] in multiset(sorted) && sorted[j] in multiset(sorted);
      assert sorted[i] in files && sorted[j] in files;
      PathOrder(sorted[i].path, sorted[j].path, "");
      assert Before(sorted[i], sorted[j]);
    }
  }

  // In whatever order the directory is walked, the order of removal is the same.
  lemma {:induction false} WalkOrderDoesNotMatter(files: seq<AttachFile>, others: seq<AttachFile>)
    requires InOrder(files) && InOrder(others) && multiset(files) == multiset(others)
    ensures files == others
  {
    SameElements(files, others);
    assert |multiset(files)| == |files| && |multiset(others)| == |others|;
    if files != [] {
      assert files[0] in files && others[0] in others;
      SameFirst(files, others);
      RestElements(files);
      RestElements(others);
      WalkOrderDoesNotMatter(files[1..], others[1..]);
    }
  }

  lemma {:induction false} RestElements(files: seq<AttachFile>)
    requires files != []
    ensures files == [files[0]] + files[1..] && multiset(files[1..]) == multiset(files) - multiset{files[0]}
    ensures InOrder(files) ==> InOrder(files[1..])
  {
    hide Before;
    assert files == [files[0]] + files[1..];
  }

  lemma {:induction false} SameFirst(files: seq<AttachFile>, others: seq<AttachFile>)
    requires InOrder(files) && InOrder(others) && files != [] && others != []
    requires files[0] in others && others[0] in files
    ensures files[0] == others[0]
  {
    if files[0] != others[0] {
      assert Before(files[0], others[0]) && Before(others[0], files[0]);
      PathOrder(files[0].path, others[0].path, files[0].path);
      assert false;
    }
  }

  // --- what is removed ---------------------------------------------------------------------

  function TotalSize(files: seq<AttachFile>): nat {
    if files == [] then 0 else files[0].size + TotalSize(files[1..])
  }

  // The paths removed when the files are tried in this order.
  function Evicted(files: seq<AttachFile>, total: int, maxBytes: int, stuck: set<string>): set<string> {
    if files == [] || total <= maxBytes then {}
    else if files[0].path in stuck then Evicted(files[1..], total, maxBytes, stuck)
    else {files[0].path} + Evicted(files[1..], total - files[0].size, maxBytes, stuck)
  }

  // What the running total then is.
  function FinalTotal(files: seq<AttachFile>, total: int, maxBytes: int, stuck: set<string>): int {
    if files == [] || total <= maxBytes then total
    else FinalTotal(files[1..], if files[0].path in stuck then total else total - files[0].size, maxBytes, stuck)
  }

  function Without(files: seq<AttachFile>, gone: set<string>): seq<AttachFile> {
    if files == [] then []
    else if files[0].path in gone then Without(files[1..], gone)
    else [files[0]] + Without(files[1..], gone)
  }

  class AttachmentStore {
    var files: map<string, AttachFile>

    ghost predicate Valid() reads this {
      forall path | path in files :: files[path].path == path
    }

    method Walk() returns (list: seq<AttachFile>, total: nat)
      requires Valid()
      ensures DistinctPaths(list) && total == TotalSize(list)
      ensures forall f :: f in list <==> f.path in files && files[f.path] == f
    {
      list, total := [], 0;
      var todo := files.Keys;
      while todo != {}
        invariant todo <= files.Keys
        invariant DistinctPaths(list) && total == TotalSize(list)
        invariant forall f :: f in list <==> f.path in files && f.path !in todo && files[f.path] == f
        decreases todo
      {
        var path :| path in todo;
        todo := todo - {path};
        list := [files[path]] + list;
        total := total + files[path].size;
      }
    }

    // Removes what Evicted says, for some listing of the files, oldest first.
    method EnforceTotalSize(maxBytes: int, stuck: set<string>) returns (ghost listed: seq<AttachFile>)
      requires Valid()
      modifies this
      ensures Valid()
      ensures forall i, j | 0 <= i < j < |listed| :: GoesFirst(listed[i], listed[j])
      ensures InOrder(listed) && forall f :: f in listed <==> f.path in old(files) && old(files)[f.path] == f
      ensures files == old(files) - (if maxBytes <= 0 then {} else Evicted(listed, TotalSize(listed), maxBytes, stuck))
    {
      hide Sorted, InOrder, Evicted, DistinctPaths, TotalSize;
      var list, total := Walk();
      listed := Sorted(list);
      SortedIsInOrder(list);
      SortedTotal(list);
      SameElements(listed, list);
      if maxBytes <= 0 {
        return;
      }
      if total <= maxBytes {
        NothingToEvict(listed, total, maxBytes, stuck);
        return;
      }
      DistinctWhenSorted(list);
      var left := RemoveOldest(Sorted(list), total, maxBytes, stuck);
    }

    method RemoveOldest(sorted: seq<AttachFile>, size: int, maxBytes: int, stuck: set<string>) returns (total: int)
      requires Valid() && size == TotalSize(sorted) && DistinctPaths(sorted)
      modifies this
      ensures Valid() && files == old(files) - Evicted(sorted, size, maxBytes, stuck)
      ensures total == TotalSize(Without(sorted, Evicted(sorted, size, maxBytes, stuck)))
    {
      hide DistinctPaths, TotalSize;
      total := size;
      var i := 0;
      ghost var gone: set<string> := {};
      assert sorted[0..] == sorted;
      while i < |sorted|
        invariant 0 <= i <= |sorted|
        invariant files == old(files) - gone
        invariant gone + Evicted(sorted[i..], total, maxBytes, stuck) == Evicted(sorted, size, maxBytes, stuck)
        invariant FinalTotal(sorted[i..], total, maxBytes, stuck) == FinalTotal(sorted, size, maxBytes, stuck)
      {
        if total <= maxBytes {
          break;
        }
        var f := sorted[i];
        assert sorted[i..][1..] == sorted[i + 1..];
        if f.path !in stuck {
          assert (gone + {f.path}) + Evicted(sorted[i + 1..], total - f.size, maxBytes, stuck)
              == gone + ({f.path} + Evicted(sorted[i + 1..], total - f.size, maxBytes, stuck));
          files := files - {f.path};
          gone := gone + {f.path};
          total := total - f.size;
        }
        i := i + 1;
      }
      assert Evicted(sorted[i..], total, maxBytes, stuck) == {};
      FinalTotalIsTheRest(sorted, 0, maxBytes, stuck);
    }
  }

  lemma {:induction false} SameElements(files: seq<AttachFile>, others: seq<AttachFile>)
    requires multiset(files) == multiset(others)
    ensures forall f :: f in files <==> f in others
  {
    assert forall f :: f in files <==> f in multiset(files);
    assert forall f :: f in others <==> f in multiset(others);
  }

  lemma {:induction false} NothingToEvict(files: seq<AttachFile>, total: int, maxBytes: int, stuck: set<string>)
    requires total <= maxBytes
    ensures Evicted(files, total, maxBytes, stuck) == {}
  {
  }

  lemma {:induction false} InsertedSize(f: AttachFile, files: seq<AttachFile>)
    ensures TotalSize(Insert(f, files)) == f.size + TotalSize(files)
  {
    if files != [] {
      InsertedSize(f, files[1..]);
    }
  }

  lemma {:induction false} SortedTotal(files: seq<AttachFile>)
    ensures TotalSize(Sorted(files)) == TotalSize(files)
  {
    if files != [] {
      SortedTotal(files[1..]);
      InsertedSize(files[0], Sorted(files[1..]));
    }
  }

  // --- what this achieves ---------------------------------------------------------------------

  lemma {:induction false} EvictedAreListed(files: seq<AttachFile>, total: int, maxBytes: int, stuck: set<string>)
    ensures forall path <- Evicted(files, total, maxBytes, stuck) ::
              path !in stuck && exists i :: 0 <= i < |files| && files[i].path == path
  {
    if files != [] && total > maxBytes {
      var rest := Evicted(files[1..], if files[0].path in stuck then total else total - files[0].size, maxBytes, stuck);
      EvictedAreListed(files[1..], if files[0].path in stuck then total else total - files[0].size, maxBytes, stuck);
      forall path | path in rest
        ensures exists i :: 0 <= i < |files| && files[i].path == path
      {
        var i :| 0 <= i < |files[1..]| && files[1..][i].path == path;
        assert files[i + 1].path == path;
      }
    }
  }

  lemma {:induction false} WithoutOthers(files: seq<AttachFile>, path: string, gone: set<string>)
    requires forall f <- files :: f.path != path
    ensures Without(files, {path} + gone) == Without(files, gone)
  {
    if files != [] {
      WithoutOthers(files[1..], path, gone);
    }
  }

  // Either the rest fits, or everything that could be removed is gone. (extra is
  // the size of what else is left.)
  lemma {:induction false} EvictionFits(files: seq<AttachFile>, extra: int, maxBytes: int, stuck: set<string>)
    requires DistinctPaths(files)
    ensures var left := Without(files, Evicted(files, TotalSize(files) + extra, maxBytes, stuck));
            TotalSize(left) + extra <= maxBytes || forall f <- left :: f.path in stuck
  {
    var total := TotalSize(files) + extra;
    if files != [] && total > maxBytes {
      var f, rest := files[0], files[1..];
      assert forall g <- rest :: g.path != f.path;
      if f.path in stuck {
        EvictionFits(rest, extra + f.size, maxBytes, stuck);
        EvictedAreListed(rest, total, maxBytes, stuck);
      } else {
        EvictionFits(rest, extra, maxBytes, stuck);
        WithoutOthers(rest, f.path, Evicted(rest, total - f.size, maxBytes, stuck));
      }
    } else {
      NothingGone(files);
    }
  }

  // Failures or not, the running total is the size of what is left.
  lemma {:induction false} FinalTotalIsTheRest(files: seq<AttachFile>, extra: int, maxBytes: int, stuck: set<string>)
    requires DistinctPaths(files)
    ensures FinalTotal(files, TotalSize(files) + extra, maxBytes, stuck)
         == TotalSize(Without(files, Evicted(files, TotalSize(files) + extra, maxBytes, stuck))) + extra
  {
    var total := TotalSize(files) + extra;
    if files != [] && total > maxBytes {
      var f, rest := files[0], files[1..];
      assert forall g <- rest :: g.path != f.path;
      if f.path in stuck {
        FinalTotalIsTheRest(rest, extra + f.size, maxBytes, stuck);
        EvictedAreListed(rest, total, maxBytes, stuck);
      } else {
        FinalTotalIsTheRest(rest, extra, maxBytes, stuck);
        WithoutOthers(rest, f.path, Evicted(rest, total - f.size, maxBytes, stuck));
      }
    } else {
      NothingGone(files);
    }
  }

  lemma {:induction false} NothingGone(files: seq<AttachFile>)
    ensures Without(files, {}) == files
  {
    if files != [] {
      NothingGone(files[1..]);
    }
  }

  function Paths(files: seq<AttachFile>): set<string> {
    set f | f in files :: f.path
  }

  // Without failures the files removed are the shortest beginning of the list
  // whose removal makes the rest fit.
  lemma {:induction false} ShortestPrefixIsEvicted(files: seq<AttachFile>, maxBytes: int) returns (k: nat)
    requires 0 <= maxBytes
    ensures k <= |files| && Evicted(files, TotalSize(files), maxBytes, {}) == Paths(files[..k])
    ensures TotalSize(files[k..]) <= maxBytes
    ensures forall j: nat | j < k :: TotalSize(files[j..]) > maxBytes
  {
    if files == [] || TotalSize(files) <= maxBytes {
      k := 0;
      assert files[..0] == [] && files[0..] == files;
    } else {
      k := ShortestPrefixIsEvicted(files[1..], maxBytes);
      k := k + 1;
      SuffixSizes(files, maxBytes, k);
    }
  }

  lemma {:induction false} SuffixSizes(files: seq<AttachFile>, maxBytes: int, k: nat)
    requires 0 < k <= |files| && TotalSize(files) > maxBytes && TotalSize(files[1..][k - 1..]) <= maxBytes
    requires forall j: nat | j < k - 1 :: TotalSize(files[1..][j..]) > maxBytes
    ensures TotalSize(files[k..]) <= maxBytes
    ensures forall j: nat | j < k :: TotalSize(files[j..]) > maxBytes
  {
    hide TotalSize;
    assert files[k..] == files[1..][k - 1..];
    forall j: nat | j < k
      ensures TotalSize(files[j..]) > maxBytes
    {
      if j > 0 {
        assert files[j..] == files[1..][j - 1..];
      } else {
        assert files[0..] == files;
      }
    }
  }

  // No file is removed once the rest fits: up to any removed file f, what was
  // left before its turn was too much.
  lemma {:induction false} NothingIsRemovedInVain(before: seq<AttachFile>, f: AttachFile, after: seq<AttachFile>,
                                                  extra: int, maxBytes: int, stuck: set<string>)
    requires DistinctPaths(before + ([f] + after))
    requires f.path in Evicted(before + ([f] + after), TotalSize(before + ([f] + after)) + extra, maxBytes, stuck)
    ensures var gone := Evicted(before + ([f] + after), TotalSize(before + ([f] + after)) + extra, maxBytes, stuck);
            TotalSize(Without(before, gone)) + TotalSize([f] + after) + extra > maxBytes
  {
    var files := before + ([f] + after);
    if before == [] {
      assert files == [f] + after;
    } else {
      var g, rest := before[0], before[1..] + ([f] + after);
      assert files[0] == g && files[1..] == rest;
      FirstIsDistinct(before, f, after);
      NothingIsRemovedInVain(before[1..], f, after, if g.path in stuck then extra + g.size else extra, maxBytes, stuck);
      EvictedAreListed(files, TotalSize(files) + extra, maxBytes, stuck);
      if g.path !in stuck {
        WithoutOthers(before[1..], g.path, Evicted(rest, TotalSize(rest) + extra, maxBytes, stuck));
      }
    }
  }

  lemma {:induction false} FirstIsDistinct(before: seq<AttachFile>, f: AttachFile, after: seq<AttachFile>)
    requires before != [] && DistinctPaths(before + ([f] + after))
    ensures DistinctPaths(before[1..] + ([f] + after))
    ensures (forall g <- before[1..] :: g.path != before[0].path) && f.path != before[0].path
  {
    var files, rest := before + ([f] + after), before[1..] + ([f] + after);
    assert files[1..] == rest && files[0] == before[0] && files[|before|] == f;
    assert forall i | 0 <= i < |before| :: files[i] == before[i];
  }
}
