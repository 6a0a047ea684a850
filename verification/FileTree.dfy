/**
  The filesystem as the file-operation handlers see it: a finite tree of
  directories and files, addressed by cleaned absolute paths, and what one
  rename does to it.
 */
module FileTree {
  import opened Options

  // A cleaned absolute path: its components below "/", outermost first.
  type Path = seq<string>

  // Anything that is not a directory is a File; rename treats them alike.
  datatype Node = Dir | File(content: string)

  type Tree = map<Path, Node>

  // filepath.Dir: the root is its own parent.
  function Parent(p: Path): Path {
    if p == [] then [] else p[..|p| - 1]
  }

  // isUnder: the base itself counts as being under the base.
  predicate Under(target: Path, base: Path) {
    base <= target
  }

  // Neither path lies under the other.
  predicate Apart(p: Path, q: Path) {
    !Under(p, q) && !Under(q, p)
  }

  predicate IsDir(t: Tree, p: Path) {
    p in t && t[p] == Dir
  }

  predicate WellFormed(t: Tree) {
    && IsDir(t, [])
    && forall p {:trigger IsDirParent(t, p)} | p in t :: IsDirParent(t, p)
  }

  predicate IsDirParent(t: Tree, p: Path) {
    p != [] ==> IsDir(t, Parent(p))
  }

  function Lookup(t: Tree, p: Path): Option<Node> {
    if p in t then Some(t[p]) else None
  }

  // Move the whole subtree at `from` to `to`, replacing what was at `to`.
  function Relocate(t: Tree, from: Path, to: Path): Tree {
    (map p | p in t && !Under(p, from) && !Under(p, to) :: t[p])
    + (map q | q in (set p | p in t && Under(p, from) :: to + p[|from|..]) && from + q[|to|..] in t :: t[from + q[|to|..]])
  }

  // rename(2) on this tree, apart from failures of the environment. With
  // noReplace an existing target is an error; without it a file may replace a
  // file and a directory may replace an empty directory.
  predicate RenameAllowed(t: Tree, from: Path, to: Path, noReplace: bool) {
    && from in t
    && from != [] && to != []
    && IsDir(t, Parent(to))
    && !Under(to, from)
    && (to in t ==>
          && !noReplace
          && !Under(from, to)
          && (t[to].Dir? <==> t[from].Dir?)
          && (t[to].Dir? ==> forall p <- t :: Under(p, to) ==> p == to))
  }

  // Every node on the way to an existing node exists and is a directory.
  lemma {:induction false} AncestorsAreDirs(t: Tree, p: Path, base: Path)
    requires WellFormed(t) && p in t && Under(p, base)
    ensures base in t && (base != p ==> t[base] == Dir)
    decreases |p|
  {
    if base != p {
      assert IsDirParent(t, p);
      assert Under(Parent(p), base);
      AncestorsAreDirs(t, Parent(p), base);
    }
  }

  // What Relocate leaves at every path.
  lemma {:induction false} RelocateAt(t: Tree, from: Path, to: Path, p: Path)
    requires Apart(from, to)
    ensures Under(p, to) ==> Lookup(Relocate(t, from, to), p) == Lookup(t, from + p[|to|..])
    ensures Under(p, from) ==> Lookup(Relocate(t, from, to), p) == None
    ensures !Under(p, to) && !Under(p, from) ==> Lookup(Relocate(t, from, to), p) == Lookup(t, p)
  {
    if Under(p, to) {
      var q := from + p[|to|..];
      assert Under(q, from) && q[|from|..] == p[|to|..] && p == to + p[|to|..];
      if q in t {
        assert p in (set x | x in t && Under(x, from) :: to + x[|from|..]);
      }
    }
  }

  lemma {:induction false} RelocateKeepsWellFormed(t: Tree, from: Path, to: Path)
    requires WellFormed(t) && Apart(from, to)
    requires from in t && IsDir(t, Parent(to)) && to != []
    requires forall p <- t :: Under(p, to) ==> p == to
    ensures WellFormed(Relocate(t, from, to))
  {
    var t' := Relocate(t, from, to);
    RelocateAt(t, from, to, []);
    forall p | p in t'
      ensures IsDirParent(t', p)
    {
      RelocateAt(t, from, to, p);
      RelocateAt(t, from, to, Parent(p));
      if Under(p, to) {
        var q := from + p[|to|..];
        assert q in t && IsDirParent(t, q);
        if p != to {
          assert Under(Parent(p), to);
          assert Parent(q) == from + Parent(p)[|to|..];
        }
      } else {
        assert p in t && IsDirParent(t, p);
      }
    }
  }

  // A permitted rename keeps the tree a tree.
  lemma {:induction false} RenameKeepsWellFormed(t: Tree, from: Path, to: Path, noReplace: bool)
    requires WellFormed(t) && RenameAllowed(t, from, to, noReplace)
    ensures Apart(from, to) && WellFormed(Relocate(t, from, to))
  {
    forall p | p in t && Under(p, to)
      ensures p == to
    {
      AncestorsAreDirs(t, p, to);
    }
    RelocateKeepsWellFormed(t, from, to);
  }
}
