/**
  The multi-file move of internal/hub/files_move.go: a preflight that plans
  every rename, a commit loop, and a reverse-order rollback.

  Nobody else changes the tree during a move, but every rename may fail for
  reasons of its own (I/O errors, permissions, a different device).
 */
module FilesMove {
  import opened Options
  import opened FileTree
  import opened Text

  datatype MoveError =
    | SrcRequired
    | NotAbsolute
    | Forbidden
    | SrcNotFound
    | AlreadyInDst
    | IntoItself
    | TargetExists
    | TargetCheckFailed
    | DuplicateSource
    | TargetClash
    | WithDescendant
    | WithAncestor
    | RenameFailed

  datatype Plan = Plan(src: Path, dst: Path, isDir: bool)

  // What the surroundings answer: which request texts lie under an allowed
  // root, and which paths cannot be examined at all.
  datatype Env = Env(allowed: string -> bool, unreadable: Path -> bool)

  datatype Stat = Found(node: Node) | NotExist | StatFailed

  function Lstat(t: Tree, env: Env, p: Path): Stat {
    if env.unreadable(p) then StatFailed
    else if p in t then Found(t[p])
    else NotExist
  }

  // --- paths as text -------------------------------------------------------

  predicate IsAbs(text: string) {
    text != "" && text[0] == '/'
  }

  // filepath.Clean on the components of an absolute path.
  function CleanParts(parts: seq<string>): Path {
    if parts == [] then []
    else
      var above := CleanParts(parts[..|parts| - 1]);
      var part := parts[|parts| - 1];
      if part == "" || part == "." then above
      else if part == ".." then Parent(above)
      else above + [part]
  }

  function Clean(text: string): Path {
    CleanParts(Split(text, '/'))
  }

  // Appending one component to a path text: "" and "." stay, ".." goes up.
  lemma {:induction false} CleanStep(text: string, part: string)
    requires '/' !in part
    ensures Clean("") == []
    ensures Clean(text + "/" + part) ==
            if part == "" || part == "." then Clean(text)
            else if part == ".." then Parent(Clean(text))
            else Clean(text) + [part]
  {
    SplitAt(text, '/', part);
    SplitNone(part, '/');
  }

  // A cleaned path has no empty, "." or ".." component.
  lemma {:induction false} CleanPartsAreProper(parts: seq<string>)
    ensures forall c <- CleanParts(parts) :: c != "" && c != "." && c != ".."
  {
    if parts != [] {
      var above, part := CleanParts(parts[..|parts| - 1]), parts[|parts| - 1];
      CleanPartsAreProper(parts[..|parts| - 1]);
      assert forall c <- Parent(above) :: c in above;
      assert forall c <- above + [part] :: c in above || c == part;
    }
  }

  // --- preflight -----------------------------------------------------------

  function PlanSingleMove(t: Tree, env: Env, src: string, dstDir: Path): Result<Plan, MoveError> {
    if src == "" then Err(SrcRequired)
    else if !IsAbs(src) then Err(NotAbsolute)
    else if !env.allowed(src) then Err(Forbidden)
    else
      var clean := Clean(src);
      var info := Lstat(t, env, clean);
      if !info.Found? then Err(SrcNotFound)
      else if Parent(clean) == dstDir then Err(AlreadyInDst)
      else if info.node.Dir? && Under(dstDir, clean) then Err(IntoItself)
      else
        // filepath.Base("/") is "/", which joins to dstDir itself.
        var target := if clean == [] then dstDir else dstDir + [clean[|clean| - 1]];
        match Lstat(t, env, target)
        case Found(_) => Err(TargetExists)
        case StatFailed => Err(TargetCheckFailed)
        case NotExist => Ok(Plan(clean, target, info.node.Dir?))
  }

  // When a request can be carried out as far as its own paths go: an absolute
  // path under an allowed root to something that exists and can be examined,
  // neither a child of dstDir nor a directory on the way to it, with nothing
  // in dstDir under its name.
  predicate Movable(t: Tree, env: Env, src: string, dstDir: Path) {
    && src != "" && src[0] == '/' && env.allowed(src)
    && (var p := Clean(src);
        && p in t && !env.unreadable(p)
        && p != [] && p[..|p| - 1] != dstDir
        && !(t[p] == Dir && p <= dstDir)
        && (var target := dstDir + [p[|p| - 1]];
            target !in t && !env.unreadable(target)))
  }

  // The reasons to refuse a request, each on its own.
  predicate Speaks(e: MoveError, t: Tree, env: Env, src: string, dstDir: Path) {
    var p := Clean(src);
    match e
    case SrcRequired => src == ""
    case NotAbsolute => src != "" && src[0] != '/'
    case Forbidden => !env.allowed(src)
    case SrcNotFound => env.unreadable(p) || p !in t
    // The root lies in itself.
    case AlreadyInDst => if p == [] then dstDir == [] else p[..|p| - 1] == dstDir
    case IntoItself => p in t && t[p] == Dir && p <= dstDir
    case TargetExists => p != [] && dstDir + [p[|p| - 1]] in t
    case TargetCheckFailed => p != [] && env.unreadable(dstDir + [p[|p| - 1]])
    case _ => false
  }

  // The reason that is reported when several speak against a request.
  predicate TakesPrecedence(e: MoveError, over: MoveError) {
    match over
    case NotAbsolute => e.SrcRequired?
    case Forbidden => e in {SrcRequired, NotAbsolute}
    case SrcNotFound => e in {SrcRequired, NotAbsolute, Forbidden}
    case AlreadyInDst => e in {SrcRequired, NotAbsolute, Forbidden, SrcNotFound}
    case IntoItself => e in {SrcRequired, NotAbsolute, Forbidden, SrcNotFound, AlreadyInDst}
    case TargetCheckFailed => e in {SrcRequired, NotAbsolute, Forbidden, SrcNotFound, AlreadyInDst, IntoItself}
    case TargetExists =>
      e in {SrcRequired, NotAbsolute, Forbidden, SrcNotFound, AlreadyInDst, IntoItself, TargetCheckFailed}
    case _ => false
  }

  ghost predicate Refused(e: MoveError, t: Tree, env: Env, src: string, dstDir: Path) {
    && Speaks(e, t, env, src, dstDir)
    && forall e' :: TakesPrecedence(e', e) ==> !Speaks(e', t, env, src, dstDir)
  }

  // A request is planned exactly when it is movable, with the plan it asks
  // for, and otherwise refused for the first reason that speaks against it.
  lemma {:induction false} PlannedExactlyWhenMovable(t: Tree, env: Env, src: string, dstDir: Path)
    requires WellFormed(t)
    ensures var plan := PlanSingleMove(t, env, src, dstDir);
            && (plan.Ok? <==> Movable(t, env, src, dstDir))
            && (forall e :: plan == Err(e) <==> Refused(e, t, env, src, dstDir))
            && (plan.Ok? ==>
                  var p := Clean(src);
                  p != [] && p in t && plan.value == Plan(p, dstDir + [p[|p| - 1]], t[p] == Dir))
  {
    var plan := PlanSingleMove(t, env, src, dstDir);
    forall e | e != SrcRequired && plan == Err(e)
      ensures Refused(e, t, env, src, dstDir)
    {
    }
    forall e | Refused(e, t, env, src, dstDir)
      ensures plan == Err(e)
    {
      assert plan.Err? ==> Speaks(plan.error, t, env, src, dstDir);
    }
  }

  // The plan of each request, taken one by one.
  function PlanAll(t: Tree, env: Env, srcs: seq<string>, dstDir: Path): (plans: seq<Result<Plan, MoveError>>)
    ensures |plans| == |srcs|
  {
    seq(|srcs|, i requires 0 <= i < |srcs| => PlanSingleMove(t, env, srcs[i], dstDir))
  }

  // Two requests that end at the same target.
  predicate SameTarget(plans: seq<Result<Plan, MoveError>>, i: int, j: int) {
    && 0 <= i < |plans| && 0 <= j < |plans| && i != j
    && plans[i].Ok? && plans[j].Ok?
    && plans[i].value.dst == plans[j].value.dst
  }

  // Request j lies strictly inside the directory that request i moves.
  predicate Inside(plans: seq<Result<Plan, MoveError>>, i: int, j: int) {
    && 0 <= i < |plans| && 0 <= j < |plans| && i != j
    && plans[i].Ok? && plans[j].Ok?
    && plans[i].value.isDir
    && plans[i].value.src != plans[j].value.src
    && Under(plans[j].value.src, plans[i].value.src)
  }

  // A request is at fault when it cannot be planned or collides with another.
  ghost predicate AtFault(plans: seq<Result<Plan, MoveError>>, i: nat)
    requires i < |plans|
  {
    || plans[i].Err?
    || (exists j :: SameTarget(plans, i, j))
    || (exists j :: Inside(plans, i, j) || Inside(plans, j, i))
  }

  ghost predicate Acceptable(plans: seq<Result<Plan, MoveError>>) {
    forall i | 0 <= i < |plans| :: !AtFault(plans, i)
  }

  // Two requests cannot both be carried out when they bring the same name into
  // dstDir, or when one of them moves what the other names.
  predicate InTheWay(src: string, other: string) {
    var p, q := Clean(src), Clean(other);
    p <= q || q <= p || (p != [] && q != [] && p[|p| - 1] == q[|q| - 1])
  }

  // A request to carry out: movable, with no other movable one in its way.
  predicate Blameless(t: Tree, env: Env, srcs: seq<string>, dstDir: Path, x: nat)
    requires x < |srcs|
  {
    && Movable(t, env, srcs[x], dstDir)
    && forall j | 0 <= j < |srcs| && j != x && Movable(t, env, srcs[j], dstDir) :: !InTheWay(srcs[x], srcs[j])
  }

  // The checks the preflight makes on the plans find just that.
  lemma {:induction false} AtFaultExactlyWhenBlamed(t: Tree, env: Env, srcs: seq<string>, dstDir: Path, x: nat)
    requires WellFormed(t) && x < |srcs|
    ensures AtFault(PlanAll(t, env, srcs, dstDir), x) <==> !Blameless(t, env, srcs, dstDir, x)
  {
    var all := PlanAll(t, env, srcs, dstDir);
    PlannedExactlyWhenMovable(t, env, srcs[x], dstDir);
    if all[x].Ok? {
      forall j | 0 <= j < |srcs| && j != x
        ensures SameTarget(all, x, j) || Inside(all, x, j) || Inside(all, j, x) <==>
                Movable(t, env, srcs[j], dstDir) && InTheWay(srcs[x], srcs[j])
      {
        CollideExactlyInTheWay(t, env, srcs, dstDir, x, j);
      }
      if j :| SameTarget(all, x, j) || Inside(all, x, j) || Inside(all, j, x) {
        assert 0 <= j < |srcs| && j != x;
      }
    }
  }

  lemma {:induction false} CollideExactlyInTheWay(t: Tree, env: Env, srcs: seq<string>, dstDir: Path, x: nat, j: nat)
    requires WellFormed(t) && x < |srcs| && j < |srcs| && x != j
    requires Movable(t, env, srcs[x], dstDir)
    ensures var all := PlanAll(t, env, srcs, dstDir);
            SameTarget(all, x, j) || Inside(all, x, j) || Inside(all, j, x) <==>
            Movable(t, env, srcs[j], dstDir) && InTheWay(srcs[x], srcs[j])
  {
    PlannedExactlyWhenMovable(t, env, srcs[x], dstDir);
    PlannedExactlyWhenMovable(t, env, srcs[j], dstDir);
    var p, q := Clean(srcs[x]), Clean(srcs[j]);
    if p in t && q in t && Under(q, p) {
      AncestorsAreDirs(t, q, p);
    }
    if p in t && q in t && Under(p, q) {
      AncestorsAreDirs(t, p, q);
    }
    assert p != [] && q != [] && dstDir + [p[|p| - 1]] == dstDir + [q[|q| - 1]] ==>
             (dstDir + [p[|p| - 1]])[|dstDir|] == (dstDir + [q[|q| - 1]])[|dstDir|];
  }

  // --- what acceptance gives the commit ---------------------------------------

  // All sources and all targets are pairwise disjoint subtrees.
  ghost predicate Disjoint(plans: seq<Plan>) {
    && (forall i, j | 0 <= i < |plans| && 0 <= j < |plans| && i != j ::
          Apart(plans[i].src, plans[j].src) && Apart(plans[i].dst, plans[j].dst))
    && (forall i, j | 0 <= i < |plans| && 0 <= j < |plans| :: Apart(plans[i].src, plans[j].dst))
  }

  // Every source exists, no target does, and every parent is a directory.
  ghost predicate Feasible(t: Tree, plans: seq<Plan>) {
    forall i | 0 <= i < |plans| :: FeasibleAt(t, plans[i])
  }

  ghost predicate FeasibleAt(t: Tree, plan: Plan) {
    && plan.src in t
    && (plan.isDir <==> t[plan.src].Dir?)
    && plan.src != [] && plan.dst != []
    && IsDir(t, Parent(plan.src)) && IsDir(t, Parent(plan.dst))
    && (forall p <- t :: !Under(p, plan.dst))
  }

  function Values(plans: seq<Result<Plan, MoveError>>): (r: seq<Plan>)
    requires forall i | 0 <= i < |plans| :: plans[i].Ok?
    ensures |r| == |plans| && forall i | 0 <= i < |r| :: r[i] == plans[i].value
  {
    seq(|plans|, i requires 0 <= i < |plans| => plans[i].value)
  }

  // A planned move: its source exists, its target does not, and neither lies
  // inside the other.
  ghost predicate Sound(t: Tree, dstDir: Path, p: Plan) {
    && FeasibleAt(t, p)
    && p.dst == dstDir + [p.src[|p.src| - 1]] && Parent(p.dst) == dstDir
    && Parent(p.src) != dstDir
    && !Under(dstDir, p.src)
    && Apart(p.src, p.dst)
  }

  lemma {:induction false} PlannedMoveIsSound(t: Tree, env: Env, src: string, dstDir: Path)
    requires WellFormed(t) && IsDir(t, dstDir)
    requires PlanSingleMove(t, env, src, dstDir).Ok?
    ensures var p := PlanSingleMove(t, env, src, dstDir).value;
            p.src == Clean(src) && Sound(t, dstDir, p)
  {
    var p := PlanSingleMove(t, env, src, dstDir).value;
    assert IsDirParent(t, p.src);
    forall q | q in t && Under(q, p.dst)
      ensures false
    {
      AncestorsAreDirs(t, q, p.dst);
    }
    if Under(dstDir, p.src) {
      AncestorsAreDirs(t, dstDir, p.src);
    }
  }

  // Two moves that collide in no way the preflight looks for.
  lemma {:induction false} TwoSoundMoves(t: Tree, dstDir: Path, p: Plan, q: Plan)
    requires WellFormed(t) && IsDir(t, dstDir)
    requires Sound(t, dstDir, p) && Sound(t, dstDir, q)
    requires p.dst != q.dst
    requires !(q.isDir && p.src != q.src && Under(p.src, q.src))
    ensures !Under(p.src, q.src) && !Under(p.dst, q.dst) && Apart(p.src, q.dst)
  {
    if Under(p.src, q.src) {
      AncestorsAreDirs(t, p.src, q.src);
    }
    assert Under(q.dst, p.src) ==> p.src == q.dst || Under(dstDir, p.src);
  }

  // The heart of the preflight: the checks it makes one at a time leave only
  // requests whose sources and targets are pairwise disjoint subtrees.
  lemma {:induction false} AcceptedMovesAreDisjoint(t: Tree, env: Env, srcs: seq<string>, dstDir: Path)
    requires WellFormed(t) && IsDir(t, dstDir)
    requires Acceptable(PlanAll(t, env, srcs, dstDir))
    ensures var all := PlanAll(t, env, srcs, dstDir);
            && (forall i | 0 <= i < |all| :: all[i].Ok?)
            && Disjoint(Values(all)) && Feasible(t, Values(all))
  {
    var all := PlanAll(t, env, srcs, dstDir);
    forall i | 0 <= i < |all|
      ensures all[i].Ok?
    {
      assert !AtFault(all, i);
    }
    var plans := Values(all);
    forall i | 0 <= i < |plans|
      ensures Sound(t, dstDir, plans[i])
    {
      assert all[i] == PlanSingleMove(t, env, srcs[i], dstDir);
      PlannedMoveIsSound(t, env, srcs[i], dstDir);
    }
    forall i, j | 0 <= i < |plans| && 0 <= j < |plans| && i != j
      ensures !Under(plans[i].src, plans[j].src) && !Under(plans[i].dst, plans[j].dst)
      ensures Apart(plans[i].src, plans[j].dst)
    {
      assert !AtFault(all, i) && !SameTarget(all, i, j) && !Inside(all, j, i);
      TwoSoundMoves(t, dstDir, plans[i], plans[j]);
    }
  }

  // --- trees in which some of the plans are carried out -------------------------

  // The tree `t` is `t0` with exactly the plans in `done` carried out.
  ghost predicate Relocated(t0: Tree, t: Tree, plans: seq<Plan>, done: set<nat>) {
    && (forall i <- done :: i < |plans|)
    && (forall p: Path :: RelocatedAt(t0, t, plans, done, p))
  }

  // ... as seen at the path p.
  ghost predicate RelocatedAt(t0: Tree, t: Tree, plans: seq<Plan>, done: set<nat>, p: Path)
    requires forall i <- done :: i < |plans|
  {
    && (forall i <- done :: Under(p, plans[i].dst) ==>
          Lookup(t, p) == Lookup(t0, plans[i].src + p[|plans[i].dst|..]))
    && (forall i <- done :: Under(p, plans[i].src) ==> Lookup(t, p) == None)
    && (Untouched(plans, done, p) ==> Lookup(t, p) == Lookup(t0, p))
  }

  ghost predicate Untouched(plans: seq<Plan>, done: set<nat>, p: Path)
    requires forall i <- done :: i < |plans|
  {
    forall i <- done :: !Under(p, plans[i].src) && !Under(p, plans[i].dst)
  }

  // The description determines the tree.
  lemma {:induction false} RelocatedIsUnique(t0: Tree, t1: Tree, t2: Tree, plans: seq<Plan>, done: set<nat>)
    requires Relocated(t0, t1, plans, done) && Relocated(t0, t2, plans, done)
    ensures t1 == t2
  {
    forall p: Path
      ensures Lookup(t1, p) == Lookup(t2, p)
    {
      assert RelocatedAt(t0, t1, plans, done, p) && RelocatedAt(t0, t2, plans, done, p);
    }
    assert forall p: Path :: Lookup(t1, p) == Lookup(t2, p) ==> (p in t1 <==> p in t2) && (p in t1 ==> t1[p] == t2[p]);
  }

  // With nothing carried out it is the original tree, and only that one.
  lemma {:induction false} NothingRelocated(t0: Tree, t: Tree, plans: seq<Plan>)
    ensures Relocated(t0, t, plans, {}) <==> t == t0
  {
    assert Relocated(t0, t0, plans, {});
    if Relocated(t0, t, plans, {}) {
      RelocatedIsUnique(t0, t, t0, plans, {});
    }
  }

  lemma {:induction false} CarryOutOne(t0: Tree, t: Tree, plans: seq<Plan>, done: set<nat>, k: nat)
    requires Disjoint(plans) && Relocated(t0, t, plans, done)
    requires k < |plans| && k !in done
    ensures Relocated(t0, Relocate(t, plans[k].src, plans[k].dst), plans, done + {k})
  {
    var t' := Relocate(t, plans[k].src, plans[k].dst);
    forall p: Path
      ensures RelocatedAt(t0, t', plans, done + {k}, p)
    {
      RelocateAt(t, plans[k].src, plans[k].dst, p);
      assert RelocatedAt(t0, t, plans, done, p);
      if Under(p, plans[k].dst) {
        var q := plans[k].src + p[|plans[k].dst|..];
        NestedOnce(plans, done, k, p);
        NestedOnce(plans, done, k, q);
        assert RelocatedAt(t0, t, plans, done, q);
      } else if Under(p, plans[k].src) {
        NestedOnce(plans, done, k, p);
      } else {
        assert Untouched(plans, done + {k}, p) ==> Untouched(plans, done, p);
      }
    }
  }

  lemma {:induction false} UndoOne(t0: Tree, t: Tree, plans: seq<Plan>, done: set<nat>, k: nat)
    requires Disjoint(plans) && Feasible(t0, plans) && Relocated(t0, t, plans, done)
    requires k in done
    ensures Relocated(t0, Relocate(t, plans[k].dst, plans[k].src), plans, done - {k})
  {
    var t' := Relocate(t, plans[k].dst, plans[k].src);
    var rest := done - {k};
    forall p: Path
      ensures RelocatedAt(t0, t', plans, rest, p)
    {
      RelocateAt(t, plans[k].dst, plans[k].src, p);
      assert RelocatedAt(t0, t, plans, done, p);
      if Under(p, plans[k].src) {
        var q := plans[k].dst + p[|plans[k].src|..];
        NestedOnce(plans, rest, k, p);
        assert plans[k].src + q[|plans[k].dst|..] == p;
        assert RelocatedAt(t0, t, plans, done, q);
      } else if Under(p, plans[k].dst) {
        NestedOnce(plans, rest, k, p);
        assert FeasibleAt(t0, plans[k]);
      } else {
        assert Untouched(plans, rest, p) ==> Untouched(plans, done, p);
      }
    }
  }

  // A path under one of plan k's subtrees is under no other plan's subtree.
  lemma {:induction false} NestedOnce(plans: seq<Plan>, done: set<nat>, k: nat, p: Path)
    requires Disjoint(plans) && k < |plans| && k !in done
    requires forall i <- done :: i < |plans|
    requires Under(p, plans[k].src) || Under(p, plans[k].dst)
    ensures Untouched(plans, done, p)
  {
  }

  // The positions below n.
  ghost function First(n: nat): (r: set<nat>)
    ensures forall k: nat :: k in r <==> k < n
  {
    if n == 0 then {} else First(n - 1) + {n - 1}
  }

  // --- no rename is blocked by the tree itself -----------------------------------

  lemma {:induction false} CommitIsNeverBlocked(t0: Tree, t: Tree, plans: seq<Plan>, done: set<nat>, k: nat)
    requires Disjoint(plans) && Feasible(t0, plans) && Relocated(t0, t, plans, done)
    requires k < |plans| && k !in done
    ensures RenameAllowed(t, plans[k].src, plans[k].dst, true)
  {
    assert FeasibleAt(t0, plans[k]);
    NestedOnce(plans, done, k, plans[k].src);
    NestedOnce(plans, done, k, plans[k].dst);
    assert Untouched(plans, done, Parent(plans[k].dst)) by {
      forall i | i in done
        ensures !Under(Parent(plans[k].dst), plans[i].src) && !Under(Parent(plans[k].dst), plans[i].dst)
      {
      }
    }
    assert RelocatedAt(t0, t, plans, done, plans[k].src);
    assert RelocatedAt(t0, t, plans, done, plans[k].dst);
    assert RelocatedAt(t0, t, plans, done, Parent(plans[k].dst));
  }

  // In particular a rollback overwrites nothing, although it uses a rename
  // that could.
  lemma {:induction false} RollbackIsNeverBlocked(t0: Tree, t: Tree, plans: seq<Plan>, done: set<nat>, k: nat)
    requires Disjoint(plans) && Feasible(t0, plans) && Relocated(t0, t, plans, done)
    requires k in done
    ensures RenameAllowed(t, plans[k].dst, plans[k].src, true)
  {
    assert FeasibleAt(t0, plans[k]);
    assert Untouched(plans, done, Parent(plans[k].src)) by {
      forall i | i in done
        ensures !Under(Parent(plans[k].src), plans[i].src) && !Under(Parent(plans[k].src), plans[i].dst)
      {
      }
    }
    assert plans[k].src + plans[k].dst[|plans[k].dst|..] == plans[k].src;
    assert RelocatedAt(t0, t, plans, done, plans[k].src);
    assert RelocatedAt(t0, t, plans, done, plans[k].dst);
    assert RelocatedAt(t0, t, plans, done, Parent(plans[k].src));
  }

  lemma {:induction false} CommitStep(t0: Tree, t: Tree, plans: seq<Plan>, k: nat)
    requires Disjoint(plans) && Feasible(t0, plans) && k < |plans| && Relocated(t0, t, plans, First(k))
    ensures RenameAllowed(t, plans[k].src, plans[k].dst, true)
    ensures Relocated(t0, Relocate(t, plans[k].src, plans[k].dst), plans, First(k + 1))
  {
    CommitIsNeverBlocked(t0, t, plans, First(k), k);
    CarryOutOne(t0, t, plans, First(k), k);
    assert First(k) + {k} == First(k + 1);
  }

  lemma {:induction false} UndoStep(t0: Tree, t: Tree, plans: seq<Plan>, done: set<nat>, k: nat)
    requires Disjoint(plans) && Feasible(t0, plans) && Relocated(t0, t, plans, done) && k in done
    ensures RenameAllowed(t, plans[k].dst, plans[k].src, true)
    ensures Relocated(t0, Relocate(t, plans[k].dst, plans[k].src), plans, done - {k})
  {
    UndoOne(t0, t, plans, done, k);
    RollbackIsNeverBlocked(t0, t, plans, done, k);
  }

  // --- the report of a rollback ----------------------------------------------------

  // The plans at the positions in `stuck`, last first, down to position i.
  ghost function Reported(plans: seq<Plan>, stuck: set<nat>, i: nat): seq<Plan>
    decreases |plans| - i
  {
    if i >= |plans| then []
    else Reported(plans, stuck, i + 1) + (if i in stuck then [plans[i]] else [])
  }

  ghost function PositionsOf(plans: seq<Plan>, some: seq<Plan>): set<nat> {
    set i: nat | i < |plans| && plans[i] in some
  }

  lemma {:induction false} ReportNamesStuckPlans(plans: seq<Plan>, stuck: set<nat>, i: nat)
    requires Disjoint(plans)
    ensures forall k | 0 <= k < |plans| :: plans[k] in Reported(plans, stuck, i) <==> i <= k && k in stuck
    decreases |plans| - i
  {
    if i < |plans| {
      ReportNamesStuckPlans(plans, stuck, i + 1);
      assert forall k | 0 <= k < |plans| && k != i :: plans[k].src != plans[i].src;
    }
  }

  lemma {:induction false} ReportedBelow(plans: seq<Plan>, s: set<nat>, s': set<nat>, i: nat)
    requires forall k: nat | i <= k :: k in s <==> k in s'
    ensures Reported(plans, s, i) == Reported(plans, s', i)
    decreases |plans| - i
  {
    if i < |plans| {
      ReportedBelow(plans, s, s', i + 1);
    }
  }

  // The first n plans say the same about a tree as the whole list does.
  lemma {:induction false} PrefixRelocated(t0: Tree, t: Tree, plans: seq<Plan>, n: nat, done: set<nat>)
    requires n <= |plans| && (forall i <- done :: i < n)
    ensures Relocated(t0, t, plans, done) <==> Relocated(t0, t, plans[..n], done)
    ensures Disjoint(plans) ==> Disjoint(plans[..n])
    ensures Feasible(t0, plans) ==> Feasible(t0, plans[..n])
  {
    assert forall p: Path :: RelocatedAt(t0, t, plans, done, p) <==> RelocatedAt(t0, t, plans[..n], done, p);
  }

  // The report of a rollback determines the positions it stands for.
  lemma {:induction false} StuckPositions(plans: seq<Plan>, stuck: set<nat>)
    requires Disjoint(plans) && (forall i <- stuck :: i < |plans|)
    ensures var errs := Reported(plans, stuck, 0);
            PositionsOf(plans, errs) == stuck && (errs == [] ==> stuck == {})
  {
    ReportNamesStuckPlans(plans, stuck, 0);
    assert forall i <- stuck :: plans[i] in Reported(plans, stuck, 0);
  }

  lemma {:induction false} ReportedPrefix(plans: seq<Plan>, n: nat, stuck: set<nat>, i: nat)
    requires n <= |plans| && (forall k <- stuck :: k < n)
    ensures Reported(plans[..n], stuck, i) == Reported(plans, stuck, i)
    decreases |plans| - i
  {
    if i < |plans| {
      ReportedPrefix(plans, n, stuck, i + 1);
    }
  }

  // --- the operations ----------------------------------------------------------------

  datatype MoveResult = MoveResult(src: string, newAbs: Option<Path>, error: Option<MoveError>)

  datatype MoveResponse =
    | Moved(results: seq<MoveResult>)
    | PreflightFailed(results: seq<MoveResult>)
    | RenameFailure(results: seq<MoveResult>, failedAt: nat, unrestored: seq<Plan>)

  // The requests that collide with one of the first n on their target.
  ghost predicate ClashBefore(all: seq<Result<Plan, MoveError>>, x: int, n: int) {
    exists y :: 0 <= y < n && SameTarget(all, x, y)
  }

  // The first request after x with the target of x.
  ghost predicate FirstClashAfter(all: seq<Result<Plan, MoveError>>, x: int, y: int) {
    x < y && SameTarget(all, x, y) && forall z | x < z < y :: !SameTarget(all, x, z)
  }

  // What is said about a request because of a later one with its target.
  function ClashError(all: seq<Result<Plan, MoveError>>, x: int, y: int): MoveError
    requires SameTarget(all, x, y)
  {
    if all[x].value.src == all[y].value.src then DuplicateSource else TargetClash
  }

  // The requests in a nested pair (a, b) with a < n, or a == n and b < m.
  ghost predicate NestedBefore(all: seq<Result<Plan, MoveError>>, x: int, n: int, m: int) {
    exists a, b :: Inside(all, a, b) && (x == a || x == b) && (a < n || (a == n && b < m))
  }

  predicate NoErrors(results: seq<MoveResult>) {
    forall r <- results :: r.error.None?
  }

  // Set the error of request i, and of its earlier partner if that has none.
  method Blame(results: seq<MoveResult>, i: nat, prev: nat, e: MoveError) returns (r: seq<MoveResult>)
    requires prev < i < |results|
    ensures |r| == |results|
    ensures r[i] == results[i].(error := Some(e))
    ensures r[prev] == if results[prev].error.None? then results[prev].(error := Some(e)) else results[prev]
    ensures forall x | 0 <= x < |r| && x != i && x != prev :: r[x] == results[x]
  {
    r := results[i := results[i].(error := Some(e))];
    if r[prev].error.None? {
      r := r[prev := r[prev].(error := Some(e))];
    }
  }

  // What the report says about request x once the first n have been looked at.
  ghost predicate Reports(srcs: seq<string>, all: seq<Result<Plan, MoveError>>, r: MoveResult, x: nat, n: nat)
    requires x < |srcs| == |all|
  {
    && r.src == srcs[x] && r.newAbs.None?
    && (r.error.Some? <==> x < n && (all[x].Err? || ClashBefore(all, x, n)))
    && (x < n && all[x].Err? ==> r.error == Some(all[x].error))
    && (x < n && ClashBefore(all, x, x) ==> r.error == Some(TargetClash))
    && (!ClashBefore(all, x, x) ==> forall y | FirstClashAfter(all, x, y) && y < n ::
          r.error == Some(ClashError(all, x, y)))
  }

  // The first request with the source of request i, if an earlier one has it.
  ghost predicate FirstSource(plans: seq<Result<Plan, MoveError>>, i: nat, same: Option<nat>)
    requires i < |plans|
  {
    && (forall y | 0 <= y < i && (same.None? || y < same.value) :: !SameSource(plans, i, y))
    && (same.Some? ==> same.value < i && SameSource(plans, i, same.value) && SameTarget(plans, i, same.value))
  }

  predicate SameSource(plans: seq<Result<Plan, MoveError>>, i: nat, j: nat)
    requires i < |plans| && j < |plans|
  {
    plans[i].Ok? && plans[j].Ok? && plans[i].value.src == plans[j].value.src
  }

  // The first request with the target of request i, if an earlier one has it.
  ghost predicate FirstTarget(plans: seq<Result<Plan, MoveError>>, i: nat, first: Option<nat>) {
    && (forall y | 0 <= y < i && (first.None? || y < first.value) :: !SameTarget(plans, i, y) && !SameTarget(plans, y, i))
    && (first.Some? ==> first.value < i && SameTarget(plans, i, first.value))
  }

  // Request i collides with an earlier one: `first` is the first request with
  // its target, `same` the first with its source, if there is one.
  method ReportCollision(srcs: seq<string>, plans: seq<Result<Plan, MoveError>>,
                         reports: seq<MoveResult>, i: nat, first: nat, same: Option<nat>)
    returns (results: seq<MoveResult>)
    requires |plans| == |srcs| == |reports| && first < i < |srcs|
    requires forall x | 0 <= x < |srcs| :: Reports(srcs, plans, reports[x], x, i)
    requires SameTarget(plans, i, first) && forall y | 0 <= y < first :: !SameTarget(plans, i, y)
    requires FirstSource(plans, i, same)
    // A repeated source always repeats its target as well.
    requires same.Some? ==> first <= same.value
    ensures |results| == |srcs|
    ensures forall x | 0 <= x < |srcs| :: Reports(srcs, plans, results[x], x, i + 1)
  {
    results := reports;
    if same.Some? {
      assert Reports(srcs, plans, reports[same.value], same.value, i);
      results := Blame(results, i, same.value, DuplicateSource);
    }
    assert same.Some? && same.value != first ==> SameTarget(plans, same.value, first);
    results := Blame(results, i, first, TargetClash);
    forall x | 0 <= x < |srcs| ensures Reports(srcs, plans, results[x], x, i + 1) {
      assert Reports(srcs, plans, reports[x], x, i);
      if x == i || x == first {
        assert SameTarget(plans, i, first) && SameTarget(plans, first, i);
      } else if x < i && SameTarget(plans, x, i) {
        assert SameTarget(plans, x, first);
      }
      FirstAfterIsBlamedOnce(plans, i, first, same, x);
    }
  }

  // Request i is the first after x with its target only when x is the first of
  // all, and then its source is known exactly when it is that of x.
  lemma {:induction false} FirstAfterIsBlamedOnce(plans: seq<Result<Plan, MoveError>>, i: nat, first: nat, same: Option<nat>, x: nat)
    requires i < |plans| && first < i
    requires SameTarget(plans, i, first) && forall y | 0 <= y < first :: !SameTarget(plans, i, y)
    requires FirstSource(plans, i, same) && (same.Some? ==> first <= same.value)
    ensures !ClashBefore(plans, x, x) && FirstClashAfter(plans, x, i) ==>
              && x == first && !ClashBefore(plans, x, i)
              && same == (if plans[x].value.src == plans[i].value.src then Some(x) else None)
  {
    if !ClashBefore(plans, x, x) && FirstClashAfter(plans, x, i) {
      assert SameTarget(plans, i, x) && SameTarget(plans, x, first) == (x != first);
      assert same.Some? && same.value != x ==> SameTarget(plans, x, same.value);
      assert plans[x].value.src == plans[i].value.src ==> SameSource(plans, i, x);
    }
  }

  function SrcKey(p: Plan): Path { p.src }

  function TargetKey(p: Plan): Path { p.dst }

  // The map knows, for every key among the first n requests planned, the first
  // request that has it.
  ghost predicate Indexed(plans: seq<Result<Plan, MoveError>>, key: Plan -> Path, seen: map<Path, nat>, n: nat)
    requires n <= |plans|
  {
    && (forall k <- seen :: seen[k] < n && plans[seen[k]].Ok? && key(plans[seen[k]].value) == k)
    && (forall x | 0 <= x < n && plans[x].Ok? :: KnownBy(key(plans[x].value), seen, x))
  }

  predicate KnownBy(k: Path, seen: map<Path, nat>, x: int) {
    k in seen && seen[k] <= x
  }

  ghost predicate SameSourceSameTarget(plans: seq<Result<Plan, MoveError>>) {
    forall i, j | 0 <= i < |plans| && 0 <= j < |plans| && plans[i].Ok? && plans[j].Ok? ::
      plans[i].value.src == plans[j].value.src ==> plans[i].value.dst == plans[j].value.dst
  }

  ghost predicate AllReported(srcs: seq<string>, plans: seq<Result<Plan, MoveError>>, results: seq<MoveResult>, n: nat) {
    && |srcs| == |plans| == |results|
    && forall x | 0 <= x < |srcs| :: Reports(srcs, plans, results[x], x, n)
  }

  // The first loop of the preflight: record failed plans, repeated sources and
  // repeated targets.
  method ReportPlans(srcs: seq<string>, plans: seq<Result<Plan, MoveError>>) returns (results: seq<MoveResult>)
    requires |plans| == |srcs| && SameSourceSameTarget(plans)
    ensures AllReported(srcs, plans, results, |srcs|)
  {
    hide Indexed, SameSourceSameTarget, AllReported, Reports;
    results := seq(|srcs|, i requires 0 <= i < |srcs| => MoveResult(srcs[i], None, None));
    var srcSeen: map<Path, nat> := map[];
    var targetSeen: map<Path, nat> := map[];
    NothingReported(srcs, plans);
    for i := 0 to |srcs|
      invariant Indexed(plans, SrcKey, srcSeen, i) && Indexed(plans, TargetKey, targetSeen, i)
      invariant AllReported(srcs, plans, results, i)
    {
      IndexedNext(plans, SrcKey, srcSeen, i);
      IndexedNext(plans, TargetKey, targetSeen, i);
      if plans[i].Ok? {
        IndexedTells(plans, srcSeen, targetSeen, i);
        var plan := plans[i].value;
        var same := if plan.src in srcSeen then Some(srcSeen[plan.src]) else None;
        var first := if plan.dst in targetSeen then Some(targetSeen[plan.dst]) else None;
        results := ReportPlan(srcs, plans, results, i, first, same);
        if same.None? {
          srcSeen := srcSeen[plan.src := i];
        }
        if first.None? {
          targetSeen := targetSeen[plan.dst := i];
        }
      } else {
        results := ReportFailure(srcs, plans, results, i);
      }
    }
  }

  lemma {:induction false} NothingReported(srcs: seq<string>, plans: seq<Result<Plan, MoveError>>)
    requires |plans| == |srcs|
    ensures AllReported(srcs, plans, seq(|srcs|, i requires 0 <= i < |srcs| => MoveResult(srcs[i], None, None)), 0)
    ensures Indexed(plans, SrcKey, map[], 0) && Indexed(plans, TargetKey, map[], 0)
  {
  }

  // What the maps tell about request i, ...
  lemma {:induction false} IndexedTells(plans: seq<Result<Plan, MoveError>>, srcSeen: map<Path, nat>, targetSeen: map<Path, nat>, i: nat)
    requires i < |plans| && plans[i].Ok?
    requires Indexed(plans, SrcKey, srcSeen, i) && Indexed(plans, TargetKey, targetSeen, i)
    requires SameSourceSameTarget(plans)
    ensures var p := plans[i].value;
            && FirstTarget(plans, i, if p.dst in targetSeen then Some(targetSeen[p.dst]) else None)
            && FirstSource(plans, i, if p.src in srcSeen then Some(srcSeen[p.src]) else None)
            && (p.src in srcSeen ==> p.dst in targetSeen && targetSeen[p.dst] <= srcSeen[p.src])
  {
    hide Indexed;
    SeenTells(plans, SrcKey, srcSeen, i);
    SeenTells(plans, TargetKey, targetSeen, i);
  }

  lemma {:induction false} SeenTells(plans: seq<Result<Plan, MoveError>>, key: Plan -> Path, seen: map<Path, nat>, i: nat)
    requires i < |plans| && plans[i].Ok? && Indexed(plans, key, seen, i)
    ensures var k := key(plans[i].value);
            && (k in seen ==> seen[k] < i && plans[seen[k]].Ok? && key(plans[seen[k]].value) == k)
            && forall y | 0 <= y < i && plans[y].Ok? && key(plans[y].value) == k :: k in seen && seen[k] <= y
  {
    forall y | 0 <= y < i && plans[y].Ok?
      ensures KnownBy(key(plans[y].value), seen, y)
    {
    }
  }

  // ... and what they are to become.
  lemma {:induction false} IndexedNext(plans: seq<Result<Plan, MoveError>>, key: Plan -> Path, seen: map<Path, nat>, i: nat)
    requires i < |plans| && Indexed(plans, key, seen, i)
    ensures match plans[i]
            case Err(_) => Indexed(plans, key, seen, i + 1)
            case Ok(p) => Indexed(plans, key, if key(p) in seen then seen else seen[key(p) := i], i + 1)
  {
  }

  method ReportPlan(srcs: seq<string>, plans: seq<Result<Plan, MoveError>>, reports: seq<MoveResult>, i: nat,
                    first: Option<nat>, same: Option<nat>)
    returns (results: seq<MoveResult>)
    requires AllReported(srcs, plans, reports, i) && i < |srcs| && plans[i].Ok?
    requires FirstTarget(plans, i, first) && FirstSource(plans, i, same)
    requires same.Some? ==> first.Some? && first.value <= same.value
    ensures AllReported(srcs, plans, results, i + 1)
  {
    hide Reports, SameTarget;
    if first.Some? {
      results := ReportCollision(srcs, plans, reports, i, first.value, same);
    } else {
      ReportsUndisturbed(srcs, plans, reports, i);
      results := reports;
    }
  }

  method ReportFailure(srcs: seq<string>, plans: seq<Result<Plan, MoveError>>, reports: seq<MoveResult>, i: nat)
    returns (results: seq<MoveResult>)
    requires AllReported(srcs, plans, reports, i) && i < |srcs| && plans[i].Err?
    ensures AllReported(srcs, plans, results, i + 1)
  {
    hide Reports;
    assert forall y | 0 <= y < i :: !SameTarget(plans, y, i);
    ReportsUndisturbed(srcs, plans, reports, i);
    results := reports[i := MoveResult(srcs[i], None, Some(plans[i].error))];
  }

  lemma {:induction false} ReportsUndisturbed(srcs: seq<string>, plans: seq<Result<Plan, MoveError>>, results: seq<MoveResult>, i: nat)
    requires |srcs| == |plans| == |results| && i < |srcs|
    requires forall x | 0 <= x < |srcs| :: Reports(srcs, plans, results[x], x, i)
    requires forall y | 0 <= y < i :: !SameTarget(plans, y, i)
    ensures forall x | 0 <= x < |srcs| && (x == i ==> plans[x].Ok?) :: Reports(srcs, plans, results[x], x, i + 1)
    ensures plans[i].Err? ==> Reports(srcs, plans, MoveResult(srcs[i], None, Some(plans[i].error)), i, i + 1)
  {
    forall x | 0 <= x < |srcs| && (x == i ==> plans[x].Ok?)
      ensures Reports(srcs, plans, results[x], x, i + 1)
    {
      if ClashBefore(plans, x, i + 1) {
        var y :| 0 <= y < i + 1 && SameTarget(plans, x, y);
        assert SameTarget(plans, y, x);
      }
    }
  }

  // Request x has a descendant among the pairs looked at, and an ancestor at
  // most later in the list.
  ghost predicate DescendantFirst(plans: seq<Result<Plan, MoveError>>, x: int, n: int, m: int) {
    && (exists b :: Inside(plans, x, b) && (x < n || (x == n && b < m)))
    && !exists a :: a < x && Inside(plans, a, x) && (a < n || (a == n && x < m))
  }

  // What the nesting check adds to the report of request x.
  ghost predicate AddsNesting(plans: seq<Result<Plan, MoveError>>, before: MoveResult, after: MoveResult, x: int, n: int, m: int) {
    && after.src == before.src && after.newAbs == before.newAbs
    && (before.error.Some? || !NestedBefore(plans, x, n, m) ==> after == before)
    && (before.error.None? && NestedBefore(plans, x, n, m) ==>
          after.error == Some(if DescendantFirst(plans, x, n, m) then WithDescendant else WithAncestor))
  }

  // What the pair (i, j) does to the report of request x, ...
  lemma {:induction false} NestingStep(plans: seq<Result<Plan, MoveError>>, was: MoveResult, before: MoveResult, after: MoveResult,
                                       x: nat, i: nat, j: nat)
    requires i < |plans| && j < |plans| && AddsNesting(plans, was, before, x, i, j)
    requires after == if Inside(plans, i, j) && before.error.None? && x in {i, j}
                      then before.(error := Some(if x == i then WithDescendant else WithAncestor))
                      else before
    ensures AddsNesting(plans, was, after, x, i, j + 1)
  {
    assert NestedBefore(plans, x, i, j + 1) <==> NestedBefore(plans, x, i, j) || (Inside(plans, i, j) && x in {i, j});
  }

  // ... and all pairs (i, j) together.
  lemma {:induction false} NestingRow(plans: seq<Result<Plan, MoveError>>, was: MoveResult, after: MoveResult, x: nat, i: nat)
    requires i < |plans|
    requires AddsNesting(plans, was, after, x, i, if plans[i].Ok? && plans[i].value.isDir then |plans| else 0)
    ensures AddsNesting(plans, was, after, x, i + 1, 0)
  {
  }

  // The second loop of the preflight: report requests inside one another.
  method ReportNesting(plans: seq<Result<Plan, MoveError>>, results: seq<MoveResult>) returns (r: seq<MoveResult>)
    requires |plans| == |results|
    ensures |r| == |results|
    ensures forall x | 0 <= x < |r| :: AddsNesting(plans, results[x], r[x], x, |r|, 0)
  {
    hide AddsNesting;
    r := results;
    forall x | 0 <= x < |r| ensures AddsNesting(plans, results[x], r[x], x, 0, 0) {
      NothingNested(plans, results[x], x);
    }
    for i := 0 to |plans|
      invariant |r| == |results|
      invariant forall x | 0 <= x < |r| :: AddsNesting(plans, results[x], r[x], x, i, 0)
    {
      if plans[i].Ok? && plans[i].value.isDir {
        for j := 0 to |plans|
          invariant |r| == |results|
          invariant forall x | 0 <= x < |r| :: AddsNesting(plans, results[x], r[x], x, i, j)
        {
          ghost var before := r;
          if Inside(plans, i, j) {
            if r[i].error.None? {
              r := r[i := r[i].(error := Some(WithDescendant))];
            }
            if r[j].error.None? {
              r := r[j := r[j].(error := Some(WithAncestor))];
            }
          }
          forall x | 0 <= x < |r| ensures AddsNesting(plans, results[x], r[x], x, i, j + 1) {
            NestingStep(plans, results[x], before[x], r[x], x, i, j);
          }
        }
      }
      forall x | 0 <= x < |r| ensures AddsNesting(plans, results[x], r[x], x, i + 1, 0) {
        NestingRow(plans, results[x], r[x], x, i);
      }
    }
  }

  lemma {:induction false} NothingNested(plans: seq<Result<Plan, MoveError>>, was: MoveResult, x: nat)
    ensures AddsNesting(plans, was, was, x, 0, 0)
  {
  }

  // The preflight's final word on request x.
  ghost predicate PreflightReport(srcs: seq<string>, plans: seq<Result<Plan, MoveError>>, r: MoveResult, x: nat)
    requires x < |srcs| == |plans|
  {
    && r.src == srcs[x] && r.newAbs.None?
    && (r.error.Some? <==> AtFault(plans, x))
    && (plans[x].Err? ==> r.error == Some(plans[x].error))
    && (ClashBefore(plans, x, x) ==> r.error == Some(TargetClash))
    && (!ClashBefore(plans, x, x) ==> forall y | FirstClashAfter(plans, x, y) :: r.error == Some(ClashError(plans, x, y)))
    // Nesting is reported where nothing else is wrong; what shows first when
    // the pairs are gone through by their outer request counts.
    && (plans[x].Ok? && AtFault(plans, x) && !ClashBefore(plans, x, |plans|) ==>
          if exists a :: a < x && Inside(plans, a, x) then r.error == Some(WithAncestor)
          else if exists b :: Inside(plans, x, b) then r.error == Some(WithDescendant)
          else r.error == Some(WithAncestor))
  }

  // The two loops together say it.
  lemma {:induction false} ReportsAddUp(srcs: seq<string>, plans: seq<Result<Plan, MoveError>>, before: MoveResult, after: MoveResult, x: nat)
    requires x < |srcs| == |plans|
    requires Reports(srcs, plans, before, x, |srcs|) && AddsNesting(plans, before, after, x, |plans|, 0)
    ensures PreflightReport(srcs, plans, after, x)
  {
    assert DescendantFirst(plans, x, |plans|, 0) <==>
           (exists b :: Inside(plans, x, b)) && !exists a :: a < x && Inside(plans, a, x);
    assert NestedBefore(plans, x, |plans|, 0) <==> exists j :: Inside(plans, x, j) || Inside(plans, j, x);
    assert ClashBefore(plans, x, |plans|) <==> exists j :: SameTarget(plans, x, j);
  }

  // The same in terms of the requests.
  ghost predicate Verdict(t: Tree, env: Env, srcs: seq<string>, dstDir: Path, r: MoveResult, x: nat)
    requires x < |srcs|
  {
    && (r.error.None? <==> Blameless(t, env, srcs, dstDir, x))
    && (!Movable(t, env, srcs[x], dstDir) ==> r.error.Some? && Refused(r.error.value, t, env, srcs[x], dstDir))
  }

  ghost predicate AsRequested(t: Tree, plans: seq<Plan>, srcs: seq<string>, dstDir: Path) {
    && |plans| == |srcs|
    && forall i | 0 <= i < |srcs| ::
         var p := Clean(srcs[i]);
         p != [] && p in t && plans[i] == Plan(p, dstDir + [p[|p| - 1]], t[p] == Dir)
  }

  lemma {:induction false} ReportIsTheVerdict(t: Tree, env: Env, srcs: seq<string>, dstDir: Path, results: seq<MoveResult>)
    requires WellFormed(t) && |results| == |srcs|
    requires forall x | 0 <= x < |srcs| :: PreflightReport(srcs, PlanAll(t, env, srcs, dstDir), results[x], x)
    ensures forall x | 0 <= x < |srcs| :: Verdict(t, env, srcs, dstDir, results[x], x)
    ensures NoErrors(results) <==> forall x | 0 <= x < |srcs| :: Blameless(t, env, srcs, dstDir, x)
    ensures var all := PlanAll(t, env, srcs, dstDir);
            NoErrors(results) ==> (forall i | 0 <= i < |all| :: all[i].Ok?) && AsRequested(t, Values(all), srcs, dstDir)
  {
    hide AtFault, Blameless, Movable, Refused;
    var all := PlanAll(t, env, srcs, dstDir);
    forall x | 0 <= x < |srcs|
      ensures Verdict(t, env, srcs, dstDir, results[x], x)
      ensures NoErrors(results) ==>
                && Blameless(t, env, srcs, dstDir, x) && all[x].Ok?
                && (var p := Clean(srcs[x]);
                    p != [] && p in t && all[x].value == Plan(p, dstDir + [p[|p| - 1]], t[p] == Dir))
    {
      assert PreflightReport(srcs, all, results[x], x) && results[x] in results;
      AtFaultExactlyWhenBlamed(t, env, srcs, dstDir, x);
      PlannedExactlyWhenMovable(t, env, srcs[x], dstDir);
    }
    if r :| r in results && r.error.Some? {
      var x :| 0 <= x < |srcs| && results[x] == r;
      assert Verdict(t, env, srcs, dstDir, results[x], x);
    }
  }

  lemma {:induction false} NoErrorsMeansAcceptable(srcs: seq<string>, plans: seq<Result<Plan, MoveError>>, results: seq<MoveResult>)
    requires |srcs| == |plans| == |results|
    requires forall x | 0 <= x < |srcs| :: PreflightReport(srcs, plans, results[x], x)
    ensures NoErrors(results) <==> Acceptable(plans)
  {
    assert forall x | 0 <= x < |srcs| :: results[x] in results;
    if !Acceptable(plans) {
      var x :| 0 <= x < |plans| && AtFault(plans, x);
      assert PreflightReport(srcs, plans, results[x], x);
    }
  }

  lemma {:induction false} PlansAreSound(t: Tree, env: Env, srcs: seq<string>, dstDir: Path)
    requires WellFormed(t) && IsDir(t, dstDir)
    ensures var plans := PlanAll(t, env, srcs, dstDir);
            forall i | 0 <= i < |plans| :: SoundIfPlanned(t, dstDir, plans[i])
  {
    var plans := PlanAll(t, env, srcs, dstDir);
    forall i | 0 <= i < |plans|
      ensures SoundIfPlanned(t, dstDir, plans[i])
    {
      if plans[i].Ok? {
        PlannedMoveIsSound(t, env, srcs[i], dstDir);
      }
    }
  }

  ghost predicate SoundIfPlanned(t: Tree, dstDir: Path, plan: Result<Plan, MoveError>) {
    plan.Ok? ==> Sound(t, dstDir, plan.value)
  }

  class FileOps {
    var tree: Tree
    const env: Env
    // How many renames have failed for reasons of their own.
    ghost var faults: nat

    constructor (tree: Tree, env: Env)
      ensures this.tree == tree && this.env == env && faults == 0
    {
      this.tree := tree;
      this.env := env;
      this.faults := 0;
    }

    // atomicRenameNoReplace.
    method RenameNoReplace(from: Path, to: Path) returns (err: Option<MoveError>)
      requires WellFormed(tree)
      modifies this
      ensures WellFormed(tree)
      ensures err.None? ==> RenameAllowed(old(tree), from, to, true) && tree == Relocate(old(tree), from, to)
      ensures err.Some? ==> tree == old(tree)
      ensures err.Some? ==> err.value == (if to in old(tree) then TargetExists else RenameFailed)
      ensures faults == old(faults) + if err.Some? && RenameAllowed(old(tree), from, to, true) then 1 else 0
    {
      var broken := *;
      if to in tree {
        err := Some(TargetExists);
      } else if broken || !RenameAllowed(tree, from, to, true) {
        faults := faults + if RenameAllowed(tree, from, to, true) then 1 else 0;
        err := Some(RenameFailed);
      } else {
        RenameKeepsWellFormed(tree, from, to, true);
        tree := Relocate(tree, from, to);
        err := None;
      }
    }

    // os.Rename.
    method Rename(from: Path, to: Path) returns (ok: bool)
      requires WellFormed(tree)
      modifies this
      ensures WellFormed(tree)
      ensures ok ==> RenameAllowed(old(tree), from, to, false) && tree == Relocate(old(tree), from, to)
      ensures !ok ==> tree == old(tree)
      ensures faults == old(faults) + if !ok && RenameAllowed(old(tree), from, to, false) then 1 else 0
    {
      var broken := *;
      ok := !broken && RenameAllowed(tree, from, to, false);
      if ok {
        RenameKeepsWellFormed(tree, from, to, false);
        tree := Relocate(tree, from, to);
      } else if RenameAllowed(tree, from, to, false) {
        faults := faults + 1;
      }
    }

    // The single-file mode.
    method ProcessSingleMove(src: string, dstDir: Path) returns (res: MoveResult)
      requires WellFormed(tree) && IsDir(tree, dstDir)
      modifies this
      ensures WellFormed(tree)
      ensures res.src == src && (res.newAbs.Some? <==> res.error.None?)
      ensures res.error.Some? ==> tree == old(tree)
      // It is refused exactly when it is not movable; then only the rename can fail.
      ensures !Movable(old(tree), env, src, dstDir) <==> res.error.Some? && res.error.value != RenameFailed
      ensures faults == old(faults) + if res.error == Some(RenameFailed) then 1 else 0
      ensures !Movable(old(tree), env, src, dstDir) ==> Refused(res.error.value, old(tree), env, src, dstDir)
      ensures res.error.None? ==>
                var p := Clean(src);
                && p != [] && p in old(tree)
                && (var plan := Plan(p, dstDir + [p[|p| - 1]], old(tree)[p] == Dir);
                    res.newAbs == Some(plan.dst) && Relocated(old(tree), tree, [plan], {0}))
    {
      PlannedExactlyWhenMovable(tree, env, src, dstDir);
      var plan := PlanSingleMove(tree, env, src, dstDir);
      if plan.Err? {
        return MoveResult(src, None, Some(plan.error));
      }
      var p := plan.value;
      PlannedMoveIsSound(tree, env, src, dstDir);
      NothingRelocated(tree, tree, [p]);
      CommitIsNeverBlocked(tree, tree, [p], {}, 0);
      CarryOutOne(tree, tree, [p], {}, 0);
      assert {} + {0} == {0};
      var err := RenameNoReplace(p.src, p.dst);
      if err.Some? {
        return MoveResult(src, None, err);
      }
      return MoveResult(src, Some(p.dst), None);
    }

    // The whole preflight. It reports exactly the requests at fault, and
    // changes nothing.
    method Preflight(srcs: seq<string>, dstDir: Path)
      returns (results: seq<MoveResult>, plans: seq<Result<Plan, MoveError>>)
      requires WellFormed(tree) && IsDir(tree, dstDir)
      ensures plans == PlanAll(tree, env, srcs, dstDir) && |results| == |srcs|
      ensures forall x | 0 <= x < |srcs| :: PreflightReport(srcs, plans, results[x], x)
      ensures NoErrors(results) <==> Acceptable(plans)
      ensures forall x | 0 <= x < |srcs| :: Verdict(tree, env, srcs, dstDir, results[x], x)
      ensures NoErrors(results) <==> forall x | 0 <= x < |srcs| :: Blameless(tree, env, srcs, dstDir, x)
      ensures NoErrors(results) ==>
                (forall i | 0 <= i < |plans| :: plans[i].Ok?) && AsRequested(tree, Values(plans), srcs, dstDir)
    {
      plans := PlanAll(tree, env, srcs, dstDir);
      PlansAreSound(tree, env, srcs, dstDir);
      assert forall i | 0 <= i < |plans| :: SoundIfPlanned(tree, dstDir, plans[i]);
      var first := ReportPlans(srcs, plans);
      results := ReportNesting(plans, first);
      forall x | 0 <= x < |srcs|
        ensures PreflightReport(srcs, plans, results[x], x)
      {
        assert plans[x].Ok? ==> SoundIfPlanned(tree, dstDir, plans[x]);
        ReportsAddUp(srcs, plans, first[x], results[x], x);
      }
      NoErrorsMeansAcceptable(srcs, plans, results);
      ReportIsTheVerdict(tree, env, srcs, dstDir, results);
    }

    method CommitMove(plans: seq<Plan>, k: nat, ghost t0: Tree) returns (err: Option<MoveError>)
      requires Disjoint(plans) && Feasible(t0, plans) && k < |plans|
      requires WellFormed(tree) && Relocated(t0, tree, plans, First(k))
      modifies this
      ensures WellFormed(tree)
      ensures Relocated(t0, tree, plans, First(if err.None? then k + 1 else k))
      ensures err.Some? ==> err.value == RenameFailed
      ensures faults == old(faults) + if err.Some? then 1 else 0
    {
      CommitStep(t0, tree, plans, k);
      err := RenameNoReplace(plans[k].src, plans[k].dst);
    }

    method UndoMove(plans: seq<Plan>, k: nat, ghost t0: Tree, ghost done: set<nat>) returns (ok: bool)
      requires Disjoint(plans) && Feasible(t0, plans) && k in done && k < |plans|
      requires WellFormed(tree) && Relocated(t0, tree, plans, done)
      modifies this
      ensures WellFormed(tree)
      ensures Relocated(t0, tree, plans, if ok then done - {k} else done)
      ensures faults == old(faults) + if ok then 0 else 1
    {
      UndoStep(t0, tree, plans, done, k);
      ok := Rename(plans[k].dst, plans[k].src);
    }

    // Undo completed moves, last first; `stuck` are the positions that fail.
    method RollbackMoves(plans: seq<Plan>, ghost t0: Tree) returns (errs: seq<Plan>, ghost stuck: set<nat>)
      requires Disjoint(plans) && Feasible(t0, plans)
      requires WellFormed(tree) && Relocated(t0, tree, plans, First(|plans|))
      modifies this
      ensures WellFormed(tree)
      ensures Relocated(t0, tree, plans, stuck) && errs == Reported(plans, stuck, 0)
      ensures faults == old(faults) + |errs|
    {
      errs, stuck := [], {};
      var i := |plans|;
      ghost var done := First(|plans|);
      while i > 0
        invariant 0 <= i <= |plans|
        invariant done == First(i) + stuck && (forall k <- stuck :: i <= k < |plans|)
        invariant WellFormed(tree) && Relocated(t0, tree, plans, done)
        invariant errs == Reported(plans, stuck, i) && faults == old(faults) + |errs|
      {
        i := i - 1;
        var ok := UndoMove(plans, i, t0, done);
        if ok {
          done := done - {i};
        } else {
          errs := errs + [plans[i]];
          ReportedBelow(plans, stuck, stuck + {i}, i + 1);
          stuck := stuck + {i};
        }
        assert done == First(i) + stuck;
      }
      assert done == stuck;
    }

    // The commit loop, and the rollback when a rename fails.
    method Commit(plans: seq<Plan>) returns (failedAt: Option<nat>, unrestored: seq<Plan>, ghost stuck: set<nat>)
      requires WellFormed(tree) && Disjoint(plans) && Feasible(tree, plans)
      modifies this
      ensures WellFormed(tree)
      ensures failedAt.None? ==> Relocated(old(tree), tree, plans, First(|plans|)) && unrestored == []
      ensures failedAt.Some? ==>
                && failedAt.value < |plans|
                && (forall i <- stuck :: i < failedAt.value)
                && Relocated(old(tree), tree, plans, stuck)
                && unrestored == Reported(plans, stuck, 0)
      ensures faults == old(faults) + if failedAt.Some? then 1 + |unrestored| else 0
    {
      hide Relocated, Disjoint, Feasible, WellFormed;
      var completed: seq<Plan> := [];
      NothingRelocated(tree, tree, plans);
      for i := 0 to |plans|
        invariant completed == plans[..i]
        invariant WellFormed(tree) && Relocated(old(tree), tree, plans, First(i))
        invariant faults == old(faults)
      {
        var err := CommitMove(plans, i, old(tree));
        if err.Some? {
          PrefixRelocated(old(tree), tree, plans, i, First(i));
          unrestored, stuck := RollbackMoves(completed, old(tree));
          ReportedPrefix(plans, i, stuck, 0);
          PrefixRelocated(old(tree), tree, plans, i, stuck);
          failedAt := Some(i);
          return;
        }
        completed := completed + [plans[i]];
      }
      failedAt, unrestored, stuck := None, [], {};
    }

    // The multi-file move.
    method ProcessMultiMove(srcs: seq<string>, dstDir: Path) returns (resp: MoveResponse)
      requires WellFormed(tree) && IsDir(tree, dstDir)
      modifies this
      ensures WellFormed(tree)
      ensures MultiMoveOutcome(old(tree), tree, PlanAll(old(tree), env, srcs, dstDir), srcs, resp)
      ensures resp.RenameFailure? && resp.unrestored == [] ==> tree == old(tree)
      // It fails at a rename only when one fails by itself, and every plan left
      // carried out stands for one more.
      ensures faults == old(faults) + if resp.RenameFailure? then 1 + |resp.unrestored| else 0
      // In terms of the requests: exactly those to blame are reported, one is
      // enough to refuse them all, and otherwise each moves where it asks to.
      ensures resp.PreflightFailed? <==> exists x | 0 <= x < |srcs| :: !Blameless(old(tree), env, srcs, dstDir, x)
      ensures resp.PreflightFailed? ==>
                forall x | 0 <= x < |srcs| :: Verdict(old(tree), env, srcs, dstDir, resp.results[x], x)
      ensures !resp.PreflightFailed? ==>
                var all := PlanAll(old(tree), env, srcs, dstDir);
                (forall i | 0 <= i < |all| :: all[i].Ok?) && AsRequested(old(tree), Values(all), srcs, dstDir)
    {
      hide AtFault, Acceptable, Verdict, Blameless, AsRequested, Relocated, Disjoint, Feasible, WellFormed;
      var results, all := Preflight(srcs, dstDir);
      if !NoErrors(results) {
        return PreflightFailed(results);
      }
      AcceptedMovesAreDisjoint(tree, env, srcs, dstDir);
      var plans := Values(all);
      var failedAt, unrestored, stuck := Commit(plans);
      if failedAt.Some? {
        results := results[failedAt.value := results[failedAt.value].(error := Some(RenameFailed))];
        StuckPositions(plans, stuck);
        NothingRelocated(old(tree), tree, plans);
        return RenameFailure(results, failedAt.value, unrestored);
      }
      for i := 0 to |plans|
        invariant |results| == |srcs|
        invariant forall x | 0 <= x < i :: results[x] == MoveResult(srcs[x], Some(plans[x].dst), None)
        invariant forall x | i <= x < |srcs| :: results[x] == MoveResult(srcs[x], None, None)
      {
        results := results[i := results[i].(newAbs := Some(plans[i].dst))];
      }
      return Moved(results);
    }
  }

  // All or nothing: the promise of a multi-file move from tree t0 to tree t,
  // where `all` are the plans of the single requests.
  ghost predicate MultiMoveOutcome(t0: Tree, t: Tree, all: seq<Result<Plan, MoveError>>, srcs: seq<string>, resp: MoveResponse) {
    && |all| == |srcs| == |resp.results|
    && match resp
       case PreflightFailed(results) =>
         // Some request is at fault; exactly those are reported and nothing moves.
         && t == t0 && !Acceptable(all)
         && (forall x | 0 <= x < |srcs| :: PreflightReport(srcs, all, results[x], x))
       case Moved(results) =>
         // Every source subtree is at its target; nothing else changed.
         && (forall i | 0 <= i < |all| :: all[i].Ok?) && Acceptable(all)
         && Relocated(t0, t, Values(all), First(|all|))
         && (forall x | 0 <= x < |srcs| :: results[x] == MoveResult(srcs[x], Some(all[x].value.dst), None))
       case RenameFailure(results, failedAt, unrestored) =>
         // Exactly the plans named by the rollback report are still carried out.
         && (forall i | 0 <= i < |all| :: all[i].Ok?) && Acceptable(all)
         && failedAt < |all|
         && (forall x | 0 <= x < |srcs| ::
               results[x] == MoveResult(srcs[x], None, if x == failedAt then Some(RenameFailed) else None))
         && (var stuck := PositionsOf(Values(all), unrestored);
             && (forall i <- stuck :: i < failedAt)
             && unrestored == Reported(Values(all), stuck, 0)
             && Relocated(t0, t, Values(all), stuck))
  }
}
