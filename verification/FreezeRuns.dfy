/** Whole runs of the pin and freeze operations, in any order. */
module FreezeRuns {
  import opened Options
  import opened PinTree
  import opened Freezing

  datatype Op =
    | TakeDirPin(d: nat, n: nat)
    | DropDirPin(d: nat, n: nat)
    | TakeInodePin(i: nat, n: nat)
    | DropInodePin(i: nat, n: nat)
    | StartTreeFreeze(d: nat)
    | StartDirFreeze(d: nat)
    | EndFreeze(d: nat)
    | UnfreezeWaiter(d: nat)  // C_Dir_AuthUnpin: the inode was unfrozen, give the retaken pin back
    | ChangeAuth(d: nat, a: Authority)
    | Link(i: nat, d: nat)
    | Unlink(i: nat)

  // can_auth_pin, for a fragment
  predicate CanPin(t: Tree, d: nat)
    requires Shape(t) && d < |t.dirs|
  {
    t.dirs[d].at.auth && !(IsFrozen(t, d) || IsFreezing(t, d))
  }

  /** What callers promise: pins are taken only on what can be pinned and dropped only
      by their holder, a freeze is asked for only once, and nothing pinned or frozen
      is moved into a frozen tree. */
  predicate Allowed(t: Tree, op: Op)
    requires Shape(t)
  {
    match op
    case TakeDirPin(d, n) => d < |t.dirs| && CanPin(t, d)
    case DropDirPin(d, n) => d < |t.dirs| && n in t.dirs[d].held.callers
    case TakeInodePin(i, n) =>
      && i < |t.inodes| && t.inodes[i].auth
      && (ParentOf(t, i).Some? ==> !IsFrozen(t, ParentOf(t, i).value) && !IsFreezing(t, ParentOf(t, i).value))
    case DropInodePin(i, n) => i < |t.inodes| && n in t.inodes[i].callers
    case StartTreeFreeze(d) => d < |t.dirs| && !IsFrozen(t, d) && !IsFreezing(t, d)
    case StartDirFreeze(d) => d < |t.dirs| && !IsFrozen(t, d) && !IsFreezing(t, d)
    case EndFreeze(d) => d < |t.dirs| && t.dirs[d].state != THAWED
    case UnfreezeWaiter(d) => d < |t.dirs| && t.dirs[d].held.retaken > 0
    case ChangeAuth(d, a) =>
      && d < |t.dirs| && MergeAllowed(t, d, a)
      && (a == AUTH_DEFAULT ==> t.dirs[d].at.auth == t.inodes[InodeOf(t, d)].auth)
    case Link(i, d) =>
      && i < |t.inodes| && d < |t.dirs| && t.inodes[i].parent == None && !DirBelow(t, d, i)
      && (t.inodes[i].Cum() != 0 ==> !IsFrozenTree(t, d))
    case Unlink(i) => i < |t.inodes| && t.inodes[i].parent.Some?
  }

  // A tree freeze that starts with no pin in its way, below a frozen inode.
  predicate Stalls(t: Tree, op: Op) {
    Shape(t) && Allowed(t, op) && op.StartTreeFreeze? && t.dirs[op.d].Cum() == 0 && InodeHolds(t, op.d)
  }

  // Fragment d changed; the rest changed only by side effects above it.
  predicate ChangedAt(t: Tree, u: Tree, d: nat)
    requires Shape(t) && d < |t.dirs|
  {
    |u.dirs| == |t.dirs| && Side(PutDir(t, d, u.dirs[d]), u, t.dirs[d].at.depth, Some(HeldSet(t)))
  }

  // A pin on fragment d was dropped, and whatever freeze of it waited for that is over.
  predicate Dropped(t: Tree, d: nat, who: DirHolder, u: Tree)
    requires Shape(t) && d < |t.dirs| && d < |u.dirs| && HeldBy(t.dirs[d], who)
  {
    DirSide(d, DirUnpinnedBy(t.dirs[d], who), u.dirs[d], Some(HeldSet(t))) && TreeBlocked(u.dirs[d])
  }

  // One step: an operation that is not allowed is not made.
  predicate Step(t: Tree, op: Op, u: Tree) {
    Shape(t) &&
    if !Allowed(t, op) then u == t else
    match op
    case TakeDirPin(d, n) => ChangedAt(t, u, d) && u.dirs[d] == DirPinnedBy(t.dirs[d], Caller(n))
    case DropDirPin(d, n) => ChangedAt(t, u, d) && Dropped(t, d, Caller(n), u)
    case TakeInodePin(i, n) => Side(PutInode(t, i, PinnedBy(t.inodes[i], User(n))), u, t.inodes[i].depth, None)
    case DropInodePin(i, n) =>
      Side(PutInode(t, i, UnpinnedBy(t.inodes[i], User(n))), u, t.inodes[i].depth, Some(HeldSet(t)))
    case StartTreeFreeze(d) =>
      && ChangedAt(t, u, d)
      && u.dirs[d].held == t.dirs[d].held.(self := u.dirs[d].held.self)
      && u.dirs[d].state == if t.dirs[d].Cum() == 0 && !InodeHolds(t, d) then THAWED.(frozenTree := true)
                            else THAWED.(freezingTree := true)
    case StartDirFreeze(d) =>
      && ChangedAt(t, u, d)
      && u.dirs[d].held == t.dirs[d].held.(self := u.dirs[d].held.self)
      && u.dirs[d].state == if t.dirs[d].authPins == 0 && t.dirs[d].dirPins == 0 then THAWED.(frozenDir := true)
                            else THAWED.(freezingDir := true)
    case EndFreeze(d) => ChangedAt(t, u, d) && u.dirs[d].state == THAWED && u.dirs[d].held == t.dirs[d].held.(self := 0)
    case UnfreezeWaiter(d) => ChangedAt(t, u, d) && Dropped(t, d, OwnInode, u)
    case ChangeAuth(d, a) => ChangedAt(t, u, d) && u.dirs[d] == t.dirs[d].(dirAuth := a)
    case Link(i, d) => Linked(t, i, d, u)
    case Unlink(i) =>
      Side(PutInode(t, i, t.inodes[i].(parent := None)), u, t.inodes[i].depth, Some(HeldSet(t)))
  }

  // Every tree freeze still waiting has a pin whose removal will wake it.
  predicate NoneMissed(t: Tree) {
    forall d :: 0 <= d < |t.dirs| ==> TreeBlocked(t.dirs[d])
  }

  // No pin is held anywhere in the region of a frozen tree, and no fragment inside it that this
  // server is the authority of is frozen on its own.
  predicate FrozenTreesQuiet(t: Tree) {
    && Shape(t)
    && forall r, d ::
      0 <= r < |t.dirs| && 0 <= d < |t.dirs| && t.dirs[r].state.frozenTree && InRegion(t, r, d) ==>
        && t.dirs[d].Cum() == 0 && !t.dirs[d].state.Freezing()
        && (d != r && t.dirs[d].at.auth ==> !t.dirs[d].state.Frozen())
  }

  // Side effects never leave a waiting freeze without a blocker.
  lemma SideMissesNone(t: Tree, u: Tree, depth: nat, held: Option<set<nat>>)
    requires Side(t, u, depth, held) && NoneMissed(t)
    ensures NoneMissed(u)
  {
    forall d | 0 <= d < |u.dirs| ensures TreeBlocked(u.dirs[d]) { assert TreeBlocked(t.dirs[d]); }
  }

  method Perform(c: Cache, op: Op)
    requires Ok(c.t, SETTLED) && Allowed(c.t, op)
    modifies c
    ensures Ok(c.t, SETTLED) && Step(old(c.t), op, c.t)
    ensures NoneMissed(old(c.t)) && !Stalls(old(c.t), op) ==> NoneMissed(c.t)
  {
    ghost var t0 := c.t;
    if op.TakeInodePin? || op.DropInodePin? || op.Link? || op.Unlink? {
      PerformOnInode(c, op);
    } else {
      PerformOnDir(c, op);
      if NoneMissed(t0) && !Stalls(t0, op) {
        assert NoneMissed(PutDir(t0, op.d, c.t.dirs[op.d]));
        SideMissesNone(PutDir(t0, op.d, c.t.dirs[op.d]), c.t, t0.dirs[op.d].at.depth, Some(HeldSet(t0)));
      }
    }
  }

  method PerformOnInode(c: Cache, op: Op)
    requires Ok(c.t, SETTLED) && Allowed(c.t, op)
    requires op.TakeInodePin? || op.DropInodePin? || op.Link? || op.Unlink?
    modifies c
    ensures Ok(c.t, SETTLED) && Step(old(c.t), op, c.t)
    ensures NoneMissed(old(c.t)) ==> NoneMissed(c.t)
  {
    if op.Link? {
      PerformLink(c, op.i, op.d);
    } else {
      PerformPin(c, op);
    }
  }

  method PerformPin(c: Cache, op: Op)
    requires Ok(c.t, SETTLED) && Allowed(c.t, op) && (op.TakeInodePin? || op.DropInodePin? || op.Unlink?)
    modifies c
    ensures Ok(c.t, SETTLED) && Step(old(c.t), op, c.t)
    ensures NoneMissed(old(c.t)) ==> NoneMissed(c.t)
  {
    match op
    case TakeInodePin(i, n) => c.PinInode(i, User(n), SETTLED);
    case DropInodePin(i, n) => c.UnpinInode(i, User(n), SETTLED, HeldSet(c.t));
    case Unlink(i) => c.UnlinkInode(i);
  }

  method PerformLink(c: Cache, i: nat, d: nat)
    requires Ok(c.t, SETTLED) && Allowed(c.t, Link(i, d))
    modifies c
    ensures Ok(c.t, SETTLED) && Step(old(c.t), Link(i, d), c.t)
    ensures NoneMissed(old(c.t)) ==> NoneMissed(c.t)
  {
    ghost var t0 := c.t;
    c.LinkInode(i, d);
    LinkMissesNone(t0, i, d, c.t);
  }

  lemma LinkMissesNone(t: Tree, i: nat, d: nat, u: Tree)
    requires Linked(t, i, d, u)
    ensures NoneMissed(t) ==> NoneMissed(u)
  {
    if NoneMissed(t) {
      var v := Deepened(t, i, t.dirs[d].at.depth + 1);
      DeepenedMissesNone(t, i, t.dirs[d].at.depth + 1);
      SideMissesNone(PutInode(v, i, v.inodes[i].(parent := Some(d))), u, v.inodes[i].depth, None);
    }
  }

  lemma DeepenedMissesNone(t: Tree, i: nat, k: nat)
    requires Shape(t) && NoneMissed(t)
    ensures NoneMissed(Deepened(t, i, k))
  {
    forall d | 0 <= d < |t.dirs| ensures TreeBlocked(Deepened(t, i, k).dirs[d]) {
      assert TreeBlocked(t.dirs[d]) && Deepened(t, i, k).dirs[d] == Lowered(t, i, k, d);
    }
  }

  method PerformOnDir(c: Cache, op: Op)
    requires Ok(c.t, SETTLED) && Allowed(c.t, op)
    requires !(op.TakeInodePin? || op.DropInodePin? || op.Link? || op.Unlink?)
    modifies c
    ensures Ok(c.t, SETTLED) && Step(old(c.t), op, c.t)
    ensures TreeBlocked(old(c.t).dirs[op.d]) && !Stalls(old(c.t), op) ==> TreeBlocked(c.t.dirs[op.d])
  {
    match op
    case TakeDirPin(d, n) => c.PinDir(d, Caller(n), SETTLED);
    case DropDirPin(d, n) => c.UnpinDir(d, Caller(n), HeldSet(c.t));
    case StartTreeFreeze(d) => var _ := c.FreezeTree(d);
    case StartDirFreeze(d) => var _ := c.FreezeDir(d);
    case EndFreeze(d) => c.Unfreeze(d);
    case UnfreezeWaiter(d) => c.UnpinDir(d, OwnInode, HeldSet(c.t));
    case ChangeAuth(d, a) => c.SetDirAuth(d, a);
  }

  // ---- what becomes of a freeze whose last blocker goes

  // What a step may do to the holders and the state of a fragment whose freeze it does not end.
  predicate Moves(x: Dir, y: Dir, inodeHeld: bool, ended: bool) {
    && (x.held.retaken < y.held.retaken ==> x.state.freezingTree && inodeHeld)
    && (x.state.freezingTree && !ended ==> y.state == x.state || (y.state == FROZEN_TREE && !inodeHeld))
    && (x.state.freezingTree && !ended && TreeBlocked(x) ==> TreeBlocked(y))
  }

  const FROZEN_TREE := THAWED.(frozenTree := true)

  lemma MovesLink(t: Tree, i: nat, d: nat, u: Tree, e: nat)
    requires Linked(t, i, d, u) && e < |t.dirs| == |u.dirs|
    ensures Moves(t.dirs[e], u.dirs[e], InodeHolds(t, e), false)
  {
    var v := Deepened(t, i, t.dirs[d].at.depth + 1);
    assert v.dirs[e] == Lowered(t, i, t.dirs[d].at.depth + 1, e);
  }

  lemma MovesSide(t: Tree, v: Tree, u: Tree, depth: nat, held: Option<set<nat>>, e: nat)
    requires Shape(t) && Side(v, u, depth, held) && e < |t.dirs| == |u.dirs| && v.dirs[e] == t.dirs[e]
    requires held == None || held == Some(HeldSet(t))
    ensures Moves(t.dirs[e], u.dirs[e], InodeHolds(t, e), false)
  {
  }

  lemma MovesHere(t: Tree, op: Op, u: Tree)
    requires Ok(t, SETTLED) && Step(t, op, u) && Allowed(t, op) && |u.dirs| == |t.dirs|
    requires !(op.TakeInodePin? || op.DropInodePin? || op.Link? || op.Unlink?)
    ensures Moves(t.dirs[op.d], u.dirs[op.d], InodeHolds(t, op.d), op.EndFreeze?)
  {
  }

  lemma StepMoves(t: Tree, op: Op, u: Tree, e: nat)
    requires Ok(t, SETTLED) && Step(t, op, u) && e < |t.dirs| == |u.dirs|
    ensures Moves(t.dirs[e], u.dirs[e], InodeHolds(t, e), op == EndFreeze(e))
  {
    if Allowed(t, op) {
      match op
      case Link(i, d) => MovesLink(t, i, d, u, e);
      case TakeInodePin(i, n) =>
        MovesSide(t, PutInode(t, i, PinnedBy(t.inodes[i], User(n))), u, t.inodes[i].depth, None, e);
      case DropInodePin(i, n) =>
        MovesSide(t, PutInode(t, i, UnpinnedBy(t.inodes[i], User(n))), u, t.inodes[i].depth, Some(HeldSet(t)), e);
      case Unlink(i) =>
        MovesSide(t, PutInode(t, i, t.inodes[i].(parent := None)), u, t.inodes[i].depth, Some(HeldSet(t)), e);
      case _ =>
        if e == op.d {
          MovesHere(t, op, u);
        } else {
          MovesSide(t, PutDir(t, op.d, u.dirs[op.d]), u, t.dirs[op.d].at.depth, Some(HeldSet(t)), e);
        }
    }
  }

  /** A tree freeze re-arms in a step only if its inode is frozen then. */
  lemma RearmsUnderFrozen(t: Tree, op: Op, u: Tree, e: nat)
    requires Ok(t, SETTLED) && Step(t, op, u) && e < |t.dirs| == |u.dirs|
    requires u.dirs[e].held.retaken > t.dirs[e].held.retaken
    ensures t.dirs[e].state.freezingTree && InodeHolds(t, e)
  {
    StepMoves(t, op, u, e);
  }

  /** A tree freeze that waits for pins, with no frozen inode in its way, is complete as soon as
      the last of them is gone, in that very step; until then it waits. */
  lemma LastBlockerFreezes(t: Tree, op: Op, u: Tree, e: nat)
    requires Ok(t, SETTLED) && Step(t, op, u) && Ok(u, SETTLED) && e < |t.dirs| == |u.dirs| && op != EndFreeze(e)
    requires t.dirs[e].state.freezingTree && TreeBlocked(t.dirs[e]) && !InodeHolds(t, e)
    ensures var y := u.dirs[e];
      if y.held.callers == multiset{} && y.held.retaken == 0 && y.nested == 0 then y.state == FROZEN_TREE
      else y.state == THAWED.(freezingTree := true)
  {
    StepMoves(t, op, u, e);
    assert DirOk(t, SETTLED, e) && DirOk(u, SETTLED, e);
  }

  // One step of a run: exact and quiet before and after, and no freeze missed unless it stalls.
  ghost predicate GoodStep(t: Tree, op: Op, u: Tree) {
    && Ok(t, SETTLED) && FrozenTreesQuiet(t) && Ok(u, SETTLED) && FrozenTreesQuiet(u) && Step(t, op, u)
    && (NoneMissed(t) && !Stalls(t, op) ==> NoneMissed(u))
  }

  ghost predicate IsRun(trace: seq<Tree>, ops: seq<Op>) {
    |trace| == |ops| + 1 && forall k :: 0 <= k < |ops| ==> GoodStep(trace[k], ops[k], trace[k + 1])
  }

  lemma RunMore(trace: seq<Tree>, ops: seq<Op>, op: Op, u: Tree)
    requires IsRun(trace, ops) && GoodStep(trace[|ops|], op, u)
    ensures IsRun(trace + [u], ops + [op])
  {
    forall k | 0 <= k < |ops + [op]| ensures GoodStep((trace + [u])[k], (ops + [op])[k], (trace + [u])[k + 1]) {
      if k < |ops| { assert GoodStep(trace[k], ops[k], trace[k + 1]); }
    }
  }

  /** In a run without a stalling start no freeze is ever missed. */
  lemma {:induction false} NeverMissed(trace: seq<Tree>, ops: seq<Op>, k: nat)
    requires IsRun(trace, ops) && k <= |ops| && NoneMissed(trace[0])
    requires forall j :: 0 <= j < k ==> !Stalls(trace[j], ops[j])
    ensures NoneMissed(trace[k])
  {
    if k > 0 {
      NeverMissed(trace, ops, k - 1);
      assert GoodStep(trace[k - 1], ops[k - 1], trace[k]);
    }
  }

  method TryStep(c: Cache, op: Op)
    requires Ok(c.t, SETTLED)
    modifies c
    ensures GoodStep(old(c.t), op, c.t)
  {
    QuietEverywhere(c.t);
    if Allowed(c.t, op) {
      Perform(c, op);
      QuietEverywhere(c.t);
    }
  }

  /** Any run: in every state the pin counters are exact and every frozen tree is quiet;
      as long as no tree freeze starts under a frozen inode with nothing else in its way,
      no freeze is ever missed. */
  method Run(c: Cache, ops: seq<Op>) returns (trace: seq<Tree>)
    requires Ok(c.t, SETTLED)
    modifies c
    ensures IsRun(trace, ops) && trace[0] == old(c.t) && trace[|ops|] == c.t && Ok(c.t, SETTLED)
    ensures FrozenTreesQuiet(c.t)
    ensures NoneMissed(trace[0]) && (forall k :: 0 <= k < |ops| ==> !Stalls(trace[k], ops[k])) ==>
      forall k :: 0 <= k <= |ops| ==> NoneMissed(trace[k])
  {
    QuietEverywhere(c.t);
    trace := [c.t];
    for n := 0 to |ops|
      invariant IsRun(trace, ops[..n]) && trace[0] == old(c.t) && trace[n] == c.t && Ok(c.t, SETTLED)
      invariant FrozenTreesQuiet(c.t)
    {
      TryStep(c, ops[n]);
      RunMore(trace, ops[..n], ops[n], c.t);
      assert ops[..n + 1] == ops[..n] + [ops[n]];
      trace := trace + [c.t];
    }
    assert ops[..|ops|] == ops;
    if NoneMissed(trace[0]) && (forall k :: 0 <= k < |ops| ==> !Stalls(trace[k], ops[k])) {
      forall k | 0 <= k <= |ops| ensures NoneMissed(trace[k]) { NeverMissed(trace, ops, k); }
    }
  }

  lemma QuietEverywhere(t: Tree)
    requires Ok(t, SETTLED)
    ensures FrozenTreesQuiet(t)
  {
    forall r, d | 0 <= r < |t.dirs| && 0 <= d < |t.dirs| && t.dirs[r].state.frozenTree && InRegion(t, r, d)
      ensures t.dirs[d].Cum() == 0 && !t.dirs[d].state.Freezing()
      ensures d != r && t.dirs[d].at.auth ==> !t.dirs[d].state.Frozen()
    { FrozenTreeIsQuiet(t, r, d); }
  }

  // A cache as it is built: nothing pinned, nothing frozen.
  predicate Unpinned(t: Tree) {
    && Shape(t)
    && (forall d :: 0 <= d < |t.dirs| ==>
          t.dirs[d] == Dir(t.dirs[d].at, t.dirs[d].dirAuth, THAWED, Holders(multiset{}, 0, 0), 0, 0, 0))
    && (forall i :: 0 <= i < |t.inodes| ==>
          t.inodes[i] == Inode(t.inodes[i].parent, t.inodes[i].depth, t.inodes[i].auth, multiset{}, multiset{}, 0, 0))
  }

  lemma {:induction false} NothingToCount(t: Tree, k: nat, n: nat, m: nat)
    requires Unpinned(t) && n <= |t.inodes| && m <= |t.dirs|
    ensures SumCum(t.inodes, k, n) == 0 && SumOwn(t.inodes, k, n) == 0 && CountPinned(t.dirs, k, m) == 0
  {
    if n > 0 { NothingToCount(t, k, n - 1, m); } else if m > 0 { NothingToCount(t, k, n, m - 1); }
  }

  /** Runs start from any cache in which nothing is pinned yet. */
  lemma UnpinnedIsOk(t: Tree)
    requires Unpinned(t)
    ensures Ok(t, SETTLED) && NoneMissed(t)
  {
    forall d | 0 <= d < |t.dirs| ensures DirOk(t, SETTLED, d) {
      NothingToCount(t, d, |t.inodes|, 0);
      assert t.inodes[InodeOf(t, d)].freezers == multiset{};
    }
    forall i | 0 <= i < |t.inodes| ensures InodeOk(t, SETTLED, i) { NothingToCount(t, i, 0, |t.dirs|); }
  }

  // Two fragments, the second below the first and perhaps a replica.
  function Small(auth: bool): Tree {
    var none := Holders(multiset{}, 0, 0);
    Tree([Dir(Place(0, 1, true), (0, AUTH_UNKNOWN), THAWED, none, 0, 0, 0),
          Dir(Place(1, 3, auth), AUTH_DEFAULT, THAWED, none, 0, 0, 0)],
         [Inode(None, 0, true, multiset{}, multiset{}, 0, 0), Inode(Some(0), 2, auth, multiset{}, multiset{}, 0, 0)])
  }

  lemma SmallIsOk(auth: bool)
    ensures Unpinned(Small(auth)) && Ok(Small(auth), SETTLED) && NoneMissed(Small(auth))
  {
    var t := Small(auth);
    assert forall e :: 0 <= e < |t.dirs| ==> DirShape(t, e);
    assert forall i :: 0 <= i < |t.inodes| ==> InodeShape(t, i);
    UnpinnedIsOk(t);
  }

  // Two fragments placed as in the small cache.
  predicate Pair(t: Tree) {
    && Shape(t) && |t.dirs| == 2 && |t.inodes| == 2
    && t.dirs[0].at == Place(0, 1, true) && t.dirs[0].SubtreeRoot()
    && t.dirs[1].at == Place(1, 3, t.dirs[1].at.auth) && !t.dirs[1].SubtreeRoot()
    && t.inodes[0].parent == None && t.inodes[1].parent == Some(0) && t.inodes[1].depth == 2
  }

  lemma PairWalks(t: Tree)
    requires Pair(t)
    ensures Up(t, 0) == None && Up(t, 1) == Some(0)
    ensures IsFrozenTree(t, 0) == t.dirs[0].state.frozenTree && IsFreezingTree(t, 0) == t.dirs[0].state.freezingTree
    ensures InodeHolds(t, 1) == (t.dirs[0].state.frozenTree || t.dirs[0].state.frozenDir)
    ensures IsFrozen(t, 1) == (t.dirs[1].state.Frozen() || t.dirs[0].state.frozenTree)
    ensures IsFreezing(t, 1) == (t.dirs[1].state.Freezing() || t.dirs[0].state.freezingTree)
  {
  }

  // A change of the first fragment does not touch the second.
  lemma SideKeepsPair(t: Tree, u: Tree, held: Option<set<nat>>)
    requires Pair(t) && Shape(u) && |u.dirs| == 2 && u.dirs[0].at == t.dirs[0].at
    requires u.dirs[0].dirAuth == t.dirs[0].dirAuth
    requires Side(PutDir(t, 0, u.dirs[0]), u, 1, held)
    ensures Pair(u) && u.dirs[1] == t.dirs[1]
  {
  }

  // A change of the second leaves the state of the first when no freeze is pending there.
  lemma SideKeepsFirst(t: Tree, u: Tree, held: Option<set<nat>>)
    requires Pair(t) && Shape(u) && |u.dirs| == 2 && SamePlace(t.dirs[1], u.dirs[1])
    requires Side(PutDir(t, 1, u.dirs[1]), u, 3, held) && !t.dirs[0].state.Freezing()
    ensures Pair(u) && u.dirs[0].state == t.dirs[0].state && u.dirs[0].held == t.dirs[0].held
    ensures u.inodes[1].callers == t.inodes[1].callers
  {
    assert PutDir(t, 1, u.dirs[1]).dirs[0] == t.dirs[0];
  }

  method FreezeFirst(c: Cache)
    requires c.t == Small(true) && Ok(c.t, SETTLED)
    modifies c
    ensures Ok(c.t, SETTLED) && Pair(c.t) && c.t.dirs[1].state == THAWED && c.t.dirs[1].Cum() == 0
    ensures c.t.dirs[0].state == THAWED.(frozenDir := true)
  {
    ghost var t := c.t;
    PairWalks(t);
    var _ := c.FreezeDir(0);
    SideKeepsPair(t, c.t, Some(HeldSet(t)));
  }

  method FreezeSecond(c: Cache)
    requires Ok(c.t, SETTLED) && Pair(c.t) && c.t.dirs[1].state == THAWED && c.t.dirs[1].Cum() == 0
    requires c.t.dirs[0].state == THAWED.(frozenDir := true)
    modifies c
    ensures Ok(c.t, SETTLED) && Pair(c.t) && c.t.dirs[0].state == THAWED.(frozenDir := true)
    ensures c.t.dirs[1].state == THAWED.(freezingTree := true) && !TreeBlocked(c.t.dirs[1])
  {
    ghost var t := c.t;
    PairWalks(t);
    var _ := c.FreezeTree(1);
    SideKeepsFirst(t, c.t, Some(HeldSet(t)));
  }

  /** A freeze can be missed. From a cache in which nothing is pinned: the fragment above is
      frozen, the one below is asked to freeze and waits, and when the one above is thawed
      nothing is in its way any more and it still waits. */
  method StallWitness() returns (c: Cache, first: Tree)
    ensures fresh(c) && Unpinned(first) && NoneMissed(first) && Ok(c.t, SETTLED) && !NoneMissed(c.t)
    ensures |c.t.dirs| == 2 && c.t.dirs[1].state.freezingTree && Freezeable(c.t, 1)
  {
    c := new Cache(Small(true));
    first := c.t;
    SmallIsOk(true);
    FreezeFirst(c);
    FreezeSecond(c);
    ghost var t := c.t;
    c.Unfreeze(0);
    SideKeepsPair(t, c.t, Some(HeldSet(t)));
    PairWalks(c.t);
    assert !TreeBlocked(c.t.dirs[1]);
  }

  lemma PairSums(t: Tree)
    requires Pair(t)
    ensures SumCum(t.inodes, 1, 2) == 0 && SumCum(t.inodes, 0, 2) == t.inodes[1].Cum()
    ensures CountPinned(t.dirs, 1, 2) == t.dirs[1].Pinned()
  {
    assert SumCum(t.inodes, 1, 1) == SumCum(t.inodes, 0, 1) == CountPinned(t.dirs, 1, 1) == 0;
  }

  // A replica frozen on its own pins nothing above it.
  lemma ReplicaPinsNothing(t: Tree)
    requires Ok(t, SETTLED) && Pair(t) && !t.dirs[1].at.auth && t.dirs[0].held.Count() == 0
    requires t.dirs[1].held.Count() == 0 && t.inodes[1].callers == multiset{}
    ensures t.dirs[0].Cum() == 0
  {
    assert DirOk(t, SETTLED, 0) && DirOk(t, SETTLED, 1) && InodeOk(t, SETTLED, 1);
    forall f ensures f !in t.inodes[1].freezers {
      assert f in t.inodes[1].freezers ==> f == 1;
    }
    assert t.inodes[1].freezers == multiset{};
    PairSums(t);
  }

  method FreezeReplica(c: Cache)
    requires c.t == Small(false) && Ok(c.t, SETTLED)
    modifies c
    ensures Ok(c.t, SETTLED) && Pair(c.t) && !c.t.dirs[1].at.auth && c.t.dirs[1].state.frozenDir
    ensures c.t.dirs[0].state == THAWED && c.t.dirs[0].Cum() == 0
  {
    ghost var t := c.t;
    PairWalks(t);
    var _ := c.FreezeDir(1);
    SideKeepsFirst(t, c.t, Some(HeldSet(t)));
    ReplicaPinsNothing(c.t);
  }

  /** Only a replica can be frozen on its own inside a frozen tree, and it can: its freeze pins
      nothing above it, so the tree freezes at once. */
  method ReplicaWitness() returns (c: Cache, first: Tree)
    ensures fresh(c) && Unpinned(first) && Ok(c.t, SETTLED) && |c.t.dirs| == 2
    ensures c.t.dirs[0].state.frozenTree && InRegion(c.t, 0, 1)
    ensures !c.t.dirs[1].at.auth && c.t.dirs[1].state.frozenDir
  {
    c := new Cache(Small(false));
    first := c.t;
    SmallIsOk(false);
    FreezeReplica(c);
    ghost var t := c.t;
    PairWalks(t);
    var _ := c.FreezeTree(0);
    SideKeepsPair(t, c.t, Some(HeldSet(t)));
    PairWalks(c.t);
  }
}
