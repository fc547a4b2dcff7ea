/** Auth pins and freezing: the operations that move pins, and the freezes that
    finish from inside them. */
module Freezing {
  import opened Options
  import opened PinTree

  // Who takes or drops a pin on a fragment: an outside caller, the fragment itself
  // (for the duration of a freeze attempt), or its inode (waiting to be unfrozen).
  datatype DirHolder = Caller(id: nat) | Self | OwnInode

  // Who takes or drops a pin on an inode: an outside caller or a frozen fragment.
  datatype InodeHolder = User(id: nat) | Freezer(d: nat)

  function PutDir(t: Tree, d: nat, y: Dir): Tree
    requires d < |t.dirs|
  {
    t.(dirs := t.dirs[d := y])
  }

  function PutInode(t: Tree, i: nat, y: Inode): Tree
    requires i < |t.inodes|
  {
    t.(inodes := t.inodes[i := y])
  }

  // ---- the records after a pin is taken or dropped

  function PinnedBy(x: Inode, who: InodeHolder): Inode {
    match who
    case User(n) => x.(callers := x.callers + multiset{n}, authPins := x.authPins + 1)
    case Freezer(d) => x.(freezers := x.freezers + multiset{d}, authPins := x.authPins + 1)
  }

  function UnpinnedBy(x: Inode, who: InodeHolder): Inode {
    match who
    case User(n) => x.(callers := x.callers - multiset{n}, authPins := x.authPins - 1)
    case Freezer(d) => x.(freezers := x.freezers - multiset{d}, authPins := x.authPins - 1)
  }

  function DirPinnedBy(x: Dir, who: DirHolder): Dir {
    match who
    case Caller(n) => x.(held := x.held.(callers := x.held.callers + multiset{n}), authPins := x.authPins + 1)
    case Self => x.(held := x.held.(self := x.held.self + 1), authPins := x.authPins + 1)
    case OwnInode => x.(held := x.held.(retaken := x.held.retaken + 1), authPins := x.authPins + 1)
  }

  // Only a holder can drop a pin.
  predicate HeldBy(x: Dir, who: DirHolder) {
    match who
    case Caller(n) => n in x.held.callers
    case Self => x.held.self > 0
    case OwnInode => x.held.retaken > 0
  }

  function DirUnpinnedBy(x: Dir, who: DirHolder): Dir
    requires HeldBy(x, who)
  {
    match who
    case Caller(n) => x.(held := x.held.(callers := x.held.callers - multiset{n}), authPins := x.authPins - 1)
    case Self => x.(held := x.held.(self := x.held.self - 1), authPins := x.authPins - 1)
    case OwnInode => x.(held := x.held.(retaken := x.held.retaken - 1), authPins := x.authPins - 1)
  }

  // ---- what moving pins may do to the rest of the tree

  // A fragment waiting to freeze its tree has something whose removal will wake it.
  predicate TreeBlocked(x: Dir) {
    x.state.freezingTree ==> x.authPins >= 2 || x.nested >= 1
  }

  // Same place, same authority and the same pins below.
  predicate SamePlace(x: Dir, y: Dir) {
    y.at == x.at && y.dirAuth == x.dirAuth && y.nested == x.nested && y.dirPins == x.dirPins
  }

  // Only the counters of pins below may differ.
  predicate DirQuiet(x: Dir, y: Dir) {
    y == x.(nested := y.nested, dirPins := y.dirPins)
  }

  // A pending freeze completed: the fragment dropped its self pin and no other blocker was left.
  predicate Finished(x: Dir, y: Dir) {
    && x.state.Freezing()
    && y.at == x.at && y.dirAuth == x.dirAuth && y.held == x.held.(self := 0)
    && y.state == (if x.state.freezingTree then THAWED.(frozenTree := true) else THAWED.(frozenDir := true))
    && y.authPins == 0 && y.dirPins == 0 && (x.state.freezingTree ==> y.nested == 0)
  }

  // A tree freeze whose inode is frozen re-armed itself with a pin held by the inode.
  predicate Retook(x: Dir, y: Dir) {
    && x.state.freezingTree && !x.SubtreeRoot()
    && y.at == x.at && y.dirAuth == x.dirAuth && y.state == x.state
    && y.held == x.held.(retaken := x.held.retaken + 1)
    && y.authPins == 2 && y.nested == 0 && y.dirPins == 0
  }

  // What becomes of a freeze whose last blocker is gone: it completes, unless it is that of a tree
  // whose inode is frozen.
  predicate Woken(x: Dir, y: Dir, inodeHeld: bool) {
    if x.state.freezingTree && inodeHeld then Retook(x, y) else Finished(x, y)
  }

  // Side effect on fragment d. In a quiet operation (held is None) no freeze completes or
  // re-arms; otherwise held are the fragments whose inodes were frozen when it began.
  predicate DirSide(d: nat, x: Dir, y: Dir, held: Option<set<nat>>) {
    && (DirQuiet(x, y) || (held.Some? && Woken(x, y, d in held.value)))
    && (TreeBlocked(x) ==> TreeBlocked(y))
  }

  // Side effect on an inode: freeze pins come and go, pins below change.
  predicate InodeSide(x: Inode, y: Inode) {
    y == x.(nested := y.nested, freezers := y.freezers, authPins := y.authPins)
  }

  // The side effects stay above the given depth.
  predicate Side(t: Tree, u: Tree, depth: nat, held: Option<set<nat>>) {
    && |t.dirs| == |u.dirs| && |t.inodes| == |u.inodes|
    && (forall d :: 0 <= d < |t.dirs| ==>
          if t.dirs[d].at.depth < depth then DirSide(d, t.dirs[d], u.dirs[d], held) else u.dirs[d] == t.dirs[d])
    && (forall i :: 0 <= i < |t.inodes| ==>
          if t.inodes[i].depth < depth then InodeSide(t.inodes[i], u.inodes[i]) else u.inodes[i] == t.inodes[i])
  }

  lemma SideFromInode(t: Tree, i: nat, y: Inode, u: Tree, depth: nat, held: Option<set<nat>>)
    requires i < |t.inodes| && t.inodes[i].depth < depth && InodeSide(t.inodes[i], y)
    requires Side(PutInode(t, i, y), u, t.inodes[i].depth, held)
    ensures Side(t, u, depth, held)
  {
    var v := PutInode(t, i, y);
    forall d | 0 <= d < |t.dirs|
      ensures if t.dirs[d].at.depth < depth then DirSide(d, t.dirs[d], u.dirs[d], held) else u.dirs[d] == t.dirs[d]
    { assert v.dirs[d] == t.dirs[d]; }
    forall j | 0 <= j < |t.inodes|
      ensures if t.inodes[j].depth < depth then InodeSide(t.inodes[j], u.inodes[j]) else u.inodes[j] == t.inodes[j]
    { assert j != i ==> v.inodes[j] == t.inodes[j]; }
  }

  lemma SideFromDir(t: Tree, d: nat, y: Dir, u: Tree, depth: nat, held: Option<set<nat>>)
    requires d < |t.dirs| && t.dirs[d].at.depth < depth && DirSide(d, t.dirs[d], y, held)
    requires Side(PutDir(t, d, y), u, t.dirs[d].at.depth, held)
    ensures Side(t, u, depth, held)
  {
    var v := PutDir(t, d, y);
    forall e | 0 <= e < |t.dirs|
      ensures if t.dirs[e].at.depth < depth then DirSide(e, t.dirs[e], u.dirs[e], held) else u.dirs[e] == t.dirs[e]
    { assert e != d ==> v.dirs[e] == t.dirs[e]; }
    forall j | 0 <= j < |t.inodes|
      ensures if t.inodes[j].depth < depth then InodeSide(t.inodes[j], u.inodes[j]) else u.inodes[j] == t.inodes[j]
    { assert v.inodes[j] == t.inodes[j]; }
  }

  // A quiet operation followed by another one, both on fragment d.
  lemma SideChain(t: Tree, d: nat, y: Dir, u: Tree, z: Dir, v: Tree, held: Option<set<nat>>)
    requires d < |t.dirs| == |u.dirs| && y.at == z.at == t.dirs[d].at
    requires Side(PutDir(t, d, y), u, y.at.depth, None)
    requires Side(PutDir(u, d, z), v, y.at.depth, held)
    ensures Side(PutDir(t, d, z), v, y.at.depth, held)
  {
    var a, b, c := PutDir(t, d, y), PutDir(u, d, z), PutDir(t, d, z);
    forall e | 0 <= e < |t.dirs|
      ensures if c.dirs[e].at.depth < y.at.depth then DirSide(e, c.dirs[e], v.dirs[e], held) else v.dirs[e] == c.dirs[e]
    { assert e != d ==> a.dirs[e] == t.dirs[e] == c.dirs[e] && b.dirs[e] == u.dirs[e]; }
    forall j | 0 <= j < |t.inodes|
      ensures if c.inodes[j].depth < y.at.depth then InodeSide(c.inodes[j], v.inodes[j]) else v.inodes[j] == c.inodes[j]
    { assert a.inodes[j] == c.inodes[j] && b.inodes[j] == u.inodes[j]; }
  }

  lemma SideTrans(t: Tree, u: Tree, v: Tree, depth: nat, held: Option<set<nat>>)
    requires Side(t, u, depth, None) && Side(u, v, depth, held)
    ensures Side(t, v, depth, held)
  {
    forall e | 0 <= e < |t.dirs|
      ensures if t.dirs[e].at.depth < depth then DirSide(e, t.dirs[e], v.dirs[e], held) else v.dirs[e] == t.dirs[e]
    { assert DirSide(e, t.dirs[e], u.dirs[e], None); }
    forall j | 0 <= j < |t.inodes|
      ensures if t.inodes[j].depth < depth then InodeSide(t.inodes[j], v.inodes[j]) else v.inodes[j] == t.inodes[j]
    { assert InodeSide(t.inodes[j], u.inodes[j]); }
  }

  // Whether a fragment is inside a frozen (freezing) tree depends only on links and
  // flags no deeper than itself.
  predicate AgreeAbove(t: Tree, u: Tree, depth: nat) {
    && |t.dirs| == |u.dirs| && |t.inodes| == |u.inodes|
    && (forall d :: 0 <= d < |t.dirs| && t.dirs[d].at.depth <= depth ==>
          t.dirs[d].at == u.dirs[d].at && t.dirs[d].dirAuth == u.dirs[d].dirAuth && t.dirs[d].state == u.dirs[d].state)
    && (forall i :: 0 <= i < |t.inodes| ==> t.inodes[i].parent == u.inodes[i].parent)
  }

  lemma {:induction false} AgreeKeepsFrozen(t: Tree, u: Tree, d: nat)
    requires Shape(t) && Shape(u) && d < |t.dirs| && AgreeAbove(t, u, t.dirs[d].at.depth)
    ensures IsFrozenTree(t, d) == IsFrozenTree(u, d) && IsFreezingTree(t, d) == IsFreezingTree(u, d)
    ensures IsFrozen(t, d) == IsFrozen(u, d)
    decreases t.dirs[d].at.depth
  {
    if Up(t, d).Some? { AgreeKeepsFrozen(t, u, Up(t, d).value); }
  }

  lemma DirKeepsFrozen(t: Tree, d: nat, y: Dir, e: nat)
    requires Shape(t) && d < |t.dirs| && e < |t.dirs| && Shape(PutDir(t, d, y))
    requires y.at == t.dirs[d].at && (t.dirs[d].at.depth <= t.dirs[e].at.depth ==>
               y.dirAuth == t.dirs[d].dirAuth && y.state == t.dirs[d].state)
    ensures IsFrozenTree(PutDir(t, d, y), e) == IsFrozenTree(t, e)
    ensures IsFrozen(PutDir(t, d, y), e) == IsFrozen(t, e)
  {
    AgreeKeepsFrozen(t, PutDir(t, d, y), e);
  }

  lemma InodeKeepsFrozen(t: Tree, i: nat, y: Inode, e: nat)
    requires Shape(t) && i < |t.inodes| && e < |t.dirs| && Shape(PutInode(t, i, y))
    requires y.parent == t.inodes[i].parent
    ensures IsFrozenTree(PutInode(t, i, y), e) == IsFrozenTree(t, e)
  {
    AgreeKeepsFrozen(t, PutInode(t, i, y), e);
  }

  lemma QuietKeepsFrozen(t: Tree, d: nat, y: Dir, u: Tree, e: nat)
    requires Shape(t) && d < |t.dirs| && e < |t.dirs| && Shape(u) && t.dirs[e].at.depth < t.dirs[d].at.depth
    requires Side(PutDir(t, d, y), u, t.dirs[d].at.depth, None)
    ensures IsFrozen(u, e) == IsFrozen(t, e) && IsFrozenTree(u, e) == IsFrozenTree(t, e)
  {
    var v := PutDir(t, d, y);
    assert forall f :: 0 <= f < |t.dirs| && f != d ==> v.dirs[f] == t.dirs[f];
    assert forall i :: 0 <= i < |t.inodes| ==> v.inodes[i] == t.inodes[i];
    AgreeKeepsFrozen(t, u, e);
  }

  // ---- tests made by the code

  // The fragment's inode is frozen (and counts, because the fragment is not a subtree root).
  predicate InodeHolds(t: Tree, d: nat)
    requires Shape(t) && d < |t.dirs|
  {
    !t.dirs[d].SubtreeRoot() && InodeFrozen(t, InodeOf(t, d))
  }

  // The fragments whose inodes are frozen.
  function HeldSet(t: Tree): set<nat>
    requires Shape(t)
  {
    set d | 0 <= d < |t.dirs| && InodeHolds(t, d)
  }

  // In this state and down to this depth, held are the fragments whose inodes are frozen.
  predicate Knows(t: Tree, held: Option<set<nat>>, depth: nat)
    requires Shape(t)
  {
    held.Some? ==> forall d :: 0 <= d < |t.dirs| && t.dirs[d].at.depth <= depth ==>
      (d in held.value <==> InodeHolds(t, d))
  }

  // Nothing above this depth was linked or frozen otherwise.
  predicate SameAbove(t: Tree, u: Tree, depth: nat) {
    && |t.dirs| == |u.dirs| && |t.inodes| == |u.inodes|
    && (forall d :: 0 <= d < |t.dirs| ==> u.dirs[d].at == t.dirs[d].at)
    && (forall d :: 0 <= d < |t.dirs| && t.dirs[d].at.depth <= depth ==> u.dirs[d].dirAuth == t.dirs[d].dirAuth)
    && (forall d :: 0 <= d < |t.dirs| && t.dirs[d].at.depth < depth ==> u.dirs[d].state == t.dirs[d].state)
    && (forall i :: 0 <= i < |t.inodes| && t.inodes[i].depth < depth ==> u.inodes[i].parent == t.inodes[i].parent)
  }

  lemma {:induction false} SameFrozen(t: Tree, u: Tree, depth: nat, d: nat)
    requires Shape(t) && Shape(u) && SameAbove(t, u, depth) && d < |t.dirs| && t.dirs[d].at.depth < depth
    ensures IsFrozen(u, d) == IsFrozen(t, d) && IsFrozenTree(u, d) == IsFrozenTree(t, d)
    decreases t.dirs[d].at.depth
  {
    assert InodeOf(u, d) == InodeOf(t, d);
    if Up(t, d).Some? { SameFrozen(t, u, depth, Up(t, d).value); }
  }

  lemma SameKnows(t: Tree, u: Tree, held: Option<set<nat>>, depth: nat)
    requires Shape(t) && Shape(u) && SameAbove(t, u, depth) && Knows(t, held, depth)
    ensures Knows(u, held, depth)
  {
    forall d | 0 <= d < |t.dirs| && t.dirs[d].at.depth <= depth ensures InodeHolds(u, d) == InodeHolds(t, d) {
      var i := InodeOf(t, d);
      assert InodeOf(u, d) == i && ParentOf(u, i) == ParentOf(t, i);
      if ParentOf(t, i).Some? { SameFrozen(t, u, depth, ParentOf(t, i).value); }
    }
  }

  // A quiet operation on fragment d keeps what is known about it and those above.
  lemma QuietKnows(t: Tree, d: nat, y: Dir, u: Tree, held: set<nat>)
    requires Shape(t) && Shape(u) && d < |t.dirs| && y.at == t.dirs[d].at && y.dirAuth == t.dirs[d].dirAuth
    requires Side(PutDir(t, d, y), u, t.dirs[d].at.depth, None) && Knows(t, Some(held), t.dirs[d].at.depth)
    ensures Knows(u, Some(held), t.dirs[d].at.depth)
  {
    var v := PutDir(t, d, y);
    assert forall e :: 0 <= e < |t.dirs| && e != d ==> v.dirs[e] == t.dirs[e];
    assert forall i :: 0 <= i < |t.inodes| ==> v.inodes[i] == t.inodes[i];
    SameKnows(t, u, Some(held), t.dirs[d].at.depth);
  }

  // is_freezeable(true)
  predicate Freezeable(t: Tree, d: nat)
    requires Shape(t) && d < |t.dirs|
  {
    && !(t.dirs[d].authPins - 1 > 0 || t.dirs[d].nested > 0)
    && !InodeHolds(t, d)
  }

  // is_freezeable_dir(true)
  predicate FreezeableDir(t: Tree, d: nat)
    requires Shape(t) && d < |t.dirs|
  {
    && !(t.dirs[d].authPins - 1 > 0 || t.dirs[d].dirPins > 0)
    && !(InodeHolds(t, d) && !t.dirs[ParentOf(t, InodeOf(t, d)).value].state.frozenDir)
  }

  // The test at the head of maybe_finish_freeze lets a freeze complete (or re-arm).
  predicate WouldFinish(x: Dir) {
    && x.authPins == 1 && x.dirPins == 0
    && (x.state.freezingDir || (x.state.freezingTree && x.nested == 0))
  }

  // A subtree root may be merged into the region above unless that would put a pin
  // into a frozen tree.
  predicate MergeAllowed(t: Tree, d: nat, a: Authority)
    requires Shape(t) && d < |t.dirs|
  {
    var x := t.dirs[d];
    var up := ParentOf(t, InodeOf(t, d));
    var merged := x.SubtreeRoot() && a == AUTH_DEFAULT && (x.Cum() != 0 || (x.at.auth && x.state.Frozen()));
    merged && up.Some? ==> !IsFrozenTree(t, up.value)
  }

  // ---- one step of an operation, seen by the invariant

  // The gap a changed fragment record opens in its inode's nested count.
  function PinnedGap(x: Dir, y: Dir): Gap {
    if y.Pinned() == x.Pinned() then NoGap else InInode(x.at.inode, y.Pinned() - x.Pinned())
  }

  // The gap a changed inode record opens in the fragment it is linked in.
  function LinkedGap(x: Inode, y: Inode): Gap {
    if x.parent.Some? then InDir(x.parent.value, y.Cum() - x.Cum(), y.authPins - x.authPins) else NoGap
  }

  // The fragments an operation is in the middle of lie below this depth.
  predicate Deeper(t: Tree, p: Pending, depth: nat) {
    && (p.hot.Some? ==> p.hot.value < |t.dirs| && depth < t.dirs[p.hot.value].at.depth)
    && (p.loose.Some? ==> p.loose.value < |t.dirs| && depth < t.dirs[p.loose.value].at.depth)
  }

  lemma InodeStep(t: Tree, p: Pending, i: nat, y: Inode, loose: Option<nat>)
    requires Ok(t, p) && !p.gap.InDir? && i < |t.inodes|
    requires (p.gap.InInode? ==> p.gap.i == i) && y.nested == t.inodes[i].nested + p.InodeGap(i)
    requires InodeSide(t.inodes[i].(callers := y.callers), y) && y.authPins == |y.callers| + |y.freezers|
    requires if loose == p.loose then y.freezers == t.inodes[i].freezers
             else
               && loose == None && p.loose.value < |t.dirs| && t.dirs[p.loose.value].at.inode == i
               && y.freezers == t.inodes[i].freezers[p.loose.value := t.dirs[p.loose.value].FreezePin()]
    ensures Ok(PutInode(t, i, y), p.(gap := LinkedGap(t.inodes[i], y), loose := loose))
  {
    assert InodeOk(t, p, i) && ParentOf(t, i) == t.inodes[i].parent;
    CountDominates(t.dirs, i, |t.dirs|);
    FreezersStep(t, p, i, y, loose);
    ReplaceInode(t, p, i, y, p.(gap := LinkedGap(t.inodes[i], y), loose := loose));
  }

  lemma FreezersStep(t: Tree, p: Pending, i: nat, y: Inode, loose: Option<nat>)
    requires Ok(t, p) && i < |t.inodes|
    requires if loose == p.loose then y.freezers == t.inodes[i].freezers
             else
               && loose == None && p.loose.value < |t.dirs| && t.dirs[p.loose.value].at.inode == i
               && y.freezers == t.inodes[i].freezers[p.loose.value := t.dirs[p.loose.value].FreezePin()]
    ensures forall d :: 0 <= d < |t.dirs| && t.dirs[d].at.inode == i ==>
      y.freezers[d] == (if loose == Some(d) then 1 - t.dirs[d].FreezePin() else t.dirs[d].FreezePin())
  {
    forall d | 0 <= d < |t.dirs| && t.dirs[d].at.inode == i
      ensures y.freezers[d] == (if loose == Some(d) then 1 - t.dirs[d].FreezePin() else t.dirs[d].FreezePin())
    { assert DirOk(t, p, d); }
  }

  lemma NestStep(t: Tree, p: Pending, i: nat)
    requires Ok(t, p) && i < |t.inodes| && p.gap.InInode? && p.gap.i == i
    ensures var x := t.inodes[i];
            Ok(PutInode(t, i, x.(nested := x.nested + p.gap.inc)),
               p.(gap := if x.parent.Some? then InDir(x.parent.value, p.gap.inc, 0) else NoGap))
  {
    assert InodeOk(t, p, i);
    InodeStep(t, p, i, t.inodes[i].(nested := t.inodes[i].nested + p.gap.inc), p.loose);
  }

  lemma PinStep(t: Tree, p: Pending, i: nat, who: InodeHolder)
    requires Ok(t, p) && i < |t.inodes| && p.gap == NoGap
    requires who.User? ==> p.loose == None
    requires who.Freezer? ==> p.loose == Some(who.d) && who.d < |t.dirs|
    requires who.Freezer? ==> t.dirs[who.d].at.inode == i && t.dirs[who.d].FreezePin() == 1
    ensures var x := t.inodes[i];
            Ok(PutInode(t, i, PinnedBy(x, who)),
               p.(loose := None, gap := if x.parent.Some? then InDir(x.parent.value, 1, 1) else NoGap))
  {
    assert InodeOk(t, p, i);
    var x := t.inodes[i];
    if who.Freezer? {
      assert DirOk(t, p, who.d);
      assert x.freezers + multiset{who.d} == x.freezers[who.d := 1];
    }
    InodeStep(t, p, i, PinnedBy(x, who), None);
  }

  lemma UnpinStep(t: Tree, p: Pending, i: nat, who: InodeHolder)
    requires Ok(t, p) && i < |t.inodes| && p.gap == NoGap
    requires who.User? ==> p.loose == None && who.id in t.inodes[i].callers
    requires who.Freezer? ==> p.loose == Some(who.d) && who.d < |t.dirs|
    requires who.Freezer? ==> t.dirs[who.d].at.inode == i && t.dirs[who.d].FreezePin() == 0
    ensures var x := t.inodes[i];
            Ok(PutInode(t, i, UnpinnedBy(x, who)),
               p.(loose := None, gap := if x.parent.Some? then InDir(x.parent.value, -1, -1) else NoGap))
  {
    assert InodeOk(t, p, i);
    var x := t.inodes[i];
    if who.Freezer? {
      assert DirOk(t, p, who.d);
      assert x.freezers - multiset{who.d} == x.freezers[who.d := 0];
    }
    InodeStep(t, p, i, UnpinnedBy(x, who), None);
  }

  lemma DirPinStep(t: Tree, p: Pending, d: nat, y: Dir, q: Pending)
    requires Ok(t, p) && d < |t.dirs| && p.gap == NoGap && p.loose == None
    requires y == t.dirs[d].(held := y.held, authPins := y.authPins)
    requires DirLocal(y, q.Hot(d), q.unchecked != Some(d))
    requires q == Pending(PinnedGap(t.dirs[d], y), q.hot, None, q.unchecked)
    requires p.hot == None || p.hot == Some(d)
    requires q.hot == None || q.hot == Some(d)
    requires p.unchecked == None || p.unchecked == Some(d)
    requires q.unchecked == None || q.unchecked == Some(d)
    ensures Ok(PutDir(t, d, y), q)
  {
    assert DirOk(t, p, d);
    ReplaceDir(t, p, d, y, q);
  }

  lemma DirUnpinStep(t: Tree, d: nat, who: DirHolder, held: set<nat>)
    requires d < |t.dirs| && Ok(t, if who.Self? then SETTLED.(hot := Some(d)) else SETTLED)
    requires HeldBy(t.dirs[d], who) && Knows(t, Some(held), t.dirs[d].at.depth)
    ensures var x, y := t.dirs[d], DirUnpinnedBy(t.dirs[d], who);
      && Ok(PutDir(t, d, y), SETTLED.(unchecked := Some(d), gap := PinnedGap(x, y)))
      && Knows(PutDir(t, d, y), Some(held), y.at.depth) && y.authPins >= 0 && y.nested >= 0
      && PinnedGap(x, y) == (if !x.SubtreeRoot() && y.Cum() == 0 then InInode(x.at.inode, -1) else NoGap)
  {
    var p := if who.Self? then SETTLED.(hot := Some(d)) else SETTLED;
    var x, y := t.dirs[d], DirUnpinnedBy(t.dirs[d], who);
    PinsNonNegative(t, p);
    assert DirOk(t, p, d);
    DirPinStep(t, p, d, y, SETTLED.(unchecked := Some(d), gap := PinnedGap(x, y)));
    SameKnows(t, PutDir(t, d, y), Some(held), x.at.depth);
  }

  // Correcting a fragment's counters may pass a gap on to its inode; it never wakes a
  // freeze when it does, or when pins were added.
  lemma CounterStep(t: Tree, p: Pending, d: nat, y: Dir)
    requires Ok(t, p) && d < |t.dirs| && p.gap.InDir? && p.gap.d == d && p.gap.inc != 0
    requires p.unchecked == None && Deeper(t, p, t.dirs[d].at.depth)
    requires y == t.dirs[d].(nested := t.dirs[d].nested + p.gap.inc, dirPins := t.dirs[d].dirPins + p.gap.dirInc)
    requires p.gap.inc > 0 ==> p.gap.dirInc >= 0 && !t.dirs[d].state.frozenTree
    ensures Ok(PutDir(t, d, y), p.(gap := PinnedGap(t.dirs[d], y), unchecked := Some(d)))
    ensures y.authPins >= 0 && 0 <= y.dirPins <= y.nested && (y.Cum() == 0 ==> p.gap.inc < 0)
    ensures p.gap.inc > 0 || PinnedGap(t.dirs[d], y) != NoGap ==> !WouldFinish(y)
    ensures !y.SubtreeRoot() && y.Cum() == 0 ==> PinnedGap(t.dirs[d], y) == InInode(y.at.inode, -1)
    ensures !y.SubtreeRoot() && y.Cum() == p.gap.inc ==>
      PinnedGap(t.dirs[d], y) == InInode(y.at.inode, 1) && p.gap.inc > 0
    ensures y.SubtreeRoot() || (y.Cum() != 0 && y.Cum() != p.gap.inc) ==> PinnedGap(t.dirs[d], y) == NoGap
  {
    CountersBounded(t, p, d);
    PinsNonNegative(t, p);
    assert DirOk(t, p, d);
    ReplaceDir(t, p, d, y, p.(gap := PinnedGap(t.dirs[d], y), unchecked := Some(d)));
  }

  // What a change of authority leaves to be corrected.
  function AuthPending(x: Dir, y: Dir, d: nat): Pending {
    Pending(PinnedGap(x, y), None, if x.FreezePin() != y.FreezePin() then Some(d) else None, None)
  }

  lemma AuthStep(t: Tree, d: nat, a: Authority)
    requires Ok(t, SETTLED) && d < |t.dirs|
    requires a == AUTH_DEFAULT ==> t.dirs[d].at.auth == t.inodes[InodeOf(t, d)].auth
    ensures var y := t.dirs[d].(dirAuth := a); Ok(PutDir(t, d, y), AuthPending(t.dirs[d], y, d))
  {
    assert DirOk(t, SETTLED, d);
    var y := t.dirs[d].(dirAuth := a);
    ReplaceDir(t, SETTLED, d, y, AuthPending(t.dirs[d], y, d));
  }

  // A pending directory freeze that cannot finish yet still has a blocker.
  lemma Recheck(t: Tree, p: Pending, d: nat)
    requires Ok(t, p) && d < |t.dirs| && p.unchecked == Some(d)
    requires t.dirs[d].state.freezingDir ==> t.dirs[d].authPins != 1 || t.dirs[d].dirPins != 0
    ensures Ok(t, p.(unchecked := None))
  {
    forall e | 0 <= e < |t.dirs| ensures DirOk(t, p.(unchecked := None), e) { assert DirOk(t, p, e); }
    forall i | 0 <= i < |t.inodes| ensures InodeOk(t, p.(unchecked := None), i) { assert InodeOk(t, p, i); }
  }

  // While a fragment's freeze pin sits on its inode, the fragment above has a pin of a child.
  lemma FreezePinBlocks(t: Tree, p: Pending, d: nat)
    requires Ok(t, p) && !p.gap.InDir? && d < |t.dirs|
    ensures t.inodes[InodeOf(t, d)].freezers[d] > 0 && ParentOf(t, InodeOf(t, d)).Some? ==>
      t.dirs[ParentOf(t, InodeOf(t, d)).value].dirPins >= 1
  {
    var i := InodeOf(t, d);
    if t.inodes[i].freezers[d] > 0 && ParentOf(t, i).Some? {
      var u := ParentOf(t, i).value;
      PinsNonNegative(t, p);
      SumsDominate(t.inodes, u, |t.inodes|);
      assert InodeOk(t, p, i);
      assert DirOk(t, p, u);
      assert t.inodes[i].freezers == (t.inodes[i].freezers - multiset{d}) + multiset{d};
    }
  }

  // Linking or unlinking an inode leaves a gap of its pins in the fragment.
  lemma LinkStep(t: Tree, i: nat, y: Inode, g: Gap)
    requires Ok(t, SETTLED) && i < |t.inodes|
    requires y == t.inodes[i].(parent := y.parent)
    requires y.parent.Some? ==> y.parent.value < |t.dirs| && t.dirs[y.parent.value].at.depth < y.depth
    requires y.parent == None || t.inodes[i].parent == None
    requires g == if y.Cum() == 0 then NoGap
                  else if y.parent.Some? then InDir(y.parent.value, y.Cum(), y.authPins)
                  else if ParentOf(t, i).Some? then InDir(ParentOf(t, i).value, -y.Cum(), -y.authPins)
                  else NoGap
    ensures Ok(PutInode(t, i, y), SETTLED.(gap := g))
  {
    PinsNonNegative(t, SETTLED);
    assert InodeOk(t, SETTLED, i);
    forall d | 0 <= d < |t.dirs| && t.dirs[d].at.inode == i ensures y.freezers[d] == t.dirs[d].FreezePin() {
      assert DirOk(t, SETTLED, d);
    }
    ReplaceInode(t, SETTLED, i, y, SETTLED.(gap := g));
  }

  // Relinking an inode does not change what is above a fragment that is not below it.
  lemma {:induction false} RelinkKeepsFrozen(t: Tree, i: nat, y: Inode, d: nat)
    requires Shape(t) && d < |t.dirs| && i < |t.inodes| && Shape(PutInode(t, i, y))
    requires t.dirs[d].at.depth < t.inodes[i].depth
    ensures IsFrozenTree(t, d) == IsFrozenTree(PutInode(t, i, y), d)
    decreases t.dirs[d].at.depth
  {
    assert InodeOf(t, d) != i;
    if Up(t, d).Some? { RelinkKeepsFrozen(t, i, y, Up(t, d).value); }
  }

  // ---- making room for a link

  // The inode is i, or lies in a directory below it.
  predicate InodeBelow(t: Tree, j: nat, i: nat)
    requires Shape(t) && j < |t.inodes|
    decreases t.inodes[j].depth
  {
    j == i || (ParentOf(t, j).Some? && DirBelow(t, ParentOf(t, j).value, i))
  }

  predicate DirBelow(t: Tree, d: nat, i: nat)
    requires Shape(t) && d < |t.dirs|
    decreases t.dirs[d].at.depth
  {
    InodeBelow(t, InodeOf(t, d), i)
  }

  function Lowered(t: Tree, i: nat, k: nat, d: nat): Dir
    requires Shape(t) && d < |t.dirs|
  {
    var x := t.dirs[d];
    if DirBelow(t, d, i) then x.(at := x.at.(depth := x.at.depth + k)) else x
  }

  function LoweredInode(t: Tree, i: nat, k: nat, j: nat): Inode
    requires Shape(t) && j < |t.inodes|
  {
    var x := t.inodes[j];
    if InodeBelow(t, j, i) then x.(depth := x.depth + k) else x
  }

  /** The same cache, with everything at and below inode i counted k levels deeper. */
  function Deepened(t: Tree, i: nat, k: nat): (u: Tree)
    requires Shape(t)
    ensures |u.dirs| == |t.dirs| && |u.inodes| == |t.inodes|
    ensures forall d :: 0 <= d < |t.dirs| ==> u.dirs[d] == Lowered(t, i, k, d)
    ensures forall j :: 0 <= j < |t.inodes| ==> u.inodes[j] == LoweredInode(t, i, k, j)
  {
    Tree(seq(|t.dirs|, d requires 0 <= d < |t.dirs| => Lowered(t, i, k, d)),
         seq(|t.inodes|, j requires 0 <= j < |t.inodes| => LoweredInode(t, i, k, j)))
  }

  // From t to u the inode was linked into the fragment; the rest changed only by side effects
  // above it.
  predicate Linked(t: Tree, i: nat, d: nat, u: Tree) {
    && Shape(t) && d < |t.dirs| && i < |t.inodes|
    && var v := Deepened(t, i, t.dirs[d].at.depth + 1);
      Side(PutInode(v, i, v.inodes[i].(parent := Some(d))), u, v.inodes[i].depth, None)
  }

  lemma DeepenedShape(t: Tree, i: nat, k: nat)
    requires Shape(t) && i < |t.inodes| && t.inodes[i].parent == None
    ensures Shape(Deepened(t, i, k))
  {
    var u := Deepened(t, i, k);
    forall d | 0 <= d < |u.dirs| ensures DirShape(u, d) {
      assert u.dirs[d] == Lowered(t, i, k, d) && u.inodes[InodeOf(t, d)] == LoweredInode(t, i, k, InodeOf(t, d));
    }
    forall j | 0 <= j < |u.inodes| ensures InodeShape(u, j) {
      assert u.inodes[j] == LoweredInode(t, i, k, j);
      if ParentOf(t, j).Some? { assert u.dirs[ParentOf(t, j).value] == Lowered(t, i, k, ParentOf(t, j).value); }
    }
  }

  lemma {:induction false} SumsOfSame(s: seq<Inode>, r: seq<Inode>, d: nat, n: nat)
    requires |s| == |r| && n <= |s| && forall j :: 0 <= j < |s| ==> r[j] == s[j].(depth := r[j].depth)
    ensures SumCum(r, d, n) == SumCum(s, d, n) && SumOwn(r, d, n) == SumOwn(s, d, n)
  {
    if n > 0 { SumsOfSame(s, r, d, n - 1); }
  }

  lemma {:induction false} CountOfSame(s: seq<Dir>, r: seq<Dir>, i: nat, n: nat)
    requires |s| == |r| && n <= |s|
    requires forall d :: 0 <= d < |s| ==> r[d] == s[d].(at := s[d].at.(depth := r[d].at.depth))
    ensures CountPinned(r, i, n) == CountPinned(s, i, n)
  {
    if n > 0 { CountOfSame(s, r, i, n - 1); }
  }

  lemma DeepenedOk(t: Tree, i: nat, k: nat)
    requires Ok(t, SETTLED) && i < |t.inodes| && t.inodes[i].parent == None
    ensures Ok(Deepened(t, i, k), SETTLED)
  {
    var u := Deepened(t, i, k);
    DeepenedShape(t, i, k);
    forall d | 0 <= d < |u.dirs| ensures DirOk(u, SETTLED, d) {
      assert DirOk(t, SETTLED, d) && InodeOf(u, d) == InodeOf(t, d);
      SumsOfSame(t.inodes, u.inodes, d, |t.inodes|);
    }
    forall j | 0 <= j < |u.inodes| ensures InodeOk(u, SETTLED, j) {
      assert InodeOk(t, SETTLED, j);
      CountOfSame(t.dirs, u.dirs, j, |t.dirs|);
    }
  }

  lemma {:induction false} DeepenedFrozen(t: Tree, i: nat, k: nat, d: nat)
    requires Shape(t) && Shape(Deepened(t, i, k)) && d < |t.dirs|
    ensures IsFrozenTree(Deepened(t, i, k), d) == IsFrozenTree(t, d)
    decreases t.dirs[d].at.depth
  {
    var u := Deepened(t, i, k);
    assert u.dirs[d] == Lowered(t, i, k, d) && InodeOf(u, d) == InodeOf(t, d);
    assert u.inodes[InodeOf(t, d)] == LoweredInode(t, i, k, InodeOf(t, d));
    assert Up(u, d) == Up(t, d);
    if Up(t, d).Some? { DeepenedFrozen(t, i, k, Up(t, d).value); }
  }

  class Cache {
    var t: Tree

    constructor (t: Tree)
      ensures this.t == t
    {
      this.t := t;
    }

    // CDir::adjust_nested_auth_pins
    method AdjustDir(d: nat, inc: int, dirInc: int, ghost p: Pending, ghost held: Option<set<nat>>)
      requires Ok(t, p) && d < |t.dirs| && inc != 0
      requires p.gap == InDir(d, inc, dirInc) && p.unchecked == None && Deeper(t, p, t.dirs[d].at.depth)
      requires inc > 0 ==> dirInc >= 0 && !IsFrozenTree(t, d)
      requires inc < 0 ==> p.hot == None && (p.loose.Some? ==> t.dirs[d].dirPins + dirInc >= 1)
      requires (held == None ==> inc > 0 || p.loose.Some?) && Knows(t, held, t.dirs[d].at.depth)
      modifies this
      ensures Ok(t, p.(gap := NoGap)) && |t.dirs| == |old(t).dirs|
      ensures Side(PutDir(old(t), d, t.dirs[d]), t, old(t).dirs[d].at.depth, held)
      ensures DirSide(d, old(t).dirs[d], t.dirs[d], held)
      ensures t.dirs[d].nested == old(t).dirs[d].nested + inc
      ensures t.dirs[d].dirPins == old(t).dirs[d].dirPins + dirInc
      decreases t.dirs[d].at.depth, 2 * t.dirs[d].authPins + 2
    {
      ghost var t0 := t;
      var i := InodeOf(t, d);
      var x := t.dirs[d];
      var y := x.(nested := x.nested + inc, dirPins := x.dirPins + dirInc);
      var newcum := y.Cum();
      ghost var q := p.(gap := PinnedGap(x, y), unchecked := Some(d));
      CounterStep(t, p, d, y);
      t := PutDir(t, d, y);
      ghost var t1 := t;
      if inc > 0 { DirKeepsFrozen(t0, d, y, d); }
      SameKnows(t0, t1, held, x.at.depth);
      MaybeFinishFreeze(d, q, held);
      assert t1.dirs[d := t.dirs[d]] == t0.dirs[d := t.dirs[d]];
      PassUp(d, i, if x.SubtreeRoot() then 0 else if newcum == 0 then -1 else if newcum == inc then 1 else 0,
             q.(unchecked := None), held);
    }

    // Tell the inode of a fragment that has got its first pin or lost its last.
    method PassUp(ghost d: nat, i: nat, a: int, ghost p: Pending, ghost held: Option<set<nat>>)
      requires Ok(t, p) && d < |t.dirs| && i == InodeOf(t, d) && p.unchecked == None && -1 <= a <= 1
      requires p.gap == (if a == 0 then NoGap else InInode(i, a)) && Deeper(t, p, t.inodes[i].depth)
      requires a > 0 && ParentOf(t, i).Some? ==> !IsFrozenTree(t, ParentOf(t, i).value)
      requires a < 0 ==> p.hot == None
      requires a < 0 && p.loose.Some? && ParentOf(t, i).Some? ==> t.dirs[ParentOf(t, i).value].dirPins >= 1
      requires a != 0 ==> (held == None ==> a > 0 || p.loose.Some?) && Knows(t, held, t.dirs[d].at.depth)
      modifies this
      ensures Ok(t, p.(gap := NoGap)) && |t.dirs| == |old(t).dirs| && t.dirs[d] == old(t).dirs[d]
      ensures if a == 0 then t == old(t) else Side(old(t), t, old(t).dirs[d].at.depth, held)
      decreases t.dirs[d].at.depth, 0
    {
      ghost var t0 := t;
      if a != 0 {
        AdjustInode(i, a, p, held);
        SideFromInode(t0, i, t.inodes[i], t, t0.dirs[d].at.depth, held);
      }
    }

    // CInode::adjust_nested_auth_pins, passed on to the fragment the inode is linked in
    method AdjustInode(i: nat, a: int, ghost p: Pending, ghost held: Option<set<nat>>)
      requires Ok(t, p) && i < |t.inodes| && a != 0
      requires p.gap == InInode(i, a) && p.unchecked == None && Deeper(t, p, t.inodes[i].depth)
      requires a > 0 && ParentOf(t, i).Some? ==> !IsFrozenTree(t, ParentOf(t, i).value)
      requires a < 0 ==> p.hot == None
      requires a < 0 && p.loose.Some? && ParentOf(t, i).Some? ==> t.dirs[ParentOf(t, i).value].dirPins >= 1
      requires (held == None ==> a > 0 || p.loose.Some?) && Knows(t, held, t.inodes[i].depth)
      modifies this
      ensures Ok(t, p.(gap := NoGap)) && |t.inodes| == |old(t).inodes|
      ensures t.inodes[i] == old(t).inodes[i].(nested := old(t).inodes[i].nested + a)
      ensures Side(PutInode(old(t), i, t.inodes[i]), t, old(t).inodes[i].depth, held)
      decreases t.inodes[i].depth, 0
    {
      ghost var t0 := t;
      var up := ParentOf(t, i);
      var x := t.inodes[i];
      var y := x.(nested := x.nested + a);
      NestStep(t, p, i);
      t := PutInode(t, i, y);
      ghost var t1 := t;
      if up.Some? {
        InodeKeepsFrozen(t0, i, y, up.value);
        SameKnows(t0, t1, held, x.depth);
        AdjustDir(up.value, a, 0, p.(gap := InDir(up.value, a, 0)), held);
        SideFromDir(t1, up.value, t.dirs[up.value], t, x.depth, held);
      }
    }

    // CInode::auth_pin
    method PinInode(i: nat, who: InodeHolder, ghost p: Pending)
      requires Ok(t, p) && i < |t.inodes|
      requires p.gap == NoGap && p.unchecked == None && Deeper(t, p, t.inodes[i].depth)
      requires who.User? ==> p.loose == None && p.hot == None
      requires who.Freezer? ==> p.loose == Some(who.d) && who.d < |t.dirs|
      requires who.Freezer? ==> t.dirs[who.d].at.inode == i && t.dirs[who.d].FreezePin() == 1
      requires ParentOf(t, i).Some? ==> !IsFrozenTree(t, ParentOf(t, i).value)
      modifies this
      ensures Ok(t, p.(loose := None)) && |t.inodes| == |old(t).inodes|
      ensures t.inodes[i] == PinnedBy(old(t).inodes[i], who)
      ensures Side(PutInode(old(t), i, t.inodes[i]), t, old(t).inodes[i].depth, None)
      decreases t.inodes[i].depth, 0
    {
      ghost var t0 := t;
      var up := ParentOf(t, i);
      var x := t.inodes[i];
      var y := PinnedBy(x, who);
      PinStep(t, p, i, who);
      t := PutInode(t, i, y);
      ghost var t1 := t;
      if up.Some? {
        InodeKeepsFrozen(t0, i, y, up.value);
        AdjustDir(up.value, 1, 1, p.(loose := None, gap := InDir(up.value, 1, 1)), None);
        SideFromDir(t1, up.value, t.dirs[up.value], t, x.depth, None);
      }
    }

    // CInode::auth_unpin
    method UnpinInode(i: nat, who: InodeHolder, ghost p: Pending, ghost held: set<nat>)
      requires Ok(t, p) && i < |t.inodes| && p.hot == None && p.gap == NoGap && p.unchecked == None
      requires who.User? ==> p.loose == None && who.id in t.inodes[i].callers
      requires who.Freezer? ==> p.loose == Some(who.d) && who.d < |t.dirs|
      requires who.Freezer? ==> t.dirs[who.d].at.inode == i && t.dirs[who.d].FreezePin() == 0
      requires Knows(t, Some(held), t.inodes[i].depth)
      modifies this
      ensures Ok(t, SETTLED) && |t.inodes| == |old(t).inodes|
      ensures t.inodes[i] == UnpinnedBy(old(t).inodes[i], who)
      ensures Side(PutInode(old(t), i, t.inodes[i]), t, old(t).inodes[i].depth, Some(held))
      decreases t.inodes[i].depth, 0
    {
      ghost var t0 := t;
      var up := ParentOf(t, i);
      var x := t.inodes[i];
      var y := UnpinnedBy(x, who);
      UnpinStep(t, p, i, who);
      t := PutInode(t, i, y);
      ghost var t1 := t;
      if up.Some? {
        SameKnows(t0, t1, Some(held), x.depth);
        AdjustDir(up.value, -1, -1, SETTLED.(gap := InDir(up.value, -1, -1)), Some(held));
        SideFromDir(t1, up.value, t.dirs[up.value], t, x.depth, Some(held));
      }
    }

    // CDir::auth_pin
    method PinDir(d: nat, who: DirHolder, ghost p: Pending)
      requires Ok(t, p) && d < |t.dirs|
      requires p == SETTLED || (p == SETTLED.(unchecked := Some(d)) && who.OwnInode?)
      requires who.Self? ==> t.dirs[d].state == THAWED
      requires who.OwnInode? ==> t.dirs[d].state.freezingTree
      requires !IsFrozenTree(t, d)
      modifies this
      ensures Ok(t, if who.Self? then SETTLED.(hot := Some(d)) else SETTLED) && |t.dirs| == |old(t).dirs|
      ensures t.dirs[d] == DirPinnedBy(old(t).dirs[d], who)
      ensures Side(PutDir(old(t), d, t.dirs[d]), t, old(t).dirs[d].at.depth, None)
      decreases t.dirs[d].at.depth, 0
    {
      ghost var t0 := t;
      var i := InodeOf(t, d);
      var x := t.dirs[d];
      var y := DirPinnedBy(x, who);
      ghost var q := SETTLED.(hot := if who.Self? then Some(d) else None, gap := PinnedGap(x, y));
      PinsNonNegative(t, p);
      assert DirOk(t, p, d);
      DirPinStep(t, p, d, y, q);
      t := PutDir(t, d, y);
      ghost var t1 := t;
      if !y.SubtreeRoot() && y.Cum() == 1 {
        DirKeepsFrozen(t0, d, y, d);
        AdjustInode(i, 1, q, None);
        SideFromInode(t1, i, t.inodes[i], t, x.at.depth, None);
      }
    }

    // CDir::auth_unpin
    method UnpinDir(d: nat, who: DirHolder, ghost held: set<nat>)
      requires d < |t.dirs| && Ok(t, if who.Self? then SETTLED.(hot := Some(d)) else SETTLED)
      requires HeldBy(t.dirs[d], who)
      requires Knows(t, Some(held), t.dirs[d].at.depth)
      modifies this
      ensures Ok(t, SETTLED) && |t.dirs| == |old(t).dirs|
      ensures DirSide(d, DirUnpinnedBy(old(t).dirs[d], who), t.dirs[d], Some(held))
      ensures TreeBlocked(t.dirs[d])
      ensures t.dirs[d].nested == old(t).dirs[d].nested && t.dirs[d].dirPins == old(t).dirs[d].dirPins
      ensures Side(PutDir(old(t), d, t.dirs[d]), t, old(t).dirs[d].at.depth, Some(held))
      decreases t.dirs[d].at.depth, 2 * t.dirs[d].authPins
    {
      ghost var t0 := t;
      var i := InodeOf(t, d);
      var x := t.dirs[d];
      var y := DirUnpinnedBy(x, who);
      ghost var q := SETTLED.(unchecked := Some(d), gap := PinnedGap(x, y));
      DirUnpinStep(t, d, who, held);
      t := PutDir(t, d, y);
      ghost var t1 := t;
      var newcum := y.Cum();
      MaybeFinishFreeze(d, q, Some(held));
      assert t1.dirs[d := t.dirs[d]] == t0.dirs[d := t.dirs[d]];
      PassUp(d, i, if !x.SubtreeRoot() && newcum == 0 then -1 else 0, q.(unchecked := None), Some(held));
    }

    // CDir::maybe_finish_freeze
    method MaybeFinishFreeze(d: nat, ghost p: Pending, ghost held: Option<set<nat>>)
      requires Ok(t, p) && d < |t.dirs|
      requires p.unchecked == Some(d) && !p.gap.InDir? && p.hot != Some(d) && p.loose != Some(d)
      requires p.gap != NoGap || p.hot.Some? || p.loose.Some? ==> !WouldFinish(t.dirs[d])
      requires (held == None ==> !WouldFinish(t.dirs[d])) && Knows(t, held, t.dirs[d].at.depth)
      modifies this
      ensures Ok(t, p.(unchecked := None)) && |t.dirs| == |old(t).dirs|
      ensures if WouldFinish(old(t).dirs[d]) then Woken(old(t).dirs[d], t.dirs[d], InodeHolds(old(t), d))
              else t == old(t)
      ensures DirSide(d, old(t).dirs[d], t.dirs[d], held) && TreeBlocked(t.dirs[d])
      ensures t.dirs[d].nested == old(t).dirs[d].nested && t.dirs[d].dirPins == old(t).dirs[d].dirPins
      ensures Side(PutDir(old(t), d, t.dirs[d]), t, old(t).dirs[d].at.depth, held)
      decreases t.dirs[d].at.depth, 2 * t.dirs[d].authPins + 1
    {
      ghost var t0 := t;
      assert DirOk(t, p, d);
      CountersBounded(t, p, d);
      if t.dirs[d].authPins != 1 || t.dirs[d].dirPins != 0 {
        Recheck(t, p, d);
        return;
      }
      // a directory can be frozen even with nested pins...
      if t.dirs[d].state.freezingDir {
        CompleteFreeze(d, held.value);
      }
      if t.dirs[d].nested != 0 {
        if !t0.dirs[d].state.freezingDir { Recheck(t, p, d); }
        return;
      }
      if t.dirs[d].state.freezingTree {
        PinnedNotFrozenAbove(t, p, d);
        if !t.dirs[d].SubtreeRoot() && InodeFrozen(t, InodeOf(t, d)) {
          PinDir(d, OwnInode, SETTLED.(unchecked := Some(d)));
          return;
        }
        CompleteFreeze(d, held.value);
      } else if !t0.dirs[d].state.freezingDir {
        Recheck(t, p, d);
      }
    }

    // The two tails of maybe_finish_freeze: freeze, then drop the self pin.
    method CompleteFreeze(d: nat, ghost held: set<nat>)
      requires d < |t.dirs| && Ok(t, SETTLED.(unchecked := Some(d)))
      requires WouldFinish(t.dirs[d])
      requires t.dirs[d].state.freezingTree ==> Freezeable(t, d)
      requires Knows(t, Some(held), t.dirs[d].at.depth)
      modifies this
      ensures Ok(t, SETTLED) && |t.dirs| == |old(t).dirs|
      ensures Finished(old(t).dirs[d], t.dirs[d])
      ensures t.dirs[d].nested == old(t).dirs[d].nested
      ensures Side(PutDir(old(t), d, t.dirs[d]), t, old(t).dirs[d].at.depth, Some(held))
      decreases t.dirs[d].at.depth, 3, 0
    {
      ghost var t0 := t;
      assert DirOk(t, SETTLED.(unchecked := Some(d)), d);
      if t.dirs[d].state.freezingTree {
        FreezeTreeNow(d, SETTLED.(unchecked := Some(d)));
      } else {
        FreezeDirNow(d, SETTLED.(unchecked := Some(d)));
      }
      ghost var t1 := t;
      QuietKnows(t0, d, t1.dirs[d], t1, held);
      UnpinDir(d, Self, held);
      SideChain(t0, d, t1.dirs[d], t1, t.dirs[d], t, Some(held));
    }

    // CDir::_freeze_tree
    method FreezeTreeNow(d: nat, ghost p: Pending)
      requires Ok(t, p) && d < |t.dirs|
      requires if t.dirs[d].state.freezingTree then p == SETTLED.(unchecked := Some(d))
               else t.dirs[d].state == THAWED && p == SETTLED.(hot := Some(d))
      requires Freezeable(t, d)
      modifies this
      ensures Ok(t, SETTLED.(hot := Some(d))) && |t.dirs| == |old(t).dirs|
      ensures t.dirs[d] == old(t).dirs[d].(state := THAWED.(frozenTree := true))
      ensures Side(PutDir(old(t), d, t.dirs[d]), t, old(t).dirs[d].at.depth, None)
      decreases t.dirs[d].at.depth, 1
    {
      assert DirOk(t, p, d);
      SetFrozen(d, THAWED.(frozenTree := true), p);
    }

    // CDir::_freeze_dir
    method FreezeDirNow(d: nat, ghost p: Pending)
      requires Ok(t, p) && d < |t.dirs|
      requires if t.dirs[d].state.freezingDir then p == SETTLED.(unchecked := Some(d))
               else t.dirs[d].state == THAWED && p == SETTLED.(hot := Some(d))
      modifies this
      ensures Ok(t, SETTLED.(hot := Some(d))) && |t.dirs| == |old(t).dirs|
      ensures t.dirs[d] == old(t).dirs[d].(state := THAWED.(frozenDir := true))
      ensures Side(PutDir(old(t), d, t.dirs[d]), t, old(t).dirs[d].at.depth, None)
      decreases t.dirs[d].at.depth, 1
    {
      assert DirOk(t, p, d);
      SetFrozen(d, THAWED.(frozenDir := true), p);
    }

    // What _freeze_tree and _freeze_dir share: set the state, then pin the inode for
    // the duration of the freeze, unless the fragment is a subtree root.
    method SetFrozen(d: nat, state: Flags, ghost p: Pending)
      requires Ok(t, p) && d < |t.dirs| && t.dirs[d].authPins >= 1
      requires if t.dirs[d].state.Freezing() then p == SETTLED.(unchecked := Some(d)) else p == SETTLED.(hot := Some(d))
      requires !t.dirs[d].state.Frozen()
      requires state == THAWED.(frozenDir := true) ||
               (state == THAWED.(frozenTree := true) && t.dirs[d].authPins == 1 && t.dirs[d].nested == 0)
      modifies this
      ensures Ok(t, SETTLED.(hot := Some(d))) && |t.dirs| == |old(t).dirs|
      ensures t.dirs[d] == old(t).dirs[d].(state := state)
      ensures Side(PutDir(old(t), d, t.dirs[d]), t, old(t).dirs[d].at.depth, None)
      decreases t.dirs[d].at.depth, 0
    {
      ghost var t0 := t;
      var i := InodeOf(t, d);
      var y := t.dirs[d].(state := state);
      ghost var q := SETTLED.(hot := Some(d), loose := if y.FreezePin() == 1 then Some(d) else None);
      assert DirOk(t, p, d);
      PinsNonNegative(t, p);
      PinnedNotFrozenAbove(t, p, d);
      ReplaceDir(t, p, d, y, q);
      t := PutDir(t, d, y);
      ghost var t1 := t;
      if y.at.auth && !y.SubtreeRoot() {
        if Up(t0, d).Some? { DirKeepsFrozen(t0, d, y, Up(t0, d).value); }
        PinInode(i, Freezer(d), q);
        SideFromInode(t1, i, t.inodes[i], t, y.at.depth, None);
      }
    }

    // ---- the operations offered to the rest of the server

    // CDir::freeze_tree. A freeze that has to wait is woken by dropping a pin, except
    // when all it waits for is its inode: then no pin is left whose removal would wake it.
    method FreezeTree(d: nat) returns (frozen: bool)
      requires Ok(t, SETTLED) && d < |t.dirs|
      requires !IsFrozen(t, d) && !IsFreezing(t, d)
      modifies this
      ensures Ok(t, SETTLED) && |t.dirs| == |old(t).dirs| && SamePlace(old(t).dirs[d], t.dirs[d])
      ensures frozen <==> old(t).dirs[d].Cum() == 0 && !InodeHolds(old(t), d)
      ensures t.dirs[d].state == if frozen then THAWED.(frozenTree := true) else THAWED.(freezingTree := true)
      ensures TreeBlocked(t.dirs[d]) <==> old(t).dirs[d].Cum() != 0 || !InodeHolds(old(t), d)
      ensures t.dirs[d].held == old(t).dirs[d].held.(self := if frozen then 0 else 1)
      ensures Side(PutDir(old(t), d, t.dirs[d]), t, old(t).dirs[d].at.depth, Some(HeldSet(old(t))))
    {
      ghost var t0 := t;
      PinSelf(d);
      ghost var t1 := t;
      if Freezeable(t, d) {
        FreezeAndUnpin(d, HeldSet(t0));
        SideChain(t0, d, t1.dirs[d], t1, t.dirs[d], t, Some(HeldSet(t0)));
        frozen := true;
      } else {
        SetFreezing(d, THAWED.(freezingTree := true));
        SideChain(t0, d, t1.dirs[d], t1, t.dirs[d], t, None);
        frozen := false;
      }
    }

    // How both begin: with a pin of the fragment's own, so that nothing happens meanwhile.
    method PinSelf(d: nat)
      requires Ok(t, SETTLED) && d < |t.dirs| && !IsFrozen(t, d) && !IsFreezing(t, d)
      modifies this
      ensures Ok(t, SETTLED.(hot := Some(d))) && |t.dirs| == |old(t).dirs|
      ensures t.dirs[d] == DirPinnedBy(old(t).dirs[d], Self) && t.dirs[d].authPins >= 1 && t.dirs[d].nested >= 0
      ensures t.dirs[d].state == THAWED && 0 <= t.dirs[d].dirPins <= t.dirs[d].nested && t.dirs[d].held.self == 1
      ensures InodeHolds(t, d) == InodeHolds(old(t), d)
      ensures InodeHolds(t, d) ==> t.dirs[ParentOf(t, InodeOf(t, d)).value].state.frozenDir
      ensures Knows(t, Some(HeldSet(old(t))), t.dirs[d].at.depth)
      ensures Side(PutDir(old(t), d, t.dirs[d]), t, old(t).dirs[d].at.depth, None)
    {
      ghost var t0 := t;
      assert DirOk(t, SETTLED, d);
      PinsNonNegative(t, SETTLED);
      CountersBounded(t, SETTLED, d);
      PinDir(d, Self, SETTLED);
      QuietKnows(t0, d, t.dirs[d], t, HeldSet(t0));
      if Up(t0, d).Some? { QuietKeepsFrozen(t0, d, t.dirs[d], t, Up(t0, d).value); }
      assert Up(t, d) == Up(t0, d);
    }

    // freeze_tree when nothing is in the way: freeze, and give the self pin back.
    method FreezeAndUnpin(d: nat, ghost held: set<nat>)
      requires d < |t.dirs| && Ok(t, SETTLED.(hot := Some(d))) && t.dirs[d].state == THAWED && Freezeable(t, d)
      requires Knows(t, Some(held), t.dirs[d].at.depth)
      modifies this
      ensures Ok(t, SETTLED) && |t.dirs| == |old(t).dirs|
      ensures t.dirs[d].state == THAWED.(frozenTree := true) && TreeBlocked(t.dirs[d])
      ensures SamePlace(old(t).dirs[d], t.dirs[d]) && t.dirs[d].held == old(t).dirs[d].held.(self := 0)
      ensures Side(PutDir(old(t), d, t.dirs[d]), t, old(t).dirs[d].at.depth, Some(held))
    {
      ghost var t1 := t;
      assert DirOk(t, SETTLED.(hot := Some(d)), d);
      FreezeTreeNow(d, SETTLED.(hot := Some(d)));
      ghost var t2 := t;
      QuietKnows(t1, d, t2.dirs[d], t2, held);
      UnpinDir(d, Self, held);
      SideChain(t1, d, t2.dirs[d], t2, t.dirs[d], t, Some(held));
    }

    // CDir::freeze_dir. It waits exactly while a pin is in its way.
    method FreezeDir(d: nat) returns (frozen: bool)
      requires Ok(t, SETTLED) && d < |t.dirs|
      requires !IsFrozen(t, d) && !IsFreezing(t, d)
      modifies this
      ensures Ok(t, SETTLED) && |t.dirs| == |old(t).dirs| && SamePlace(old(t).dirs[d], t.dirs[d])
      ensures frozen <==> old(t).dirs[d].authPins == 0 && old(t).dirs[d].dirPins == 0
      ensures t.dirs[d].state == if frozen then THAWED.(frozenDir := true) else THAWED.(freezingDir := true)
      ensures t.dirs[d].held == old(t).dirs[d].held.(self := if frozen then 0 else 1)
      ensures Side(PutDir(old(t), d, t.dirs[d]), t, old(t).dirs[d].at.depth, Some(HeldSet(old(t))))
    {
      ghost var t0 := t;
      PinSelf(d);
      ghost var t1 := t;
      if FreezeableDir(t, d) {
        FreezeDirAndUnpin(d, HeldSet(t0));
        SideChain(t0, d, t1.dirs[d], t1, t.dirs[d], t, Some(HeldSet(t0)));
        frozen := true;
      } else {
        SetFreezing(d, THAWED.(freezingDir := true));
        SideChain(t0, d, t1.dirs[d], t1, t.dirs[d], t, None);
        frozen := false;
      }
    }

    // freeze_dir when nothing is in the way.
    method FreezeDirAndUnpin(d: nat, ghost held: set<nat>)
      requires d < |t.dirs| && Ok(t, SETTLED.(hot := Some(d))) && t.dirs[d].state == THAWED
      requires Knows(t, Some(held), t.dirs[d].at.depth)
      modifies this
      ensures Ok(t, SETTLED) && |t.dirs| == |old(t).dirs| && t.dirs[d].state == THAWED.(frozenDir := true)
      ensures SamePlace(old(t).dirs[d], t.dirs[d]) && t.dirs[d].held == old(t).dirs[d].held.(self := 0)
      ensures Side(PutDir(old(t), d, t.dirs[d]), t, old(t).dirs[d].at.depth, Some(held))
    {
      ghost var t1 := t;
      assert DirOk(t, SETTLED.(hot := Some(d)), d);
      FreezeDirNow(d, SETTLED.(hot := Some(d)));
      ghost var t2 := t;
      QuietKnows(t1, d, t2.dirs[d], t2, held);
      UnpinDir(d, Self, held);
      SideChain(t1, d, t2.dirs[d], t2, t.dirs[d], t, Some(held));
    }

    // state_set(STATE_FREEZINGTREE) or state_set(STATE_FREEZINGDIR): the self pin just
    // taken now belongs to the pending freeze.
    method SetFreezing(d: nat, state: Flags)
      requires d < |t.dirs| && Ok(t, SETTLED.(hot := Some(d))) && t.dirs[d].state == THAWED
      requires state == THAWED.(freezingTree := true) ||
               (state == THAWED.(freezingDir := true) && (t.dirs[d].authPins >= 2 || t.dirs[d].dirPins >= 1))
      modifies this
      ensures Ok(t, SETTLED) && t == PutDir(old(t), d, old(t).dirs[d].(state := state))
    {
      assert DirOk(t, SETTLED.(hot := Some(d)), d);
      var y := t.dirs[d].(state := state);
      ReplaceDir(t, SETTLED.(hot := Some(d)), d, y, SETTLED);
      t := PutDir(t, d, y);
    }

    // CDir::unfreeze_tree and CDir::unfreeze_dir: end a freeze, or give up waiting for one.
    method Unfreeze(d: nat)
      requires Ok(t, SETTLED) && d < |t.dirs|
      requires t.dirs[d].state != THAWED
      modifies this
      ensures Ok(t, SETTLED) && |t.dirs| == |old(t).dirs| && SamePlace(old(t).dirs[d], t.dirs[d])
      ensures t.dirs[d].state == THAWED
      ensures t.dirs[d].held == old(t).dirs[d].held.(self := 0)
      ensures Side(PutDir(old(t), d, t.dirs[d]), t, old(t).dirs[d].at.depth, Some(HeldSet(old(t))))
    {
      if t.dirs[d].state.Frozen() {
        EndFrozen(d, HeldSet(t));
      } else {
        CallOff(d, HeldSet(t));
      }
    }

    // The inode's freeze pin is given back.
    method EndFrozen(d: nat, ghost held: set<nat>)
      requires Ok(t, SETTLED) && d < |t.dirs| && t.dirs[d].state.Frozen() && Knows(t, Some(held), t.dirs[d].at.depth)
      modifies this
      ensures Ok(t, SETTLED) && |t.dirs| == |old(t).dirs| && t.dirs[d] == old(t).dirs[d].(state := THAWED)
      ensures t.dirs[d].held.self == 0
      ensures Side(PutDir(old(t), d, t.dirs[d]), t, old(t).dirs[d].at.depth, Some(held))
    {
      ghost var t0 := t;
      assert DirOk(t, SETTLED, d);
      var i := InodeOf(t, d);
      var x := t.dirs[d];
      var y := x.(state := THAWED);
      ghost var q := SETTLED.(loose := if x.FreezePin() == 1 then Some(d) else None);
      ReplaceDir(t, SETTLED, d, y, q);
      t := PutDir(t, d, y);
      if y.at.auth && !y.SubtreeRoot() {
        ghost var t1 := t;
        SameKnows(t0, t1, Some(held), x.at.depth);
        UnpinInode(i, Freezer(d), q, held);
        SideFromInode(t1, i, t.inodes[i], t, x.at.depth, Some(held));
      }
    }

    // A freeze that still waits gives its own pin back.
    method CallOff(d: nat, ghost held: set<nat>)
      requires Ok(t, SETTLED) && d < |t.dirs| && t.dirs[d].state.Freezing() && Knows(t, Some(held), t.dirs[d].at.depth)
      modifies this
      ensures Ok(t, SETTLED) && |t.dirs| == |old(t).dirs| && SamePlace(old(t).dirs[d], t.dirs[d])
      ensures t.dirs[d].state == THAWED && t.dirs[d].held == old(t).dirs[d].held.(self := 0)
      ensures Side(PutDir(old(t), d, t.dirs[d]), t, old(t).dirs[d].at.depth, Some(held))
    {
      ghost var t0 := t;
      assert DirOk(t, SETTLED, d);
      var y := t.dirs[d].(state := THAWED);
      ReplaceDir(t, SETTLED, d, y, SETTLED.(hot := Some(d)));
      t := PutDir(t, d, y);
      ghost var t1 := t;
      SameKnows(t0, t1, Some(held), y.at.depth);
      UnpinDir(d, Self, held);
      SideChain(t0, d, y, t1, t.dirs[d], t, Some(held));
    }

    // CDir::set_dir_auth. Becoming a bound, the fragment takes its nested pin and its
    // freeze pin off the inode; ceasing to be one, it puts them back.
    method SetDirAuth(d: nat, a: Authority)
      requires Ok(t, SETTLED) && d < |t.dirs|
      requires a == AUTH_DEFAULT ==> t.dirs[d].at.auth == t.inodes[InodeOf(t, d)].auth
      requires MergeAllowed(t, d, a)
      modifies this
      ensures Ok(t, SETTLED) && |t.dirs| == |old(t).dirs|
      ensures t.dirs[d] == old(t).dirs[d].(dirAuth := a)
      ensures Side(PutDir(old(t), d, t.dirs[d]), t, old(t).dirs[d].at.depth, Some(HeldSet(old(t))))
    {
      ghost var t0 := t;
      PinsNonNegative(t, SETTLED);
      var i := InodeOf(t, d);
      var x := t.dirs[d];
      var y := x.(dirAuth := a);
      ghost var q := AuthPending(x, y, d);
      AuthStep(t, d, a);
      t := PutDir(t, d, y);
      if !x.SubtreeRoot() && y.SubtreeRoot() {
        SameKnows(t0, t, Some(HeldSet(t0)), t.inodes[i].depth);
        LeaveParent(d, q, HeldSet(t0));
      }
      if x.SubtreeRoot() && !y.SubtreeRoot() {
        if ParentOf(t0, i).Some? { DirKeepsFrozen(t0, d, y, ParentOf(t0, i).value); }
        JoinParent(d, q);
      }
    }

    // set_dir_auth for a new subtree root
    method LeaveParent(d: nat, ghost q: Pending, ghost held: set<nat>)
      requires d < |t.dirs| && Ok(t, q) && q.hot == None && q.unchecked == None
      requires t.dirs[d].SubtreeRoot()
      requires q.gap == if t.dirs[d].Cum() != 0 then InInode(t.dirs[d].at.inode, -1) else NoGap
      requires q.loose == if t.inodes[InodeOf(t, d)].auth && t.dirs[d].state.Frozen() then Some(d) else None
      requires Knows(t, Some(held), t.inodes[InodeOf(t, d)].depth)
      modifies this
      ensures Ok(t, SETTLED)
      ensures Side(old(t), t, old(t).dirs[d].at.depth, Some(held))
    {
      ghost var t0 := t;
      var i := InodeOf(t, d);
      var x := t.dirs[d];
      if x.Cum() != 0 {
        FreezePinBlocks(t, q, d);
        assert DirOk(t, q, d);
        AdjustInode(i, -1, q, if q.loose.Some? then None else Some(held));
        SideFromInode(t0, i, t.inodes[i], t, x.at.depth, if q.loose.Some? then None else Some(held));
      }
      if t.inodes[i].auth && x.state.Frozen() {
        ghost var t1 := t;
        SameKnows(t0, t1, Some(held), t0.inodes[i].depth);
        UnpinInode(i, Freezer(d), q.(gap := NoGap), held);
        SideFromInode(t1, i, t.inodes[i], t, x.at.depth, Some(held));
        SideTrans(t0, t1, t, x.at.depth, Some(held));
      }
    }

    // set_dir_auth for a fragment that ceases to be a subtree root
    method JoinParent(d: nat, ghost q: Pending)
      requires d < |t.dirs| && Ok(t, q) && q.hot == None && q.unchecked == None
      requires !t.dirs[d].SubtreeRoot()
      requires q.gap == if t.dirs[d].Cum() != 0 then InInode(t.dirs[d].at.inode, 1) else NoGap
      requires q.loose == if t.inodes[InodeOf(t, d)].auth && t.dirs[d].state.Frozen() then Some(d) else None
      requires q != SETTLED && Up(t, d).Some? ==> !IsFrozenTree(t, Up(t, d).value)
      modifies this
      ensures Ok(t, SETTLED)
      ensures Side(old(t), t, old(t).dirs[d].at.depth, None)
    {
      ghost var t0 := t;
      var i := InodeOf(t, d);
      var x := t.dirs[d];
      if x.Cum() != 0 {
        AdjustInode(i, 1, q, None);
        SideFromInode(t0, i, t.inodes[i], t, x.at.depth, None);
      }
      if t.inodes[i].auth && x.state.Frozen() {
        ghost var t1 := t;
        if Up(t0, d).Some? { QuietKeepsFrozen(t0, d, x, t1, Up(t0, d).value); }
        PinInode(i, Freezer(d), q.(gap := NoGap));
        SideFromInode(t1, i, t.inodes[i], t, x.at.depth, None);
        SideTrans(t0, t1, t, x.at.depth, None);
      }
    }

    /** CDir::link_inode_work, wherever this makes no cycle. */
    method LinkInode(i: nat, d: nat)
      requires Ok(t, SETTLED) && i < |t.inodes| && d < |t.dirs|
      requires t.inodes[i].parent == None && !DirBelow(t, d, i)
      requires t.inodes[i].Cum() != 0 ==> !IsFrozenTree(t, d)
      modifies this
      ensures Ok(t, SETTLED)
      ensures Linked(old(t), i, d, t)
    {
      var k := t.dirs[d].at.depth + 1;
      DeepenedOk(t, i, k);
      DeepenedFrozen(t, i, k, d);
      assert Deepened(t, i, k).dirs[d] == Lowered(t, i, k, d) &&
        Deepened(t, i, k).inodes[i] == LoweredInode(t, i, k, i);
      t := Deepened(t, i, k);
      LinkDeeper(i, d);
    }

    // Linking an inode below a fragment that is counted less deep.
    method LinkDeeper(i: nat, d: nat)
      requires Ok(t, SETTLED) && i < |t.inodes| && d < |t.dirs|
      requires t.inodes[i].parent == None && t.dirs[d].at.depth < t.inodes[i].depth
      requires t.inodes[i].Cum() != 0 ==> !IsFrozenTree(t, d)
      modifies this
      ensures Ok(t, SETTLED)
      ensures Side(PutInode(old(t), i, old(t).inodes[i].(parent := Some(d))), t, old(t).inodes[i].depth, None)
    {
      ghost var t0 := t;
      var y := t.inodes[i].(parent := Some(d));
      PinsNonNegative(t, SETTLED);
      LinkStep(t, i, y, if y.Cum() == 0 then NoGap else InDir(d, y.Cum(), y.authPins));
      t := PutInode(t, i, y);
      ghost var t1 := t;
      if y.Cum() != 0 {
        RelinkKeepsFrozen(t0, i, y, d);
        AdjustDir(d, y.Cum(), y.authPins, SETTLED.(gap := InDir(d, y.Cum(), y.authPins)), None);
        SideFromDir(t1, d, t.dirs[d], t, y.depth, None);
      }
    }

    // CDir::unlink_inode_work for a primary link
    method UnlinkInode(i: nat)
      requires Ok(t, SETTLED) && i < |t.inodes| && t.inodes[i].parent.Some?
      modifies this
      ensures Ok(t, SETTLED)
      ensures Side(PutInode(old(t), i, old(t).inodes[i].(parent := None)), t, old(t).inodes[i].depth,
                   Some(HeldSet(old(t))))
    {
      ghost var t0, held := t, HeldSet(t);
      var d := ParentOf(t, i).value;
      var y := t.inodes[i].(parent := None);
      PinsNonNegative(t, SETTLED);
      LinkStep(t, i, y, if y.Cum() == 0 then NoGap else InDir(d, -y.Cum(), -y.authPins));
      t := PutInode(t, i, y);
      ghost var t1 := t;
      if y.Cum() != 0 {
        SameKnows(t0, t1, Some(held), t.dirs[d].at.depth);
        AdjustDir(d, -y.Cum(), -y.authPins, SETTLED.(gap := InDir(d, -y.Cum(), -y.authPins)), Some(held));
        SideFromDir(t1, d, t.dirs[d], t, y.depth, Some(held));
      }
    }
  }
}
