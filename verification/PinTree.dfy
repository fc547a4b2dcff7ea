/** The cache seen by the auth-pin counters: directory fragments and inodes, the
    pins each of them holds, and what it means for the counters to be exact.

    Fragments and inodes are numbered; a fragment names its inode, a linked inode
    names the fragment that holds it. A dentry's own pins enter the two counters
    of its fragment exactly like those of the inode it links, so they are counted
    with the inode's. */
module PinTree {
  import opened Options

  // (first, second) of an authority; the default means "same as my inode".
  type Authority = (int, int)
  const AUTH_PARENT := -1
  const AUTH_UNKNOWN := -2
  const AUTH_DEFAULT: Authority := (AUTH_PARENT, AUTH_UNKNOWN)

  // The four freeze bits of a fragment's state.
  datatype Flags = Flags(freezingTree: bool, frozenTree: bool, freezingDir: bool, frozenDir: bool)
  {
    predicate Freezing() { freezingTree || freezingDir }
    predicate Frozen() { frozenTree || frozenDir }
    predicate AtMostOne() {
      && !(freezingTree && (frozenTree || freezingDir || frozenDir))
      && !(frozenTree && (freezingDir || frozenDir))
      && !(freezingDir && frozenDir)
    }
  }

  const THAWED := Flags(false, false, false, false)

  // Who holds the pins on a fragment: outside callers, the fragment itself while it
  // freezes, or its inode while a tree freeze waits for the inode to be unfrozen.
  datatype Holders = Holders(callers: multiset<nat>, self: nat, retaken: nat)
  {
    function Count(): nat { |callers| + self + retaken }
  }

  // Where a fragment hangs: its inode, its distance from the top, the authority bit.
  datatype Place = Place(inode: nat, depth: nat, auth: bool)

  /** One directory fragment: `authPins` counts its own pins, `nested` all pins below
      it, `dirPins` those held directly on its children. */
  datatype Dir = Dir(
    at: Place, dirAuth: Authority, state: Flags, held: Holders,
    authPins: int, nested: int, dirPins: int)
  {
    predicate SubtreeRoot() { dirAuth != AUTH_DEFAULT }
    function Cum(): int { authPins + nested }
    // Does this fragment count as one nested pin of its inode?
    function Pinned(): int { if !SubtreeRoot() && Cum() != 0 then 1 else 0 }
    // Should the inode carry a freeze pin taken by this fragment?
    function FreezePin(): nat { if state.Frozen() && at.auth && !SubtreeRoot() then 1 else 0 }
  }

  /** One inode. Its own pins are held by outside callers or by frozen fragments. */
  datatype Inode = Inode(
    parent: Option<nat>, depth: nat, auth: bool,
    callers: multiset<nat>, freezers: multiset<nat>,
    authPins: int, nested: int)
  {
    function Cum(): int { authPins + nested }
    // What this inode adds to the two counters of fragment d.
    function CumIn(d: nat): int { if parent == Some(d) then Cum() else 0 }
    function OwnIn(d: nat): int { if parent == Some(d) then authPins else 0 }
  }

  datatype Tree = Tree(dirs: seq<Dir>, inodes: seq<Inode>)

  // ---- sums over the tree

  function SumCum(inodes: seq<Inode>, d: nat, n: nat): int
    requires n <= |inodes|
  {
    if n == 0 then 0 else SumCum(inodes, d, n - 1) + inodes[n - 1].CumIn(d)
  }

  function SumOwn(inodes: seq<Inode>, d: nat, n: nat): int
    requires n <= |inodes|
  {
    if n == 0 then 0 else SumOwn(inodes, d, n - 1) + inodes[n - 1].OwnIn(d)
  }

  // How many of the first n fragments belong to inode i and count as a nested pin of it.
  function CountPinned(dirs: seq<Dir>, i: nat, n: nat): int
    requires n <= |dirs|
  {
    if n == 0 then 0
    else CountPinned(dirs, i, n - 1) + if dirs[n - 1].at.inode == i then dirs[n - 1].Pinned() else 0
  }

  lemma {:induction false} SumsAfterInode(s: seq<Inode>, i: nat, y: Inode, d: nat, n: nat)
    requires i < |s| && n <= |s|
    ensures SumCum(s[i := y], d, n) == SumCum(s, d, n) + if i < n then y.CumIn(d) - s[i].CumIn(d) else 0
    ensures SumOwn(s[i := y], d, n) == SumOwn(s, d, n) + if i < n then y.OwnIn(d) - s[i].OwnIn(d) else 0
  {
    if n > 0 { SumsAfterInode(s, i, y, d, n - 1); }
  }

  lemma {:induction false} CountAfterDir(s: seq<Dir>, d: nat, y: Dir, i: nat, n: nat)
    requires d < |s| && n <= |s| && y.at.inode == s[d].at.inode
    ensures CountPinned(s[d := y], i, n) ==
            CountPinned(s, i, n) + if d < n && y.at.inode == i then y.Pinned() - s[d].Pinned() else 0
  {
    if n > 0 { CountAfterDir(s, d, y, i, n - 1); }
  }

  lemma {:induction false} SumsDominate(s: seq<Inode>, d: nat, n: nat)
    requires n <= |s|
    requires forall k :: 0 <= k < |s| ==> s[k].authPins >= 0 && s[k].nested >= 0
    ensures 0 <= SumOwn(s, d, n) <= SumCum(s, d, n)
    ensures forall k :: 0 <= k < n && s[k].parent == Some(d) ==>
      s[k].Cum() <= SumCum(s, d, n) && s[k].authPins <= SumOwn(s, d, n)
  {
    if n > 0 { SumsDominate(s, d, n - 1); }
  }

  lemma {:induction false} CountDominates(s: seq<Dir>, i: nat, n: nat)
    requires n <= |s|
    ensures 0 <= CountPinned(s, i, n)
    ensures forall k :: 0 <= k < n && s[k].at.inode == i ==> s[k].Pinned() <= CountPinned(s, i, n)
  {
    if n > 0 { CountDominates(s, i, n - 1); }
  }

  // ---- exactness of the counters

  // Counters a running adjustment has yet to correct.
  datatype Gap = NoGap | InDir(d: nat, inc: int, dirInc: int) | InInode(i: nat, inc: int)

  /** What is still outstanding in the middle of an operation: a gap in the counters,
      a fragment holding one self pin more than its freezing flag explains (`hot`), a
      fragment whose freeze pin on its inode is out of step (`loose`), and a fragment
      whose pending freeze has to be looked at again (`unchecked`). */
  datatype Pending = Pending(gap: Gap, hot: Option<nat>, loose: Option<nat>, unchecked: Option<nat>)
  {
    function DirGap(d: nat): int { if gap.InDir? && gap.d == d then gap.inc else 0 }
    function OwnGap(d: nat): int { if gap.InDir? && gap.d == d then gap.dirInc else 0 }
    function InodeGap(i: nat): int { if gap.InInode? && gap.i == i then gap.inc else 0 }
    function Hot(d: nat): nat { if hot == Some(d) then 1 else 0 }
  }

  const SETTLED := Pending(NoGap, None, None, None)

  predicate DirShape(t: Tree, d: nat)
    requires d < |t.dirs|
  {
    var x := t.dirs[d];
    && x.at.inode < |t.inodes|
    && t.inodes[x.at.inode].depth < x.at.depth
    && (!x.SubtreeRoot() ==> x.at.auth == t.inodes[x.at.inode].auth)
  }

  predicate InodeShape(t: Tree, i: nat)
    requires i < |t.inodes|
  {
    var x := t.inodes[i];
    x.parent.Some? ==> x.parent.value < |t.dirs| && t.dirs[x.parent.value].at.depth < x.depth
  }

  // Links point at existing nodes and are acyclic: depth grows going down. A fragment
  // that is not a subtree root has the authority of its inode.
  predicate Shape(t: Tree) {
    && (forall d :: 0 <= d < |t.dirs| ==> DirShape(t, d))
    && (forall i :: 0 <= i < |t.inodes| ==> InodeShape(t, i))
  }

  function InodeOf(t: Tree, d: nat): (i: nat)
    requires Shape(t) && d < |t.dirs|
    ensures i == t.dirs[d].at.inode && i < |t.inodes| && t.inodes[i].depth < t.dirs[d].at.depth
    ensures !t.dirs[d].SubtreeRoot() ==> t.dirs[d].at.auth == t.inodes[i].auth
  {
    assert DirShape(t, d);
    t.dirs[d].at.inode
  }

  function ParentOf(t: Tree, i: nat): (r: Option<nat>)
    requires Shape(t) && i < |t.inodes|
    ensures r == t.inodes[i].parent
    ensures r.Some? ==> r.value < |t.dirs| && t.dirs[r.value].at.depth < t.inodes[i].depth
  {
    assert InodeShape(t, i);
    t.inodes[i].parent
  }

  // The fragment's own pins, flags and counters are consistent.
  predicate DirLocal(x: Dir, hot: nat, checked: bool) {
    && x.state.AtMostOne()
    && x.authPins == x.held.Count()
    && x.held.self == (if x.state.Freezing() then 1 else 0) + hot
    && x.nested >= 0 && x.dirPins >= 0
    && (x.state.frozenTree ==> x.nested == 0 && x.held.callers == multiset{} && x.held.retaken == 0)
    && (checked && x.state.freezingDir ==> x.authPins >= 2 || x.dirPins >= 1)
  }

  predicate DirOk(t: Tree, p: Pending, d: nat)
    requires Shape(t) && d < |t.dirs|
  {
    var x := t.dirs[d];
    && DirLocal(x, p.Hot(d), p.unchecked != Some(d))
    && x.nested + p.DirGap(d) == SumCum(t.inodes, d, |t.inodes|)
    && x.dirPins + p.OwnGap(d) == SumOwn(t.inodes, d, |t.inodes|)
    && t.inodes[InodeOf(t, d)].freezers[d] == (if p.loose == Some(d) then 1 - x.FreezePin() else x.FreezePin())
  }

  predicate InodeOk(t: Tree, p: Pending, i: nat)
    requires Shape(t) && i < |t.inodes|
  {
    var x := t.inodes[i];
    && x.authPins == |x.callers| + |x.freezers|
    && x.nested >= 0
    && x.nested + p.InodeGap(i) == CountPinned(t.dirs, i, |t.dirs|)
    && (forall f <- x.freezers :: f < |t.dirs| && t.dirs[f].at.inode == i)
  }

  predicate Ok(t: Tree, p: Pending) {
    && Shape(t)
    && (forall d :: 0 <= d < |t.dirs| ==> DirOk(t, p, d))
    && (forall i :: 0 <= i < |t.inodes| ==> InodeOk(t, p, i))
  }

  /** Replacing one fragment's record keeps everything else exact; its inode's
      nested count is then off by the change in the fragment's contribution. */
  lemma ReplaceDir(t: Tree, p: Pending, d: nat, y: Dir, q: Pending)
    requires Ok(t, p) && d < |t.dirs|
    requires y.at == t.dirs[d].at
    requires !y.SubtreeRoot() ==> y.at.auth == t.inodes[InodeOf(t, d)].auth
    requires forall e :: 0 <= e < |t.dirs| && e != d ==>
      p.DirGap(e) == q.DirGap(e) && p.OwnGap(e) == q.OwnGap(e) && p.Hot(e) == q.Hot(e) &&
      (p.loose == Some(e) <==> q.loose == Some(e)) && (p.unchecked == Some(e) <==> q.unchecked == Some(e))
    requires forall i :: 0 <= i < |t.inodes| ==>
      q.InodeGap(i) == p.InodeGap(i) + if i == y.at.inode then y.Pinned() - t.dirs[d].Pinned() else 0
    requires DirLocal(y, q.Hot(d), q.unchecked != Some(d))
    requires y.nested + q.DirGap(d) == t.dirs[d].nested + p.DirGap(d)
    requires y.dirPins + q.OwnGap(d) == t.dirs[d].dirPins + p.OwnGap(d)
    requires (if q.loose == Some(d) then 1 - y.FreezePin() else y.FreezePin()) ==
             (if p.loose == Some(d) then 1 - t.dirs[d].FreezePin() else t.dirs[d].FreezePin())
    ensures Ok(t.(dirs := t.dirs[d := y]), q)
  {
    var u := t.(dirs := t.dirs[d := y]);
    assert Shape(u) by {
      forall e | 0 <= e < |u.dirs| ensures DirShape(u, e) { assert DirShape(t, e); }
      forall i | 0 <= i < |u.inodes| ensures InodeShape(u, i) { assert InodeShape(t, i); }
    }
    forall e | 0 <= e < |u.dirs| ensures DirOk(u, q, e) { assert DirOk(t, p, e); }
    forall i | 0 <= i < |u.inodes| ensures InodeOk(u, q, i) {
      assert InodeOk(t, p, i);
      CountAfterDir(t.dirs, d, y, i, |t.dirs|);
    }
  }

  /** Replacing one inode's record keeps everything else exact; the counters of
      the fragments it is (or was) linked in are then off by the change. */
  lemma ReplaceInode(t: Tree, p: Pending, i: nat, y: Inode, q: Pending)
    requires Ok(t, p) && i < |t.inodes|
    requires y.depth == t.inodes[i].depth && y.auth == t.inodes[i].auth
    requires y.parent.Some? ==> y.parent.value < |t.dirs| && t.dirs[y.parent.value].at.depth < y.depth
    requires forall d :: 0 <= d < |t.dirs| ==>
      && p.Hot(d) == q.Hot(d) && (p.unchecked == Some(d) <==> q.unchecked == Some(d))
      && q.DirGap(d) == p.DirGap(d) + y.CumIn(d) - t.inodes[i].CumIn(d)
      && q.OwnGap(d) == p.OwnGap(d) + y.OwnIn(d) - t.inodes[i].OwnIn(d)
    requires forall d :: 0 <= d < |t.dirs| && t.dirs[d].at.inode == i ==>
      y.freezers[d] == (if q.loose == Some(d) then 1 - t.dirs[d].FreezePin() else t.dirs[d].FreezePin())
    requires forall d :: 0 <= d < |t.dirs| && t.dirs[d].at.inode != i ==>
      (p.loose == Some(d) <==> q.loose == Some(d))
    requires forall j :: 0 <= j < |t.inodes| && j != i ==> p.InodeGap(j) == q.InodeGap(j)
    requires y.authPins == |y.callers| + |y.freezers| && y.nested >= 0
    requires y.nested + q.InodeGap(i) == t.inodes[i].nested + p.InodeGap(i)
    requires forall f <- y.freezers :: f < |t.dirs| && t.dirs[f].at.inode == i
    ensures Ok(t.(inodes := t.inodes[i := y]), q)
  {
    var u := t.(inodes := t.inodes[i := y]);
    assert Shape(u) by {
      forall e | 0 <= e < |u.dirs| ensures DirShape(u, e) { assert DirShape(t, e); }
      forall j | 0 <= j < |u.inodes| ensures InodeShape(u, j) { assert InodeShape(t, j); }
    }
    forall e | 0 <= e < |u.dirs| ensures DirOk(u, q, e) {
      assert DirOk(t, p, e);
      SumsAfterInode(t.inodes, i, y, e, |t.inodes|);
    }
    forall j | 0 <= j < |u.inodes| ensures InodeOk(u, q, j) { assert InodeOk(t, p, j); }
  }

  lemma PinsNonNegative(t: Tree, p: Pending)
    requires Ok(t, p)
    ensures forall i :: 0 <= i < |t.inodes| ==> t.inodes[i].authPins >= 0 && t.inodes[i].nested >= 0
    ensures forall d :: 0 <= d < |t.dirs| ==> t.dirs[d].authPins >= 0
  {
    forall i | 0 <= i < |t.inodes| ensures t.inodes[i].authPins >= 0 && t.inodes[i].nested >= 0 {
      assert InodeOk(t, p, i);
    }
    forall d | 0 <= d < |t.dirs| ensures t.dirs[d].authPins >= 0 { assert DirOk(t, p, d); }
  }

  // Counting pins below can never go negative, and own pins never exceed all pins.
  lemma CountersBounded(t: Tree, p: Pending, d: nat)
    requires Ok(t, p) && d < |t.dirs|
    ensures 0 <= t.dirs[d].dirPins + p.OwnGap(d) <= t.dirs[d].nested + p.DirGap(d)
    ensures t.inodes[InodeOf(t, d)].nested + p.InodeGap(InodeOf(t, d)) >= t.dirs[d].Pinned()
  {
    PinsNonNegative(t, p);
    SumsDominate(t.inodes, d, |t.inodes|);
    CountDominates(t.dirs, InodeOf(t, d), |t.dirs|);
    assert DirOk(t, p, d);
    assert InodeOk(t, p, InodeOf(t, d));
  }

  // ---- freezing, seen from below

  // The parent fragment of fragment d inside its subtree, if any.
  function Up(t: Tree, d: nat): (r: Option<nat>)
    requires Shape(t) && d < |t.dirs|
    ensures r.Some? ==> r.value < |t.dirs| && t.dirs[r.value].at.depth < t.dirs[d].at.depth
  {
    if t.dirs[d].SubtreeRoot() then None else ParentOf(t, InodeOf(t, d))
  }

  // is_frozen_tree: some fragment up to the subtree root is a frozen tree root.
  predicate IsFrozenTree(t: Tree, d: nat)
    requires Shape(t) && d < |t.dirs|
    decreases t.dirs[d].at.depth
  {
    t.dirs[d].state.frozenTree || (Up(t, d).Some? && IsFrozenTree(t, Up(t, d).value))
  }

  predicate IsFreezingTree(t: Tree, d: nat)
    requires Shape(t) && d < |t.dirs|
    decreases t.dirs[d].at.depth
  {
    t.dirs[d].state.freezingTree || (Up(t, d).Some? && IsFreezingTree(t, Up(t, d).value))
  }

  predicate IsFrozen(t: Tree, d: nat)
    requires Shape(t) && d < |t.dirs|
  {
    t.dirs[d].state.frozenDir || IsFrozenTree(t, d)
  }

  predicate IsFreezing(t: Tree, d: nat)
    requires Shape(t) && d < |t.dirs|
  {
    t.dirs[d].state.freezingDir || IsFreezingTree(t, d)
  }

  // An inode is frozen with the fragment it is linked in.
  predicate InodeFrozen(t: Tree, i: nat)
    requires Shape(t) && i < |t.inodes|
  {
    ParentOf(t, i).Some? && IsFrozen(t, ParentOf(t, i).value)
  }

  // Fragment d lies in the region below r: no subtree root is passed going up from d to r.
  predicate InRegion(t: Tree, r: nat, d: nat)
    requires Shape(t) && d < |t.dirs|
    decreases t.dirs[d].at.depth
  {
    d == r || (Up(t, d).Some? && InRegion(t, r, Up(t, d).value))
  }

  /** A pinned fragment is never inside a frozen tree. */
  lemma {:induction false} PinnedNotFrozenAbove(t: Tree, p: Pending, d: nat)
    requires Ok(t, p) && p.gap == NoGap
    requires d < |t.dirs| && t.dirs[d].Cum() > 0
    ensures Up(t, d).Some? ==> !IsFrozenTree(t, Up(t, d).value)
    decreases t.dirs[d].at.depth
  {
    if Up(t, d).Some? {
      var i := InodeOf(t, d);
      var u := Up(t, d).value;
      CountersBounded(t, p, d);
      PinsNonNegative(t, p);
      SumsDominate(t.inodes, u, |t.inodes|);
      assert DirOk(t, p, u);
      assert t.dirs[u].Cum() > 0;
      PinnedNotFrozenAbove(t, p, u);
    }
  }

  /** A frozen tree is quiet: no fragment or inode in its region, down to nested
      subtree roots, holds a pin or is being frozen, and no fragment strictly
      inside it that this server is the authority of is frozen on its own. */
  lemma {:induction false} FrozenTreeIsQuiet(t: Tree, r: nat, d: nat)
    requires Ok(t, SETTLED) && r < |t.dirs| && d < |t.dirs|
    requires t.dirs[r].state.frozenTree && InRegion(t, r, d)
    ensures t.dirs[d].authPins == 0 && t.dirs[d].nested == 0 && t.dirs[d].dirPins == 0
    ensures !t.dirs[d].state.Freezing()
    ensures d != r && t.dirs[d].at.auth ==> !t.dirs[d].state.Frozen()
    ensures forall i :: 0 <= i < |t.inodes| && t.inodes[i].parent == Some(d) ==>
      t.inodes[i].authPins == 0 && t.inodes[i].nested == 0
    decreases t.dirs[d].at.depth
  {
    assert DirOk(t, SETTLED, d);
    PinsNonNegative(t, SETTLED);
    if d != r {
      var u := Up(t, d).value;
      var i := InodeOf(t, d);
      FrozenTreeIsQuiet(t, r, u);
      assert InodeOk(t, SETTLED, i);
      CountersBounded(t, SETTLED, d);
      assert t.dirs[d].Pinned() == 0;
      assert t.inodes[i].freezers == multiset{};
    }
    CountersBounded(t, SETTLED, d);
    SumsDominate(t.inodes, d, |t.inodes|);
  }
}
