/** The client's tree of snapshot realms, each with a cached snapshot context that depends on
    all its ancestors. */
module SnapRealms {
  import opened Options

  // What a realm says about itself. pparent is the realm it points to, if any; parent is the
  // number last heard for it.
  datatype Info = Info(seqNo: nat, parent: nat, pparent: Option<nat>, since: nat, prior: seq<nat>, mine: seq<nat>)

  // A cached context; the sequence number 0 marks a cleared cache.
  datatype Context = Context(seqNo: nat, snaps: seq<nat>)

  const CLEARED := Context(0, [])

  // All realms, with the children of each and the number of references to it.
  datatype Tree = Tree(infos: map<nat, Info>, kids: map<nat, set<nat>>, nref: map<nat, nat>)

  // ---- the tree

  // Parents come first, so the tree has no cycle.
  ghost predicate Ranked(infos: map<nat, Info>, depth: nat -> nat) {
    forall r <- infos :: infos[r].pparent.Some? ==>
      infos[r].pparent.value in infos && depth(infos[r].pparent.value) < depth(r)
  }

  predicate IsKid(infos: map<nat, Info>, r: nat, k: nat) { k in infos && infos[k].pparent == Some(r) }

  ghost predicate KidsOk(infos: map<nat, Info>, kids: map<nat, set<nat>>) {
    kids.Keys == infos.Keys && forall r <- kids, k :: k in kids[r] <==> IsKid(infos, r, k)
  }

  ghost predicate RefsOk(kids: map<nat, set<nat>>, nref: map<nat, nat>) {
    nref.Keys == kids.Keys && forall r <- kids :: 0 < nref[r] && |kids[r]| <= nref[r]
  }

  // References beyond those of a realm's children.
  ghost function Held(kids: map<nat, set<nat>>, nref: map<nat, nat>): map<nat, int>
    requires RefsOk(kids, nref)
  {
    map r | r in kids :: nref[r] - |kids[r]|
  }

  ghost function Helds(t: Tree): map<nat, int>
    requires RefsOk(t.kids, t.nref)
  {
    Held(t.kids, t.nref)
  }

  ghost predicate TreeOk(t: Tree, depth: nat -> nat) {
    Ranked(t.infos, depth) && KidsOk(t.infos, t.kids) && RefsOk(t.kids, t.nref)
  }

  // ---- what a context should be

  datatype Meaning = Meaning(seqNo: nat, snaps: set<nat>)

  function Own(i: Info): set<nat> { (set x <- i.prior) + (set x <- i.mine) }

  function Inherit(i: Info, p: Meaning): Meaning {
    Meaning(if p.seqNo > i.seqNo then p.seqNo else i.seqNo, Own(i) + set x <- p.snaps | x >= i.since)
  }

  /** The greatest sequence number on the way to the root; a realm's own and prior-parent
      snapshots, and those of its parent since it became the parent. */
  ghost function Mean(infos: map<nat, Info>, depth: nat -> nat, r: nat): Meaning
    requires Ranked(infos, depth) && r in infos
    decreases depth(r)
  {
    var i := infos[r];
    if i.pparent.None? then Meaning(i.seqNo, Own(i)) else Inherit(i, Mean(infos, depth, i.pparent.value))
  }

  predicate Descending(s: seq<nat>) { forall i, j :: 0 <= i < j < |s| ==> s[i] > s[j] }

  ghost predicate Right(c: Context, m: Meaning) {
    c.seqNo == m.seqNo && Descending(c.snaps) && forall x :: x in c.snaps <==> x in m.snaps
  }

  ghost predicate Fits(infos: map<nat, Info>, depth: nat -> nat, c: Context, r: nat)
    requires Ranked(infos, depth) && r in infos
  {
    c.seqNo != 0 ==> Right(c, Mean(infos, depth, r))
  }

  // The context that the definition gives for a realm.
  ghost predicate IsContextOf(c: Context, infos: map<nat, Info>, depth: nat -> nat, r: nat) {
    Ranked(infos, depth) && r in infos && Right(c, Mean(infos, depth, r))
  }

  /** Every context that is cached is right. */
  ghost predicate CacheOk(infos: map<nat, Info>, depth: nat -> nat, cached: map<nat, Context>) {
    Ranked(infos, depth) && cached.Keys == infos.Keys && forall r <- infos :: Fits(infos, depth, cached[r], r)
  }

  // Outside a set that is closed under children, meanings depend on nothing inside it.
  ghost predicate Closed(infos: map<nat, Info>, e: set<nat>) {
    forall r <- infos :: infos[r].pparent.Some? && infos[r].pparent.value in e ==> r in e
  }

  ghost predicate SameOutside(infos: map<nat, Info>, infos': map<nat, Info>, e: set<nat>) {
    forall r <- infos' :: r !in e ==> r in infos && infos'[r] == infos[r]
  }

  lemma {:induction false} MeanFrame(infos: map<nat, Info>, depth: nat -> nat, infos': map<nat, Info>,
                                     depth': nat -> nat, e: set<nat>, r: nat)
    requires Ranked(infos, depth) && Ranked(infos', depth') && Closed(infos', e) && SameOutside(infos, infos', e)
    requires r in infos' && r !in e
    ensures r in infos && Mean(infos', depth', r) == Mean(infos, depth, r)
    decreases depth'(r)
  {
    if infos'[r].pparent.Some? {
      MeanFrame(infos, depth, infos', depth', e, infos'[r].pparent.value);
    }
  }

  /** The meaning of a realm does not depend on how the tree is ranked. */
  lemma {:induction false} MeanUnique(infos: map<nat, Info>, depth: nat -> nat, depth': nat -> nat, r: nat)
    requires Ranked(infos, depth) && Ranked(infos, depth') && r in infos
    ensures Mean(infos, depth, r) == Mean(infos, depth', r)
  {
    MeanFrame(infos, depth', infos, depth, {}, r);
  }

  // ---- build_snap_context

  method ToSet(s: seq<nat>, since: nat, start: set<nat>) returns (r: set<nat>)
    ensures r == start + set x <- s | x >= since
  {
    r := start;
    for i := 0 to |s|
      invariant r == start + set x <- s[..i] | x >= since
    {
      assert s[..i + 1] == s[..i] + [s[i]];
      if s[i] >= since { r := r + {s[i]}; }
    }
    assert s[..|s|] == s;
  }

  method Greatest(s: set<nat>) returns (m: nat)
    requires s != {}
    ensures m in s && forall x <- s :: x <= m
  {
    m :| m in s;
    var rest := s - {m};
    while rest != {}
      invariant m in s && rest <= s && forall x <- s :: x in rest || x <= m
    {
      var x :| x in rest;
      if x > m { m := x; }
      rest := rest - {x};
    }
  }

  method Listed(s: set<nat>) returns (l: seq<nat>)
    ensures Descending(l) && forall x :: x in l <==> x in s
  {
    l := [];
    var rest := s;
    while rest != {}
      invariant Descending(l) && rest <= s && forall x :: x in s <==> x in l || x in rest
      invariant forall x <- rest, i :: 0 <= i < |l| ==> x < l[i]
    {
      var m := Greatest(rest);
      l := l + [m];
      rest := rest - {m};
    }
  }

  // The greater number, the realm's own snapshots and its parent's recent ones.
  ghost predicate IsBuilt(c: Context, i: Info, parent: Option<Context>) {
    && c.seqNo == (if parent.Some? && parent.value.seqNo > i.seqNo then parent.value.seqNo else i.seqNo)
    && forall x :: x in c.snaps <==> x in Own(i) || (parent.Some? && x in parent.value.snaps && x >= i.since)
  }

  // build_snap_context, given the parent's context.
  method Build(i: Info, parent: Option<Context>) returns (c: Context)
    ensures Descending(c.snaps) && IsBuilt(c, i, parent)
  {
    var maxSeq := i.seqNo;
    var snaps := ToSet(i.prior, 0, {});
    if parent.Some? {
      snaps := ToSet(parent.value.snaps, i.since, snaps);
      if parent.value.seqNo > maxSeq { maxSeq := parent.value.seqNo; }
    }
    snaps := ToSet(i.mine, 0, snaps);
    var l := Listed(snaps);
    c := Context(maxSeq, l);
  }

  // ---- reading a context

  // What Build makes of a right parent context is right.
  lemma {:induction false} BuiltIsRight(infos: map<nat, Info>, depth: nat -> nat, r: nat, parent: Option<Context>,
                                        c: Context)
    requires Ranked(infos, depth) && r in infos && (parent.Some? <==> infos[r].pparent.Some?)
    requires parent.Some? ==> Right(parent.value, Mean(infos, depth, infos[r].pparent.value))
    requires Descending(c.snaps) && IsBuilt(c, infos[r], parent)
    ensures Right(c, Mean(infos, depth, r))
  {
  }

  /** get_snap_context: from the cache if it is there, else built from the parent's. */
  method GetContext(infos: map<nat, Info>, cached: map<nat, Context>, ghost depth: nat -> nat, r: nat)
    returns (after: map<nat, Context>, context: Context)
    requires CacheOk(infos, depth, cached) && r in infos
    ensures CacheOk(infos, depth, after) && IsContextOf(context, infos, depth, r) && after[r] == context
    decreases depth(r)
  {
    if cached[r].seqNo != 0 {
      return cached, cached[r];
    }
    var i := infos[r];
    var parent := None;
    after := cached;
    if i.pparent.Some? {
      var p;
      after, p := GetContext(infos, cached, depth, i.pparent.value);
      parent := Some(p);
    }
    context := Build(i, parent);
    BuiltIsRight(infos, depth, r, parent, context);
    after := after[r := context];
  }

  // ---- invalidate_snaprealm_and_children

  // The realms done and those still to do: everything below a done one is done or to do.
  ghost predicate Sweep(infos: map<nat, Info>, depth: nat -> nat, root: nat, done: set<nat>, todo: set<nat>) {
    && done !! todo && done + todo <= infos.Keys && root in done + todo
    && (forall x <- done + todo :: depth(root) <= depth(x) && (x != root ==> HasParentIn(infos, x, done)))
    && (forall x <- infos :: HasParentIn(infos, x, done) ==> x in done + todo)
  }

  predicate HasParentIn(infos: map<nat, Info>, x: nat, e: set<nat>) {
    x in infos && infos[x].pparent.Some? && infos[x].pparent.value in e
  }

  lemma {:induction false} SweepStep(infos: map<nat, Info>, depth: nat -> nat, root: nat, done: set<nat>,
                                     todo: set<nat>, r: nat, kids: set<nat>)
    requires Ranked(infos, depth) && Sweep(infos, depth, root, done, todo) && r in todo
    requires forall x :: x in kids <==> IsKid(infos, r, x)
    ensures kids !! todo && Sweep(infos, depth, root, done + {r}, todo - {r} + kids)
  {
    forall x <- kids ensures IsKid(infos, r, x) && x !in done + todo {
      assert IsKid(infos, r, x);
    }
  }

  // Only what lies at or below the root is swept.
  lemma {:induction false} SweptIsBelow(infos: map<nat, Info>, depth: nat -> nat, root: nat, done: set<nat>, x: nat)
    requires Ranked(infos, depth) && Sweep(infos, depth, root, done, {}) && x in done
    ensures Above(infos, x, root, {})
    decreases depth(x)
  {
    if x != root {
      assert HasParentIn(infos, x, done);
      SweptIsBelow(infos, depth, root, done, infos[x].pparent.value);
      AboveParent(infos, depth, x, root);
    }
  }

  // The queue holds each of these realms once.
  ghost predicate Queued(q: seq<nat>, todo: set<nat>) {
    (forall i, j :: 0 <= i < j < |q| ==> q[i] != q[j]) && forall x :: x in q <==> x in todo
  }

  lemma {:induction false} QueueStep(q: seq<nat>, todo: set<nat>, l: seq<nat>, more: set<nat>)
    requires q != [] && Queued(q, todo) && more !! todo && Descending(l) && forall x :: x in l <==> x in more
    ensures q[0] in todo && Queued(q[1..] + l, todo - {q[0]} + more)
  {
    assert q == [q[0]] + q[1..];
    var q' := q[1..] + l;
    forall i, j | 0 <= i < j < |q'| ensures q'[i] != q'[j] {
      if i < |q| - 1 <= j {
        assert q[i + 1] in q && l[j - (|q| - 1)] in l;
      }
    }
  }

  // Clear the caches of a realm and all realms below it.
  method Invalidate(ghost infos: map<nat, Info>, kids: map<nat, set<nat>>, cached0: map<nat, Context>,
                    ghost depth: nat -> nat, root: nat)
    returns (cached: map<nat, Context>, ghost done: set<nat>)
    requires Ranked(infos, depth) && root in infos && KidsOk(infos, kids) && cached0.Keys == infos.Keys
    ensures cached.Keys == cached0.Keys && Closed(infos, done) && root in done
    ensures forall x <- done :: Above(infos, x, root, {})
    ensures forall x <- cached :: cached[x] == if x in done then CLEARED else cached0[x]
  {
    cached, done := cached0, {};
    var q := [root];
    ghost var todo := {root};
    while q != []
      invariant cached.Keys == cached0.Keys && Sweep(infos, depth, root, done, todo) && Queued(q, todo)
      invariant forall x <- cached :: cached[x] == if x in done then CLEARED else cached0[x]
      decreases infos.Keys - done
    {
      var r := q[0];
      assert r in q;
      var l := Listed(kids[r]);
      SweepStep(infos, depth, root, done, todo, r, kids[r]);
      QueueStep(q, todo, l, kids[r]);
      cached := cached[r := CLEARED];
      q := q[1..] + l;
      done, todo := done + {r}, todo - {r} + kids[r];
    }
    assert todo == {};
    forall x <- done ensures Above(infos, x, root, {}) { SweptIsBelow(infos, depth, root, done, x); }
    assert Closed(infos, done) by {
      forall x <- infos | infos[x].pparent.Some? && infos[x].pparent.value in done ensures x in done {
        assert HasParentIn(infos, x, done);
      }
    }
  }

  // ---- references

  const BLANK := Info(0, 0, None, 0, [], [])

  // A realm is referred to by more than its children.
  predicate Holds(t: Tree, r: nat) { r in t.kids && r in t.nref && |t.kids[r]| < t.nref[r] }

  // get_snap_realm: find or create a realm, and hold it.
  function Got(t: Tree, r: nat): Tree {
    if r in t.nref then t.(nref := t.nref[r := t.nref[r] + 1])
    else Tree(t.infos[r := BLANK], t.kids[r := {}], t.nref[r := 1])
  }

  // A realm, perhaps new, has one more holder.
  ghost predicate Taken(held: map<nat, int>, held': map<nat, int>, r: nat) {
    && held'.Keys == held.Keys + {r}
    && forall x <- held' :: held'[x] == (if x in held then held[x] else 0) + if x == r then 1 else 0
  }

  lemma {:induction false} GotHeld(t: Tree, r: nat)
    requires RefsOk(t.kids, t.nref)
    ensures RefsOk(Got(t, r).kids, Got(t, r).nref) && Taken(Helds(t), Helds(Got(t, r)), r)
  {
  }

  // k is any other realm held.
  method GetRealm(t: Tree, ghost depth: nat -> nat, r: nat, ghost k: nat) returns (t': Tree)
    requires TreeOk(t, depth)
    ensures t' == Got(t, r) && TreeOk(t', depth)
    ensures Holds(t', r) && (Holds(t, k) ==> Holds(t', k)) && Taken(Helds(t), Helds(t'), r)
  {
    GotRefs(t, r, k);
    GotHeld(t, r);
    GotInfos(t, depth, r);
    t' := Got(t, r);
  }

  lemma {:induction false} GotInfos(t: Tree, depth: nat -> nat, r: nat)
    requires TreeOk(t, depth)
    ensures Ranked(Got(t, r).infos, depth) && KidsOk(Got(t, r).infos, Got(t, r).kids)
  {
    if r !in t.infos { CreateInfos(t.infos, t.kids, depth, r); }
  }

  lemma {:induction false} GotRefs(t: Tree, r: nat, k: nat)
    requires RefsOk(t.kids, t.nref)
    ensures RefsOk(Got(t, r).kids, Got(t, r).nref) && Holds(Got(t, r), r) && (Holds(t, k) ==> Holds(Got(t, r), k))
  {
  }

  lemma {:induction false} CreateInfos(infos: map<nat, Info>, kids: map<nat, set<nat>>, depth: nat -> nat, r: nat)
    requires Ranked(infos, depth) && KidsOk(infos, kids) && r !in infos
    ensures Ranked(infos[r := BLANK], depth) && KidsOk(infos[r := BLANK], kids[r := {}])
  {
    var infos', kids' := infos[r := BLANK], kids[r := {}];
    forall p <- kids', k ensures k in kids'[p] <==> IsKid(infos', p, k) {
      assert p in kids ==> (k in kids[p] <==> IsKid(infos, p, k));
    }
  }

  lemma {:induction false} HoldKeeps(t: Tree, r: nat, n: nat)
    requires RefsOk(t.kids, t.nref) && r in t.kids && 0 < n && n >= |t.kids[r]|
    ensures var t' := t.(nref := t.nref[r := n]);
      RefsOk(t'.kids, t'.nref) && forall x <- t'.kids :: Helds(t')[x] == if x == r then n - |t.kids[r]| else Helds(t)[x]
  {
  }

  // Realms have gone, but what is left is as it was.
  ghost predicate Fewer(infos: map<nat, Info>, infos': map<nat, Info>) {
    forall x <- infos' :: x in infos && infos'[x] == infos[x]
  }

  // The holder of a realm has let go of it; whatever else is held is still there.
  ghost predicate Released(held: map<nat, int>, held': map<nat, int>, r: nat) {
    && (forall x <- held' :: x in held && held'[x] == held[x] - if x == r then 1 else 0)
    && (forall x <- held :: held[x] > (if x == r then 1 else 0) ==> x in held')
  }

  // What is held from outside is held as before, and still there.
  ghost predicate SameHeld(held: map<nat, int>, held': map<nat, int>) {
    && (forall x <- held' :: held'[x] == if x in held then held[x] else 0)
    && (forall x <- held :: 0 <= held[x] && (held[x] > 0 ==> x in held'))
  }

  lemma {:induction false} SameHeldMore(a: map<nat, int>, b: map<nat, int>, c: map<nat, int>)
    requires SameHeld(a, b) && SameHeld(b, c)
    ensures SameHeld(a, c)
  {
  }

  // A reference to this parent, if there is one, passes from a child to its holder.
  ghost predicate Lent(held: map<nat, int>, held': map<nat, int>, p: Option<nat>) {
    && held'.Keys == held.Keys
    && forall x <- held :: 0 <= held[x] && held'[x] == held[x] + if p == Some(x) then 1 else 0
  }

  lemma {:induction false} LeaveHeld(a: map<nat, int>, b: map<nat, int>, c: map<nat, int>, p: nat)
    requires Lent(a, b, Some(p)) && Released(b, c, p)
    ensures SameHeld(a, c)
  {
  }

  lemma {:induction false} NothingLent(a: map<nat, int>, b: map<nat, int>)
    requires Lent(a, b, None)
    ensures SameHeld(a, b)
  {
  }

  // Someone takes hold of a realm, and another lets go of it.
  lemma {:induction false} TakeAndRelease(a: map<nat, int>, b: map<nat, int>, c: map<nat, int>, d: map<nat, int>,
                                          r: nat)
    requires (forall x <- a :: 0 <= a[x]) && Taken(a, b, r) && SameHeld(b, c) && Released(c, d, r)
    ensures SameHeld(a, d)
  {
  }

  // A realm has gone, and its parent too was let go of.
  lemma {:induction false} ReleasedMore(held: map<nat, int>, mid: map<nat, int>, held': map<nat, int>, r: nat, p: nat)
    requires r in held && held[r] == 1 && mid.Keys == held.Keys - {r}
    requires forall x <- mid :: mid[x] == held[x] + if x == p then 1 else 0
    requires Released(mid, held', p)
    ensures Released(held, held', r)
  {
  }

  function Unlinked(kids: map<nat, set<nat>>, p: Option<nat>, r: nat): map<nat, set<nat>> {
    if p.Some? && p.value in kids then kids[p.value := kids[p.value] - {r}] else kids
  }

  // A realm without references goes; its parent has one child less.
  function Erased(t: Tree, r: nat): Tree
    requires r in t.infos
  {
    Tree(t.infos - {r}, Unlinked(t.kids, t.infos[r].pparent, r) - {r}, t.nref - {r})
  }

  lemma {:induction false} EraseInfos(infos: map<nat, Info>, kids: map<nat, set<nat>>, depth: nat -> nat, r: nat)
    requires Ranked(infos, depth) && KidsOk(infos, kids) && r in infos && kids[r] == {}
    ensures Ranked(infos - {r}, depth)
    ensures KidsOk(infos - {r}, Unlinked(kids, infos[r].pparent, r) - {r})
  {
    var infos', kids' := infos - {r}, Unlinked(kids, infos[r].pparent, r) - {r};
    forall x <- infos' ensures infos'[x].pparent != Some(r) {
      assert !IsKid(infos, r, x);
    }
    forall p <- kids', k ensures k in kids'[p] <==> IsKid(infos', p, k) {
      assert k in kids[p] <==> IsKid(infos, p, k);
    }
  }

  lemma {:induction false} EraseKeeps(t: Tree, depth: nat -> nat, r: nat)
    requires TreeOk(t, depth) && r in t.infos && t.kids[r] == {}
    ensures var t' := Erased(t, r);
      && TreeOk(t', depth)
      && forall x <- t'.kids :: Helds(t')[x] == Helds(t)[x] + if t.infos[r].pparent == Some(x) then 1 else 0
  {
    EraseInfos(t.infos, t.kids, depth, r);
    if t.infos[r].pparent.Some? {
      assert IsKid(t.infos, t.infos[r].pparent.value, r);
    }
  }

  // put_snap_realm.
  method PutRealm(t: Tree, ghost depth: nat -> nat, r: nat) returns (t': Tree)
    requires TreeOk(t, depth) && Holds(t, r)
    ensures TreeOk(t', depth) && Fewer(t.infos, t'.infos) && Released(Helds(t), Helds(t'), r)
    ensures r in t'.infos <==> t.nref[r] > 1
    decreases depth(r)
  {
    if t.nref[r] > 1 {
      HoldKeeps(t, r, t.nref[r] - 1);
      return t.(nref := t.nref[r := t.nref[r] - 1]);
    }
    EraseKeeps(t, depth, r);
    var p := t.infos[r].pparent;
    var t1 := Erased(t, r);
    if p.None? { return t1; }
    t' := PutRealm(t1, depth, p.value);
    ReleasedMore(Helds(t), Helds(t1), Helds(t'), r, p.value);
  }

  // ---- adjust_realm_parent

  // With r below this parent, and all else as it is, the tree is ranked.
  ghost predicate RankedWith(infos: map<nat, Info>, depth: nat -> nat, r: nat, parent: nat) {
    && depth(parent) < depth(r)
    && forall x <- infos :: x != r && infos[x].pparent.Some? ==> depth(infos[x].pparent.value) < depth(x)
  }

  // r points to no parent for now.
  function Orphaned(t: Tree, r: nat, parent: nat): Tree
    requires r in t.infos
  {
    t.(infos := t.infos[r := t.infos[r].(parent := parent, pparent := None)],
       kids := Unlinked(t.kids, t.infos[r].pparent, r))
  }

  lemma {:induction false} OrphanInfos(infos: map<nat, Info>, kids: map<nat, set<nat>>, depth: nat -> nat, r: nat,
                                       parent: nat)
    requires Ranked(infos, depth) && KidsOk(infos, kids) && r in infos
    ensures var infos' := infos[r := infos[r].(parent := parent, pparent := None)];
      Ranked(infos', depth) && KidsOk(infos', Unlinked(kids, infos[r].pparent, r))
  {
    var infos' := infos[r := infos[r].(parent := parent, pparent := None)];
    var kids' := Unlinked(kids, infos[r].pparent, r);
    forall p <- kids', k ensures k in kids'[p] <==> IsKid(infos', p, k) {
      assert k in kids[p] <==> IsKid(infos, p, k);
    }
  }

  lemma {:induction false} OrphanRefs(kids: map<nat, set<nat>>, nref: map<nat, nat>, r: nat, p: nat)
    requires RefsOk(kids, nref) && p in kids && r in kids[p]
    ensures var kids' := kids[p := kids[p] - {r}];
      RefsOk(kids', nref) && Lent(Held(kids, nref), Held(kids', nref), Some(p))
  {
  }

  // r points to a parent that is held for it.
  function Adopted(t: Tree, r: nat, p: nat): Tree
    requires r in t.infos && p in t.kids
  {
    t.(infos := t.infos[r := t.infos[r].(pparent := Some(p))], kids := t.kids[p := t.kids[p] + {r}])
  }

  lemma {:induction false} AdoptInfos(infos: map<nat, Info>, kids: map<nat, set<nat>>, depth: nat -> nat, r: nat,
                                      p: nat)
    requires Ranked(infos, depth) && KidsOk(infos, kids) && r in infos && infos[r].pparent.None? && p in infos
    requires depth(p) < depth(r)
    ensures var infos' := infos[r := infos[r].(pparent := Some(p))];
      Ranked(infos', depth) && KidsOk(infos', kids[p := kids[p] + {r}])
  {
    var infos' := infos[r := infos[r].(pparent := Some(p))];
    var kids' := kids[p := kids[p] + {r}];
    forall q <- kids', k ensures k in kids'[q] <==> IsKid(infos', q, k) {
      assert k in kids[q] <==> IsKid(infos, q, k);
    }
  }

  lemma {:induction false} AdoptRefs(kids: map<nat, set<nat>>, nref: map<nat, nat>, r: nat, p: nat)
    requires RefsOk(kids, nref) && p in kids && r !in kids[p] && Held(kids, nref)[p] > 0
    ensures var kids' := kids[p := kids[p] + {r}];
      RefsOk(kids', nref) && forall x <- kids' :: Held(kids', nref)[x] == Held(kids, nref)[x] - if x == p then 1 else 0
  {
  }

  // Of the realms other than r, those kept are as they were; only its new parent may be new,
  // and is blank then.
  ghost predicate OthersSame(infos: map<nat, Info>, infos': map<nat, Info>, r: nat, parent: nat, kept: set<nat>) {
    forall x <- infos' :: x != r ==>
      if x in kept then x in infos && infos'[x] == infos[x] else x == parent && infos'[x] == BLANK
  }

  // Whatever is held from outside is kept.
  ghost predicate HeldKept(held: map<nat, int>, kept: set<nat>) { forall x <- held :: held[x] > 0 ==> x in kept }

  // The parents of realms kept are kept.
  ghost predicate ParentsKept(infos: map<nat, Info>, r: nat, kept: set<nat>) {
    forall x <- infos :: x != r && x in kept && infos[x].pparent.Some? ==> infos[x].pparent.value in kept
  }

  lemma {:induction false} OrphanKeeps(t: Tree, depth: nat -> nat, r: nat, parent: nat)
    requires TreeOk(t, depth) && Holds(t, r)
    ensures TreeOk(Orphaned(t, r, parent), depth) && Holds(Orphaned(t, r, parent), r)
    ensures t.infos[r].pparent.Some? ==> Holds(Orphaned(t, r, parent), t.infos[r].pparent.value)
    ensures Lent(Helds(t), Helds(Orphaned(t, r, parent)), t.infos[r].pparent)
  {
    OrphanInfos(t.infos, t.kids, depth, r, parent);
    var p := t.infos[r].pparent;
    if p.Some? {
      assert IsKid(t.infos, p.value, r);
      OrphanRefs(t.kids, t.nref, r, p.value);
    }
  }

  function WithParent(infos: map<nat, Info>, r: nat, parent: nat, pparent: Option<nat>): map<nat, Info>
    requires r in infos
  {
    infos[r := infos[r].(parent := parent, pparent := pparent)]
  }

  // Realms may have gone; r has no parent, and the others left are as they were.
  ghost predicate LeftBehind(infos: map<nat, Info>, infos': map<nat, Info>, r: nat, parent: nat) {
    && r in infos && r in infos' && infos'[r] == infos[r].(parent := parent, pparent := None)
    && forall x <- infos' :: x != r ==> x in infos && infos'[x] == infos[x]
  }

  lemma {:induction false} LeftBehindIs(infos: map<nat, Info>, infos': map<nat, Info>, r: nat, parent: nat)
    requires r in infos && r in infos' && Fewer(WithParent(infos, r, parent, None), infos')
    ensures LeftBehind(infos, infos', r, parent)
  {
  }

  // The old parent loses r and is let go of.
  method Leave(t: Tree, ghost depth: nat -> nat, r: nat, parent: nat) returns (t': Tree)
    requires TreeOk(t, depth) && Holds(t, r)
    ensures TreeOk(t', depth) && Holds(t', r) && LeftBehind(t.infos, t'.infos, r, parent)
    ensures SameHeld(Helds(t), Helds(t'))
  {
    OrphanKeeps(t, depth, r, parent);
    var t1 := Orphaned(t, r, parent);
    var p := t.infos[r].pparent;
    if p.Some? {
      t' := LetGo(t1, depth, p.value, r);
      LeaveHeld(Helds(t), Helds(t1), Helds(t'), p.value);
    } else {
      t' := t1;
      NothingLent(Helds(t), Helds(t1));
    }
    LeftBehindIs(t.infos, t'.infos, r, parent);
  }

  method LetGo(t: Tree, ghost depth: nat -> nat, p: nat, ghost r: nat) returns (t': Tree)
    requires TreeOk(t, depth) && Holds(t, p) && Holds(t, r) && r != p
    ensures TreeOk(t', depth) && Fewer(t.infos, t'.infos) && Holds(t', r) && Released(Helds(t), Helds(t'), p)
  {
    t' := PutRealm(t, depth, p);
    StillHeld(t, t', p, r);
  }

  lemma {:induction false} StillHeld(t: Tree, t': Tree, p: nat, r: nat)
    requires RefsOk(t.kids, t.nref) && RefsOk(t'.kids, t'.nref) && Released(Helds(t), Helds(t'), p)
    requires Holds(t, r) && r != p
    ensures Holds(t', r)
  {
    assert r in Helds(t) && Helds(t)[r] > 0;
    assert r in Helds(t');
  }

  // The new parent is held and gets r.
  method Enter(t: Tree, ghost depth: nat -> nat, r: nat, parent: nat) returns (t': Tree)
    requires TreeOk(t, depth) && Holds(t, r) && t.infos[r].pparent.None? && depth(parent) < depth(r)
    ensures TreeOk(t', depth) && Holds(t', r) && t'.infos == Entered(t.infos, r, parent)
    ensures SameHeld(Helds(t), Helds(t'))
  {
    var t1 := GetRealm(t, depth, parent, r);
    GotSame(t, r, parent);
    AdoptKeeps(t1, depth, r, parent);
    t' := Adopted(t1, r, parent);
    EnterHeld(Helds(t), Helds(t1), Helds(t'), parent);
  }

  lemma {:induction false} EnterHeld(a: map<nat, int>, b: map<nat, int>, c: map<nat, int>, p: nat)
    requires (forall x <- a :: 0 <= a[x]) && Taken(a, b, p) && c.Keys == b.Keys
    requires forall x <- c :: c[x] == b[x] - if x == p then 1 else 0
    ensures SameHeld(a, c)
  {
  }

  lemma {:induction false} GotSame(t: Tree, r: nat, parent: nat)
    requires r in t.infos && t.kids.Keys == t.infos.Keys && t.nref.Keys == t.infos.Keys
    ensures var t1 := Got(t, parent);
      r in t1.infos && parent in t1.kids && t1.infos[r] == t.infos[r] &&
        Adopted(t1, r, parent).infos == Entered(t.infos, r, parent)
  {
  }

  function Entered(infos: map<nat, Info>, r: nat, parent: nat): map<nat, Info>
    requires r in infos
  {
    var infos1 := if parent in infos then infos else infos[parent := BLANK];
    infos1[r := infos1[r].(pparent := Some(parent))]
  }

  lemma {:induction false} AdoptKeeps(t: Tree, depth: nat -> nat, r: nat, p: nat)
    requires TreeOk(t, depth) && Holds(t, r) && t.infos[r].pparent.None? && Holds(t, p) && depth(p) < depth(r)
    ensures TreeOk(Adopted(t, r, p), depth) && Holds(Adopted(t, r, p), r)
    ensures forall x <- t.kids :: Helds(Adopted(t, r, p))[x] == Helds(t)[x] - if x == p then 1 else 0
  {
    assert !IsKid(t.infos, p, r);
    AdoptInfos(t.infos, t.kids, depth, r, p);
    AdoptRefs(t.kids, t.nref, r, p);
  }

  // The caches that go with these realms: those not kept start out cleared.
  function Recached(cached: map<nat, Context>, infos: map<nat, Info>, kept: set<nat>): map<nat, Context> {
    map x | x in infos :: if x in kept && x in cached then cached[x] else CLEARED
  }

  method AdjustParent(t: Tree, cached: map<nat, Context>, ghost depth: nat -> nat, r: nat, parent: nat,
                      ghost depth': nat -> nat)
    returns (t': Tree, cached': map<nat, Context>, changed: bool, ghost kept: set<nat>)
    requires TreeOk(t, depth) && Holds(t, r) && cached.Keys == t.infos.Keys
    requires t.infos[r].parent != parent ==> RankedWith(t.infos, depth', r, parent)
    ensures changed == (t.infos[r].parent != parent) && (!changed ==> t' == t && cached' == cached)
    ensures TreeOk(t', if changed then depth' else depth) && Holds(t', r)
    ensures t'.infos[r] == if changed then t.infos[r].(parent := parent, pparent := Some(parent)) else t.infos[r]
    ensures OthersSame(t.infos, t'.infos, r, parent, kept) && ParentsKept(t.infos, r, kept)
    ensures cached' == Recached(cached, t'.infos, kept)
    ensures SameHeld(Helds(t), Helds(t')) && HeldKept(Helds(t), kept)
  {
    changed := t.infos[r].parent != parent;
    t', cached', kept := t, cached, t.infos.Keys;
    if changed {
      t', cached', kept := Move(t, cached, depth, r, parent, depth');
    }
  }

  // From the old parent to the new one.
  method Move(t: Tree, cached: map<nat, Context>, ghost depth: nat -> nat, r: nat, parent: nat,
              ghost depth': nat -> nat)
    returns (t': Tree, cached': map<nat, Context>, ghost kept: set<nat>)
    requires TreeOk(t, depth) && Holds(t, r) && RankedWith(t.infos, depth', r, parent)
    ensures TreeOk(t', depth') && Holds(t', r) && t'.infos[r] == t.infos[r].(parent := parent, pparent := Some(parent))
    ensures OthersSame(t.infos, t'.infos, r, parent, kept) && ParentsKept(t.infos, r, kept)
    ensures cached' == Recached(cached, t'.infos, kept)
    ensures SameHeld(Helds(t), Helds(t')) && HeldKept(Helds(t), kept)
  {
    var t1 := LeaveRanked(t, depth, r, parent, depth');
    t' := Enter(t1, depth', r, parent);
    SameHeldMore(Helds(t), Helds(t1), Helds(t'));
    kept := t1.infos.Keys;
    cached' := Recached(cached, t'.infos, t1.infos.Keys);
  }

  method LeaveRanked(t: Tree, ghost depth: nat -> nat, r: nat, parent: nat, ghost depth': nat -> nat) returns (t': Tree)
    requires TreeOk(t, depth) && Holds(t, r) && RankedWith(t.infos, depth', r, parent)
    ensures TreeOk(t', depth') && Holds(t', r) && t'.infos[r].pparent.None?
    ensures Entered(t'.infos, r, parent)[r] == t.infos[r].(parent := parent, pparent := Some(parent))
    ensures ParentsKept(t.infos, r, t'.infos.Keys)
    ensures OthersSame(t.infos, Entered(t'.infos, r, parent), r, parent, t'.infos.Keys)
    ensures SameHeld(Helds(t), Helds(t')) && HeldKept(Helds(t), t'.infos.Keys)
  {
    t' := Leave(t, depth, r, parent);
    KeptRanked(t.infos, t'.infos, depth, depth', r, parent);
    EnteredSame(t.infos, t'.infos, r, parent);
  }

  lemma {:induction false} KeptRanked(infos: map<nat, Info>, infos1: map<nat, Info>, depth: nat -> nat,
                                      depth': nat -> nat,
                                      r: nat, parent: nat)
    requires Ranked(infos1, depth) && RankedWith(infos, depth', r, parent) && LeftBehind(infos, infos1, r, parent)
    ensures Ranked(infos1, depth') && ParentsKept(infos, r, infos1.Keys)
  {
  }

  lemma {:induction false} EnteredSame(infos: map<nat, Info>, infos1: map<nat, Info>, r: nat, parent: nat)
    requires LeftBehind(infos, infos1, r, parent)
    ensures OthersSame(infos, Entered(infos1, r, parent), r, parent, infos1.Keys)
    ensures Entered(infos1, r, parent)[r] == infos[r].(parent := parent, pparent := Some(parent))
  {
  }

  // ---- update_snap_trace

  /** Once a changed realm and all below it are cleared, the rest is right. */
  lemma {:induction false} ClearedIsRight(infos: map<nat, Info>, depth: nat -> nat, cached: map<nat, Context>,
                       infos': map<nat, Info>, depth': nat -> nat, cached': map<nat, Context>,
                       e: set<nat>, r: nat, parent: nat, kept: set<nat>)
    requires CacheOk(infos, depth, cached) && Ranked(infos', depth') && OthersSame(infos, infos', r, parent, kept)
    requires ParentsKept(infos, r, kept)
    requires Closed(infos', e) && r in e && cached'.Keys == infos'.Keys
    requires forall x <- infos' :: cached'[x] == if x in e then CLEARED else Recached(cached, infos', kept)[x]
    ensures CacheOk(infos', depth', cached')
  {
    var e' := e + (infos'.Keys - kept);
    forall x <- infos' ensures Fits(infos', depth', cached'[x], x) {
      if x !in e' {
        MeanFrame(infos, depth, infos', depth', e', x);
        assert Fits(infos, depth, cached[x], x);
      }
    }
  }

  // One entry of a snapshot trace.
  datatype Entry = Entry(ino: nat, seqNo: nat, parent: nat, since: nat, prior: seq<nat>, mine: seq<nat>)

  function Heard(i: Info, e: Entry): Info {
    var i := if i.parent != e.parent then i.(parent := e.parent, pparent := Some(e.parent)) else i;
    if e.seqNo > i.seqNo then Info(e.seqNo, i.parent, i.pparent, e.since, e.prior, e.mine) else i
  }

  function InfoOf(infos: map<nat, Info>, r: nat): Info { if r in infos then infos[r] else BLANK }

  lemma {:induction false} NewIsRight(infos: map<nat, Info>, depth: nat -> nat, cached: map<nat, Context>, r: nat)
    requires CacheOk(infos, depth, cached) && r !in infos && Ranked(infos[r := BLANK], depth)
    ensures CacheOk(infos[r := BLANK], depth, cached[r := CLEARED])
  {
    ClearedIsRight(infos, depth, cached, infos[r := BLANK], depth, cached[r := CLEARED], {r}, r, r, infos.Keys);
  }

  lemma {:induction false} FewerIsRight(infos: map<nat, Info>, depth: nat -> nat, cached: map<nat, Context>,
                                        infos': map<nat, Info>)
    requires CacheOk(infos, depth, cached) && Ranked(infos', depth) && Fewer(infos, infos')
    ensures CacheOk(infos', depth, Recached(cached, infos', infos'.Keys))
  {
    forall r <- infos' ensures Fits(infos', depth, cached[r], r) {
      MeanFrame(infos, depth, infos', depth, {}, r);
      assert Fits(infos, depth, cached[r], r);
    }
  }

  lemma {:induction false} RefreshInfos(infos: map<nat, Info>, kids: map<nat, set<nat>>, depth: nat -> nat, r: nat,
                                        i: Info)
    requires Ranked(infos, depth) && KidsOk(infos, kids) && r in infos && i.pparent == infos[r].pparent
    ensures Ranked(infos[r := i], depth) && KidsOk(infos[r := i], kids)
  {
    var infos' := infos[r := i];
    forall p <- kids, k ensures k in kids[p] <==> IsKid(infos', p, k) {
      assert k in kids[p] <==> IsKid(infos, p, k);
    }
  }

  lemma {:induction false} RefreshKeeps(t: Tree, depth: nat -> nat, r: nat, i: Info)
    requires TreeOk(t, depth) && Holds(t, r) && i.pparent == t.infos[r].pparent
    ensures TreeOk(t.(infos := t.infos[r := i]), depth) && Holds(t.(infos := t.infos[r := i]), r)
  {
    RefreshInfos(t.infos, t.kids, depth, r, i);
  }

  lemma {:induction false} RefreshSame(infos: map<nat, Info>, infos1: map<nat, Info>, r: nat, parent: nat,
                                       kept: set<nat>, i: Info, cached: map<nat, Context>)
    requires OthersSame(infos, infos1, r, parent, kept) && r in infos1
    ensures OthersSame(infos, infos1[r := i], r, parent, kept)
    ensures Recached(cached, infos1[r := i], kept) == Recached(cached, infos1, kept)
  {
  }

  // Take over what an entry says; its realm exists and is held.
  method Learn(t: Tree, cached: map<nat, Context>, ghost depth: nat -> nat, e: Entry, ghost depth': nat -> nat)
    returns (t': Tree, cached': map<nat, Context>, invalidate: bool, ghost d: nat -> nat, ghost kept: set<nat>)
    requires TreeOk(t, depth) && cached.Keys == t.infos.Keys && Holds(t, e.ino)
    requires t.infos[e.ino].parent != e.parent ==> RankedWith(t.infos, depth', e.ino, e.parent)
    ensures TreeOk(t', d) && Holds(t', e.ino) && t'.infos[e.ino] == Heard(t.infos[e.ino], e)
    ensures OthersSame(t.infos, t'.infos, e.ino, e.parent, kept) && ParentsKept(t.infos, e.ino, kept)
    ensures cached' == Recached(cached, t'.infos, kept)
    ensures !invalidate ==> t' == t && cached' == cached && d == depth
    ensures SameHeld(Helds(t), Helds(t')) && HeldKept(Helds(t), kept)
  {
    var r := e.ino;
    t', cached', invalidate, kept := AdjustParent(t, cached, depth, r, e.parent, depth');
    d := if invalidate then depth' else depth;
    var i := t'.infos[r];
    if e.seqNo > i.seqNo {
      i := Info(e.seqNo, i.parent, i.pparent, e.since, e.prior, e.mine);
      RefreshKeeps(t', d, r, i);
      RefreshSame(t.infos, t'.infos, r, e.parent, kept, i, cached);
      t' := t'.(infos := t'.infos[r := i]);
      invalidate := true;
    }
  }

  // And clear what depends on it.
  method Hear(t: Tree, cached: map<nat, Context>, ghost depth: nat -> nat, e: Entry, ghost depth': nat -> nat)
    returns (t': Tree, cached': map<nat, Context>, ghost d: nat -> nat, ghost kept: set<nat>)
    requires TreeOk(t, depth) && CacheOk(t.infos, depth, cached) && Holds(t, e.ino)
    requires t.infos[e.ino].parent != e.parent ==> RankedWith(t.infos, depth', e.ino, e.parent)
    ensures TreeOk(t', d) && CacheOk(t'.infos, d, cached') && Holds(t', e.ino)
    ensures t'.infos[e.ino] == Heard(t.infos[e.ino], e) && OthersSame(t.infos, t'.infos, e.ino, e.parent, kept)
    ensures SameHeld(Helds(t), Helds(t')) && HeldKept(Helds(t), kept)
  {
    var invalidate;
    t', cached', invalidate, d, kept := Learn(t, cached, depth, e, depth');
    if invalidate {
      ghost var done;
      cached', done := Invalidate(t'.infos, t'.kids, cached', d, e.ino);
      ClearedIsRight(t.infos, depth, cached, t'.infos, d, cached', done, e.ino, e.parent, kept);
    }
  }

  // ---- cycles

  // Going up from x one comes to r; seen are the realms passed on the way.
  predicate Above(infos: map<nat, Info>, x: nat, r: nat, seen: set<nat>)
    decreases infos.Keys - seen
  {
    x == r || (x in infos && x !in seen && infos[x].pparent.Some? &&
      Above(infos, infos[x].pparent.value, r, seen + {x}))
  }

  // In a tree it does not matter what was passed.
  lemma {:induction false} AboveSeen(infos: map<nat, Info>, depth: nat -> nat, x: nat, r: nat, seen: set<nat>)
    requires Ranked(infos, depth) && forall y <- seen :: depth(x) < depth(y)
    ensures Above(infos, x, r, seen) == Above(infos, x, r, {})
    decreases depth(x)
  {
    if x in infos && infos[x].pparent.Some? {
      var p := infos[x].pparent.value;
      AboveSeen(infos, depth, p, r, seen + {x});
      AboveSeen(infos, depth, p, r, {} + {x});
    }
  }

  lemma {:induction false} AboveParent(infos: map<nat, Info>, depth: nat -> nat, x: nat, r: nat)
    requires Ranked(infos, depth) && x in infos && infos[x].pparent.Some? && x != r
    ensures Above(infos, x, r, {}) == Above(infos, infos[x].pparent.value, r, {})
  {
    AboveSeen(infos, depth, infos[x].pparent.value, r, {} + {x});
  }

  // The ranking in which r and all below it are deeper than the new parent.
  ghost function Reranked(infos: map<nat, Info>, depth: nat -> nat, r: nat, parent: nat): nat -> nat {
    x => depth(x) + if Above(infos, x, r, {}) then depth(parent) + 1 else 0
  }

  /** A realm can be put below any other that is not at or below it. */
  lemma {:induction false} RerankedRanks(infos: map<nat, Info>, depth: nat -> nat, r: nat, parent: nat)
    requires Ranked(infos, depth) && !Above(infos, parent, r, {})
    ensures RankedWith(infos, Reranked(infos, depth, r, parent), r, parent)
  {
    var depth' := Reranked(infos, depth, r, parent);
    assert Above(infos, r, r, {});
    forall x <- infos | x != r && infos[x].pparent.Some? ensures depth'(infos[x].pparent.value) < depth'(x) {
      AboveParent(infos, depth, x, r);
    }
  }

  // Whatever the ranking, a realm comes after those above it.
  lemma {:induction false} AboveIsHigher(infos: map<nat, Info>, depth: nat -> nat, x: nat, r: nat, seen: set<nat>)
    requires forall y <- infos :: y != r && infos[y].pparent.Some? ==> depth(infos[y].pparent.value) < depth(y)
    requires Above(infos, x, r, seen)
    ensures depth(r) <= depth(x)
    decreases infos.Keys - seen
  {
    if x != r { AboveIsHigher(infos, depth, infos[x].pparent.value, r, seen + {x}); }
  }

  /** A realm put at or below itself leaves no ranking: the tree has a cycle. */
  lemma {:induction false} CycleHasNoRanks(infos: map<nat, Info>, depth: nat -> nat, r: nat, parent: nat)
    requires Above(infos, parent, r, {})
    ensures !RankedWith(infos, depth, r, parent)
  {
    if RankedWith(infos, depth, r, parent) { AboveIsHigher(infos, depth, parent, r, {}); }
  }

  // Would this entry make a cycle?
  predicate Cycle(infos: map<nat, Info>, e: Entry) {
    InfoOf(infos, e.ino).parent != e.parent && Above(Known(infos, e.ino), e.parent, e.ino, {})
  }

  function Known(infos: map<nat, Info>, r: nat): map<nat, Info> { if r in infos then infos else infos[r := BLANK] }

  // One turn of the loop of update_snap_trace.
  method Apply(t: Tree, cached: map<nat, Context>, ghost depth: nat -> nat, e: Entry)
    returns (t': Tree, cached': map<nat, Context>, ghost d: nat -> nat)
    requires TreeOk(t, depth) && CacheOk(t.infos, depth, cached) && !Cycle(t.infos, e)
    ensures TreeOk(t', d) && CacheOk(t'.infos, d, cached')
    ensures Applied(t.infos, t'.infos, e, HeldSet(Helds(t))) && SameHeld(Helds(t), Helds(t'))
  {
    ghost var kept;
    var t1, cached1 := Find(t, cached, depth, e.ino);
    var t2, cached2;
    t2, cached2, d, kept := HearRanked(t1, cached1, depth, e);
    t', cached' := Finish(t2, cached2, d, e.ino);
    TakeAndRelease(Helds(t), Helds(t1), Helds(t2), Helds(t'), e.ino);
    HeldStayKept(Helds(t), Helds(t1), Helds(t'), e.ino, kept);
    AppliedIs(t.infos, t1.infos, t2.infos, t'.infos, e, HeldSet(Helds(t)), kept);
  }

  lemma {:induction false} HeldStayKept(a: map<nat, int>, b: map<nat, int>, d: map<nat, int>, r: nat, kept: set<nat>)
    requires Taken(a, b, r) && HeldKept(b, kept) && SameHeld(a, d)
    ensures HeldSet(a) <= kept && HeldSet(a) <= d.Keys
  {
  }

  method HearRanked(t: Tree, cached: map<nat, Context>, ghost depth: nat -> nat, e: Entry)
    returns (t': Tree, cached': map<nat, Context>, ghost d: nat -> nat, ghost kept: set<nat>)
    requires TreeOk(t, depth) && CacheOk(t.infos, depth, cached) && Holds(t, e.ino)
    requires t.infos[e.ino].parent != e.parent ==> !Above(t.infos, e.parent, e.ino, {})
    ensures TreeOk(t', d) && CacheOk(t'.infos, d, cached') && Holds(t', e.ino)
    ensures t'.infos[e.ino] == Heard(t.infos[e.ino], e) && OthersSame(t.infos, t'.infos, e.ino, e.parent, kept)
    ensures SameHeld(Helds(t), Helds(t')) && HeldKept(Helds(t), kept)
  {
    ghost var depth' := Reranked(t.infos, depth, e.ino, e.parent);
    if t.infos[e.ino].parent != e.parent { RerankedRanks(t.infos, depth, e.ino, e.parent); }
    t', cached', d, kept := Hear(t, cached, depth, e, depth');
  }

  // The realm has the entry's parent; the rest of a newer entry is taken over, and that of a stale
  // one is not.
  predicate TakesEntry(i: Info, i': Info, e: Entry) {
    && i'.parent == e.parent && i'.pparent == (if i.parent == e.parent then i.pparent else Some(e.parent))
    && (e.seqNo > i.seqNo ==>
          i'.seqNo == e.seqNo && i'.since == e.since && i'.prior == e.prior && i'.mine == e.mine)
    && (e.seqNo <= i.seqNo ==>
          i'.seqNo == i.seqNo && i'.since == i.since && i'.prior == i.prior && i'.mine == i.mine)
  }

  /** What a newer entry makes of the realm's context: its snapshots, and those of its parent since
      it became the parent. */
  lemma {:induction false} EntryMeans(infos: map<nat, Info>, infos': map<nat, Info>, depth: nat -> nat, e: Entry,
                                      held: set<nat>, x: nat)
    requires Applied(infos, infos', e, held) && Ranked(infos', depth) && e.ino in infos'
    requires e.seqNo > InfoOf(infos, e.ino).seqNo && infos'[e.ino].pparent.Some?
    ensures infos'[e.ino].pparent.value in infos'
    ensures var m, p := Mean(infos', depth, e.ino), Mean(infos', depth, infos'[e.ino].pparent.value);
      && m.seqNo >= e.seqNo && m.seqNo >= p.seqNo && (m.seqNo == e.seqNo || m.seqNo == p.seqNo)
      && (x in m.snaps <==> x in e.prior || x in e.mine || (x in p.snaps && x >= e.since))
  {
  }

  // The realm the entry is about knows what it says; those held are there, and the others left
  // are as they were, apart from a parent made anew.
  ghost predicate Applied(infos: map<nat, Info>, infos': map<nat, Info>, e: Entry, held: set<nat>) {
    && held <= infos'.Keys
    && (e.ino in infos' ==> TakesEntry(InfoOf(infos, e.ino), infos'[e.ino], e))
    && forall x <- infos' :: x != e.ino ==>
      (x in infos && infos'[x] == infos[x]) || (x == e.parent && x !in held && infos'[x] == BLANK)
  }

  lemma {:induction false} AppliedIs(infos: map<nat, Info>, infos1: map<nat, Info>, infos2: map<nat, Info>,
                                     infos': map<nat, Info>, e: Entry, held: set<nat>, kept: set<nat>)
    requires infos1 == Known(infos, e.ino) && held <= kept && held <= infos'.Keys
    requires e.ino in infos2 && infos2[e.ino] == Heard(infos1[e.ino], e)
    requires OthersSame(infos1, infos2, e.ino, e.parent, kept) && Fewer(infos2, infos')
    ensures Applied(infos, infos', e, held)
  {
  }

  // The realms held from outside.
  ghost function HeldSet(held: map<nat, int>): set<nat> { set x <- held | held[x] > 0 }

  method Finish(t: Tree, cached: map<nat, Context>, ghost depth: nat -> nat, r: nat)
    returns (t': Tree, cached': map<nat, Context>)
    requires TreeOk(t, depth) && CacheOk(t.infos, depth, cached) && Holds(t, r)
    ensures TreeOk(t', depth) && CacheOk(t'.infos, depth, cached') && Fewer(t.infos, t'.infos)
    ensures Released(Helds(t), Helds(t'), r) && (r in t'.infos <==> t.nref[r] > 1)
  {
    t' := PutRealm(t, depth, r);
    FewerIsRight(t.infos, depth, cached, t'.infos);
    cached' := Recached(cached, t'.infos, t'.infos.Keys);
  }

  method Find(t: Tree, cached: map<nat, Context>, ghost depth: nat -> nat, r: nat)
    returns (t': Tree, cached': map<nat, Context>)
    requires TreeOk(t, depth) && CacheOk(t.infos, depth, cached)
    ensures TreeOk(t', depth) && CacheOk(t'.infos, depth, cached') && Holds(t', r)
    ensures t'.infos == Known(t.infos, r) && Taken(Helds(t), Helds(t'), r)
  {
    cached' := cached;
    t' := GetRealm(t, depth, r, r);
    if r !in t.infos {
      NewIsRight(t.infos, depth, cached, r);
      cached' := cached[r := CLEARED];
    }
  }

  // ---- the client's realms

  // The inodes whose capabilities hold this realm.
  function Holders(inodes: map<nat, nat>, r: nat): set<nat> { set i <- inodes | inodes[i] == r }

  // What is held from outside is held by inodes with capabilities, and by nothing else.
  ghost predicate Accounts(held: map<nat, int>, inodes: map<nat, nat>) {
    (forall r <- held :: held[r] == |Holders(inodes, r)|) && (forall i <- inodes :: inodes[i] in held)
  }

  ghost predicate HeldBy(t: Tree, inodes: map<nat, nat>) { RefsOk(t.kids, t.nref) && Accounts(Helds(t), inodes) }

  lemma {:induction false} NoHolders(held: map<nat, int>, inodes: map<nat, nat>, r: nat)
    requires Accounts(held, inodes) && r !in held
    ensures Holders(inodes, r) == {}
  {
    assert forall i <- inodes :: inodes[i] != r;
  }

  lemma {:induction false} HeldStays(held: map<nat, int>, held': map<nat, int>, inodes: map<nat, nat>)
    requires SameHeld(held, held') && Accounts(held, inodes)
    ensures Accounts(held', inodes)
  {
    forall i <- inodes ensures inodes[i] in held' {
      assert i in Holders(inodes, inodes[i]);
    }
    forall r <- held' ensures held'[r] == |Holders(inodes, r)| {
      if r !in held { NoHolders(held, inodes, r); }
    }
  }

  // All realms with their caches, and the realm that each inode with capabilities holds.
  datatype State = State(tree: Tree, cached: map<nat, Context>, inodes: map<nat, nat>)

  ghost predicate StateOk(s: State, depth: nat -> nat) {
    TreeOk(s.tree, depth) && CacheOk(s.tree.infos, depth, s.cached) && HeldBy(s.tree, s.inodes)
  }

  // The first n entries have been taken over, one after the other.
  ghost predicate TakingOver(infos: map<nat, Info>, es: seq<Entry>, n: nat, states: seq<map<nat, Info>>,
                             held: set<nat>) {
    && n <= |es| && |states| == n + 1 && states[0] == infos
    && (forall k :: 0 <= k < n ==> !Cycle(states[k], es[k]) && Applied(states[k], states[k + 1], es[k], held))
  }

  // And the rest begins, if there is one, with an entry that would make a cycle.
  ghost predicate TakenOver(infos: map<nat, Info>, es: seq<Entry>, n: nat, states: seq<map<nat, Info>>,
                            held: set<nat>) {
    TakingOver(infos, es, n, states, held) && (n < |es| ==> Cycle(states[n], es[n]))
  }

  lemma {:induction false} TakeMore(infos: map<nat, Info>, es: seq<Entry>, n: nat, states: seq<map<nat, Info>>,
                                    held: set<nat>, next: map<nat, Info>)
    requires n < |es| && TakingOver(infos, es, n, states, held)
    requires !Cycle(states[n], es[n]) && Applied(states[n], next, es[n], held)
    ensures TakingOver(infos, es, n + 1, states + [next], held)
  {
  }

  class RealmCache {
    var s: State
    ghost var depth: nat -> nat

    ghost predicate Valid() reads this { StateOk(s, depth) }

    constructor ()
      ensures Valid() && s.tree.infos == map[] && s.inodes == map[]
    {
      s, depth := State(Tree(map[], map[], map[]), map[], map[]), x => x;
    }

    /** The context handed out is the one the definition gives, newest snapshot first. */
    method GetSnapContext(r: nat) returns (c: Context)
      requires Valid() && r in s.tree.infos
      modifies this`s
      ensures Valid() && s == old(s).(cached := s.cached) && IsContextOf(c, s.tree.infos, depth, r)
    {
      var cached;
      cached, c := GetContext(s.tree.infos, s.cached, depth, r);
      s := s.(cached := cached);
    }

    /** One entry: nothing that an inode holds is freed. */
    method UpdateRealm(e: Entry)
      requires Valid() && !Cycle(s.tree.infos, e)
      modifies this
      ensures Valid() && s.inodes == old(s.inodes) && Applied(old(s.tree.infos), s.tree.infos, e, s.inodes.Values)
    {
      s, depth := TakeEntry(s, depth, e);
    }

    /** update_snap_trace, up to the first entry, if any, that would make a cycle: each entry is
        taken over in turn, and every context that is cached is right. */
    method UpdateTrace(es: seq<Entry>) returns (n: nat, ghost states: seq<map<nat, Info>>)
      requires Valid()
      modifies this
      ensures Valid() && s.inodes == old(s.inodes)
      ensures TakenOver(old(s.tree.infos), es, n, states, s.inodes.Values) && s.tree.infos == states[n]
    {
      n, states := 0, [s.tree.infos];
      while n < |es| && !Cycle(s.tree.infos, es[n])
        invariant n <= |es| && Valid() && s.inodes == old(s.inodes)
        invariant TakingOver(old(s.tree.infos), es, n, states, s.inodes.Values) && s.tree.infos == states[n]
      {
        UpdateRealm(es[n]);
        TakeMore(old(s.tree.infos), es, n, states, s.inodes.Values, s.tree.infos);
        n, states := n + 1, states + [s.tree.infos];
      }
    }

    /** The first capability of an inode: it holds the realm from now on. */
    method OpenInode(i: nat, r: nat)
      requires Valid() && i !in s.inodes
      modifies this`s
      ensures Valid() && s.inodes == old(s.inodes)[i := r] && s.tree.infos == Known(old(s.tree.infos), r)
    {
      s := Hold(s, depth, i, r);
    }

    /** The last capability of an inode goes: its realm is let go of. */
    method CloseInode(i: nat)
      requires Valid() && i in s.inodes
      modifies this`s
      ensures Valid() && s.inodes == old(s.inodes) - {i} && Fewer(old(s.tree.infos), s.tree.infos)
      ensures Goes(old(s), i) <==> old(s.inodes)[i] !in s.tree.infos
    {
      s := Release(s, depth, i);
    }
  }

  method TakeEntry(s: State, ghost depth: nat -> nat, e: Entry) returns (s': State, ghost d: nat -> nat)
    requires StateOk(s, depth) && !Cycle(s.tree.infos, e)
    ensures StateOk(s', d) && s'.inodes == s.inodes && Applied(s.tree.infos, s'.tree.infos, e, s.inodes.Values)
  {
    var t, cached;
    t, cached, d := Apply(s.tree, s.cached, depth, e);
    HeldStays(Helds(s.tree), Helds(t), s.inodes);
    HeldAreValues(Helds(s.tree), s.inodes);
    s' := State(t, cached, s.inodes);
  }

  lemma {:induction false} HeldAreValues(held: map<nat, int>, inodes: map<nat, nat>)
    requires Accounts(held, inodes)
    ensures HeldSet(held) == inodes.Values
  {
    forall r | r in inodes.Values ensures r in HeldSet(held) {
      var i :| i in inodes && inodes[i] == r;
      assert i in Holders(inodes, r);
    }
    forall r | r in HeldSet(held) ensures r in inodes.Values {
      assert Holders(inodes, r) != {};
    }
  }

  method Hold(s: State, ghost depth: nat -> nat, i: nat, r: nat) returns (s': State)
    requires StateOk(s, depth) && i !in s.inodes
    ensures StateOk(s', depth) && s'.inodes == s.inodes[i := r] && s'.tree.infos == Known(s.tree.infos, r)
  {
    var t, cached := Find(s.tree, s.cached, depth, r);
    OpenHeld(Helds(s.tree), Helds(t), s.inodes, i, r);
    s' := State(t, cached, s.inodes[i := r]);
  }

  // Nothing else refers to the realm that the inode holds: no other inode and no child.
  ghost predicate Goes(s: State, i: nat)
    requires i in s.inodes
  {
    Holders(s.inodes, s.inodes[i]) == {i} && s.inodes[i] in s.tree.kids && s.tree.kids[s.inodes[i]] == {}
  }

  lemma {:induction false} LastReference(t: Tree, inodes: map<nat, nat>, i: nat)
    requires HeldBy(t, inodes) && i in inodes
    ensures var r := inodes[i]; r in t.kids && (t.nref[r] == 1 <==> Holders(inodes, r) == {i} && t.kids[r] == {})
  {
    var r := inodes[i];
    var others := Holders(inodes, r) - {i};
    assert Holders(inodes, r) == others + {i};
    assert t.nref[r] == |t.kids[r]| + |others| + 1;
  }

  method Release(s: State, ghost depth: nat -> nat, i: nat) returns (s': State)
    requires StateOk(s, depth) && i in s.inodes
    ensures StateOk(s', depth) && s'.inodes == s.inodes - {i} && Fewer(s.tree.infos, s'.tree.infos)
    ensures Goes(s, i) <==> s.inodes[i] !in s'.tree.infos
  {
    LastReference(s.tree, s.inodes, i);
    HolderHolds(s.tree, s.inodes, i);
    var t, cached := Finish(s.tree, s.cached, depth, s.inodes[i]);
    CloseHeld(Helds(s.tree), Helds(t), s.inodes, i);
    s' := State(t, cached, s.inodes - {i});
  }

  lemma {:induction false} HoldersMore(inodes: map<nat, nat>, i: nat, r: nat, x: nat)
    requires i !in inodes
    ensures |Holders(inodes[i := r], x)| == |Holders(inodes, x)| + if x == r then 1 else 0
  {
    assert Holders(inodes[i := r], x) == Holders(inodes, x) + if x == r then {i} else {};
  }

  lemma {:induction false} HoldersLess(inodes: map<nat, nat>, i: nat, x: nat)
    requires i in inodes
    ensures |Holders(inodes - {i}, x)| == |Holders(inodes, x)| - if x == inodes[i] then 1 else 0
  {
    assert Holders(inodes - {i}, x) == Holders(inodes, x) - if x == inodes[i] then {i} else {};
  }

  lemma {:induction false} OpenHeld(held: map<nat, int>, held': map<nat, int>, inodes: map<nat, nat>, i: nat, r: nat)
    requires Accounts(held, inodes) && i !in inodes && Taken(held, held', r)
    ensures Accounts(held', inodes[i := r])
  {
    forall x <- held' ensures held'[x] == |Holders(inodes[i := r], x)| {
      HoldersMore(inodes, i, r, x);
      if x !in held { NoHolders(held, inodes, x); }
    }
  }

  lemma {:induction false} CloseHeld(held: map<nat, int>, held': map<nat, int>, inodes: map<nat, nat>, i: nat)
    requires Accounts(held, inodes) && i in inodes && Released(held, held', inodes[i])
    ensures Accounts(held', inodes - {i})
  {
    var less := inodes - {i};
    forall x <- held ensures |Holders(less, x)| == held[x] - if x == inodes[i] then 1 else 0 {
      HoldersLess(inodes, i, x);
    }
    forall j <- less ensures less[j] in held' {
      assert j in Holders(less, less[j]);
    }
  }

  lemma {:induction false} HolderHolds(t: Tree, inodes: map<nat, nat>, i: nat)
    requires HeldBy(t, inodes) && i in inodes
    ensures Holds(t, inodes[i])
  {
    assert i in Holders(inodes, inodes[i]);
  }
}
