/** Refragmentation: splitting a fragment into children and merging fragments into one,
    moving dentries one at a time together with everything counted about them. */
module Refragment {
  import opened Frags
  import opened Tallies

  // The accounted statistics, with the versions of both sides.
  datatype Stats = Stats(rstatVersion: nat, accountedRstat: Nest, accountedRstatVersion: nat,
                         fragstatVersion: nat, accountedFragstat: Counts, accountedFragstatVersion: nat)

  const STATS0 := Stats(0, NEST0, 0, 0, COUNTS0, 0)

  datatype Bit = Dirty | ExportBound | ImportBound | RejoinUndef | Complete | FrozenDir | Auth

  const FRAGMENT_KEPT: set<Bit> := {Dirty, ExportBound, ImportBound, RejoinUndef}

  datatype Meta = Meta(state: set<Bit>, dirAuth: (int, int), version: nat, replicas: map<nat, nat>)

  datatype Snap = Snap(body: Body, meta: Meta, stats: Stats)

  // accounted minus current, which counts only while the accounted version is the inode's
  function RstatDiff(s: Snap, rv: nat): Nest {
    if s.stats.accountedRstatVersion == rv then s.stats.accountedRstat.Minus(s.body.tally.rstat) else NEST0
  }

  function FragstatDiff(s: Snap, dv: nat): Counts {
    if s.stats.accountedFragstatVersion == dv then s.stats.accountedFragstat.Minus(s.body.tally.fragstat) else COUNTS0
  }

  // Over the first n of several fragments: the outstanding differences, the dentries, the
  // newest version, the highest replica nonces and the state bits that are kept.
  function SumRstatDiff(ss: seq<Snap>, n: nat, rv: nat): Nest
    requires n <= |ss|
  {
    if n == 0 then NEST0 else SumRstatDiff(ss, n - 1, rv).Plus(RstatDiff(ss[n - 1], rv))
  }

  function SumFragstatDiff(ss: seq<Snap>, n: nat, dv: nat): Counts
    requires n <= |ss|
  {
    if n == 0 then COUNTS0 else SumFragstatDiff(ss, n - 1, dv).Plus(FragstatDiff(ss[n - 1], dv))
  }

  function AllItems(ss: seq<Snap>, n: nat): map<Key, Dentry>
    requires n <= |ss|
  {
    if n == 0 then map[] else AllItems(ss, n - 1) + ss[n - 1].body.items
  }

  function MaxVersion(ss: seq<Snap>, n: nat): nat
    requires n <= |ss|
  {
    if n == 0 then 0
    else
      var v := MaxVersion(ss, n - 1);
      if ss[n - 1].meta.version > v then ss[n - 1].meta.version else v
  }

  function Higher(a: map<nat, nat>, b: map<nat, nat>): map<nat, nat> {
    map r | r in a.Keys + b.Keys ::
      if r !in b then a[r] else if r !in a || b[r] > a[r] then b[r] else a[r]
  }

  function AllReplicas(ss: seq<Snap>, n: nat): map<nat, nat>
    requires n <= |ss|
  {
    if n == 0 then map[] else Higher(AllReplicas(ss, n - 1), ss[n - 1].meta.replicas)
  }

  function KeptState(ss: seq<Snap>, n: nat): set<Bit>
    requires n <= |ss|
  {
    if n == 0 then {} else KeptState(ss, n - 1) + ss[n - 1].meta.state * FRAGMENT_KEPT
  }

  // The statistics of a new fragment: current and accounted agree up to the differential
  // it takes over, and both are of the inode's version.
  function SubStats(t: Tally, rv: nat, dv: nat, rdiff: Nest, fdiff: Counts): Stats {
    Stats(rv, t.rstat.Plus(rdiff), rv, dv, t.fragstat.Plus(fdiff), dv)
  }

  // What a child inherits: the bits that survive fragmenting, the authority, the version
  // and the replicas; it starts out frozen if we are its authority.
  function SubMeta(m: Meta, replay: bool): Meta {
    var kept := (if Auth in m.state then {Auth} else {}) + m.state * (FRAGMENT_KEPT + {Complete});
    Meta(kept + if !replay && Auth in m.state then {FrozenDir, Complete} else {}, m.dirAuth, m.version, m.replicas)
  }

  ghost predicate DisjointItems(ss: seq<Snap>) {
    forall i, j :: 0 <= i < j < |ss| ==> ss[i].body.items.Keys !! ss[j].body.items.Keys
  }

  lemma {:induction false} EarlierItemsDisjoint(ss: seq<Snap>, n: nat, j: nat)
    requires DisjointItems(ss) && n <= j < |ss|
    ensures AllItems(ss, n).Keys !! ss[j].body.items.Keys
  {
    if n > 0 { EarlierItemsDisjoint(ss, n - 1, j); }
  }

  // merge replica map: the higher nonce wins
  method MergeReplicas(a: map<nat, nat>, b: map<nat, nat>) returns (r: map<nat, nat>)
    ensures r == Higher(a, b)
  {
    r := a;
    var rest := b.Keys;
    while rest != {}
      invariant rest <= b.Keys && r.Keys == a.Keys + (b.Keys - rest)
      invariant forall x <- r :: r[x] == if x in b && x !in rest then Higher(a, b)[x] else a[x]
    {
      var x :| x in rest;
      rest := rest - {x};
      if x !in r { r := r[x := 0]; }
      if b[x] > r[x] { r := r[x := b[x]]; }
    }
  }

  lemma {:induction false} MoveKeepsUnion(a: map<Key, Dentry>, b: map<Key, Dentry>, k: Key)
    requires a.Keys !! b.Keys && k in b
    ensures a[k := b[k]] + (b - {k}) == a + b && a[k := b[k]].Keys !! (b - {k}).Keys
    ensures (b - {k}).Keys < b.Keys
  {
  }

  // One more fragment merged, apart from its dentries.
  function JoinMeta(m: Meta, d: Meta): Meta {
    Meta(m.state + d.state * FRAGMENT_KEPT, d.dirAuth, if d.version > m.version then d.version else m.version,
         Higher(m.replicas, d.replicas))
  }

  // What is merged after n fragments besides the dentries.
  function MergedMeta(ss: seq<Snap>, n: nat, state: set<Bit>): Meta
    requires n <= |ss| && ss != []
  {
    Meta(state + KeptState(ss, n), ss[if n == 0 then 0 else n - 1].meta.dirAuth, MaxVersion(ss, n), AllReplicas(ss, n))
  }

  lemma {:induction false} MergeStep(ss: seq<Snap>, n: nat, state: set<Bit>, rv: nat, dv: nat)
    requires n < |ss|
    ensures AllItems(ss, n + 1) == AllItems(ss, n) + ss[n].body.items
    ensures MergedMeta(ss, n + 1, state) == JoinMeta(MergedMeta(ss, n, state), ss[n].meta)
    ensures SumRstatDiff(ss, n + 1, rv) == SumRstatDiff(ss, n, rv).Plus(RstatDiff(ss[n], rv))
    ensures SumFragstatDiff(ss, n + 1, dv) == SumFragstatDiff(ss, n, dv).Plus(FragstatDiff(ss[n], dv))
  {
  }

  // What merging the first n fragments comes to.
  ghost predicate Joined(ss: seq<Snap>, n: nat, rv: nat, dv: nat, state: set<Bit>,
                         items: map<Key, Dentry>, meta: Meta, rdiff: Nest, fdiff: Counts)
    requires n <= |ss| && ss != []
  {
    && items == AllItems(ss, n) && meta == MergedMeta(ss, n, state)
    && rdiff == SumRstatDiff(ss, n, rv) && fdiff == SumFragstatDiff(ss, n, dv)
  }

  lemma {:induction false} JoinStep(ss: seq<Snap>, n: nat, rv: nat, dv: nat, state: set<Bit>,
                                    items: map<Key, Dentry>, meta: Meta, rdiff: Nest, fdiff: Counts)
    requires n < |ss| && DisjointItems(ss) && Joined(ss, n, rv, dv, state, items, meta, rdiff, fdiff)
    ensures items.Keys !! ss[n].body.items.Keys
    ensures Joined(ss, n + 1, rv, dv, state, items + ss[n].body.items, JoinMeta(meta, ss[n].meta),
                   rdiff.Plus(RstatDiff(ss[n], rv)), fdiff.Plus(FragstatDiff(ss[n], dv)))
  {
    EarlierItemsDisjoint(ss, n, n);
    MergeStep(ss, n, state, rv, dv);
  }

  // The first n fragments are empty, the others as they were.
  ghost predicate Drained(subs: seq<Dirfrag>, ss: seq<Snap>, n: nat)
    reads subs
  {
    && n <= |subs| == |ss|
    && (forall i :: 0 <= i < n ==> subs[i].body.items == map[] && subs[i].authPins == 0)
    && (forall i :: n <= i < |subs| ==> subs[i].Now() == ss[i] && subs[i].authPins == 0)
  }

  // The dentries a child of the fragment gets.
  predicate InPart(f: Frag, nb: nat, i: nat, dn: Dentry)
    requires f.bits + nb <= HASH_BITS
  {
    Index(f, Pick(dn.hash, f.bits + nb)) == i
  }

  function Part(m: map<Key, Dentry>, f: Frag, nb: nat, i: nat): map<Key, Dentry>
    requires f.bits + nb <= HASH_BITS
  {
    map k | k in m && InPart(f, nb, i, m[k]) :: m[k]
  }

  // The child each dentry belongs to.
  ghost function Homes(m: map<Key, Dentry>, f: Frag, nb: nat): (home: map<Key, nat>)
    requires f.bits + nb <= HASH_BITS && forall k <- m :: f.Contains(m[k].hash)
    ensures home.Keys == m.Keys
    ensures forall k <- m :: home[k] == Index(f, Pick(m[k].hash, f.bits + nb)) && home[k] < Pow2(nb)
  {
    assert forall k <- m :: Index(f, Pick(m[k].hash, f.bits + nb)) < Pow2(nb) by {
      forall k <- m ensures Index(f, Pick(m[k].hash, f.bits + nb)) < Pow2(nb) { IndexNamesChild(f, nb, m[k].hash); }
    }
    map k | k in m :: Index(f, Pick(m[k].hash, f.bits + nb))
  }

  // The snapshots of the children that split makes of the dentries m of fragment f.
  predicate Children(ss: seq<Snap>, m: map<Key, Dentry>, f: Frag, nb: nat) {
    && f.bits + nb <= HASH_BITS && |ss| == Pow2(nb)
    && (forall k <- m :: f.Contains(m[k].hash))
    && (forall i :: 0 <= i < |ss| ==> ss[i].body.items == Part(m, f, nb, i))
  }

  ghost predicate AllExact(ss: seq<Snap>) {
    forall i :: 0 <= i < |ss| ==> Exact(ss[i].body)
  }

  ghost predicate AllPinsExact(ss: seq<Snap>) {
    forall i :: 0 <= i < |ss| ==> PinsExact(ss[i].body)
  }

  // Every child inherits the same attributes.
  predicate SameMeta(ss: seq<Snap>, m: Meta) {
    forall i :: 0 <= i < |ss| ==> ss[i].meta == m
  }

  // The statistics of fresh children: only the first has a differential outstanding.
  predicate FreshStats(ss: seq<Snap>, rv: nat, dv: nat, rdiff: Nest, fdiff: Counts) {
    forall i :: 0 <= i < |ss| ==> ss[i].stats == SubStats(ss[i].body.tally, rv, dv,
      if i == 0 then rdiff else NEST0, if i == 0 then fdiff else COUNTS0)
  }

  // ---- the statistics of several fragments, field by field

  // Accounted and current statistics of several fragments, added up.
  datatype Books = Books(accountedRstat: Nest, rstat: Nest, accountedFragstat: Counts, fragstat: Counts)
  {
    // accounted - current
    function Rdiff(): Nest { accountedRstat.Minus(rstat) }
    function Fdiff(): Counts { accountedFragstat.Minus(fragstat) }
  }

  function BooksOf(ss: seq<Snap>, n: nat): Books
    requires n <= |ss|
  {
    if n == 0 then Books(NEST0, NEST0, COUNTS0, COUNTS0)
    else
      var b, s := BooksOf(ss, n - 1), ss[n - 1];
      Books(b.accountedRstat.Plus(s.stats.accountedRstat), b.rstat.Plus(s.body.tally.rstat),
            b.accountedFragstat.Plus(s.stats.accountedFragstat), b.fragstat.Plus(s.body.tally.fragstat))
  }

  function AllBooks(ss: seq<Snap>): Books { BooksOf(ss, |ss|) }

  // Those whose accounted statistics are of the inode's version.
  function RstatCurrent(ss: seq<Snap>, rv: nat): seq<Snap> {
    if ss == [] then []
    else
      var s := ss[|ss| - 1];
      RstatCurrent(ss[..|ss| - 1], rv) + if s.stats.accountedRstatVersion == rv then [s] else []
  }

  function FragstatCurrent(ss: seq<Snap>, dv: nat): seq<Snap> {
    if ss == [] then []
    else
      var s := ss[|ss| - 1];
      FragstatCurrent(ss[..|ss| - 1], dv) + if s.stats.accountedFragstatVersion == dv then [s] else []
  }

  // The differences outstanding are those of the fragments that are up to date; what others have
  // accounted does not matter.
  lemma {:induction false} RstatOfCurrent(ss: seq<Snap>, n: nat, rv: nat)
    requires n <= |ss|
    ensures SumRstatDiff(ss, n, rv) == AllBooks(RstatCurrent(ss[..n], rv)).Rdiff()
  {
    if n > 0 {
      RstatOfCurrent(ss, n - 1, rv);
      var was := RstatCurrent(ss[..n - 1], rv);
      assert ss[..n][..n - 1] == ss[..n - 1];
      if ss[n - 1].stats.accountedRstatVersion == rv {
        assert RstatCurrent(ss[..n], rv) == was + [ss[n - 1]];
        BooksMore(was, ss[n - 1]);
      } else {
        assert RstatCurrent(ss[..n], rv) == was;
        NestZero(AllBooks(was).Rdiff());
      }
    }
  }

  lemma {:induction false} FragstatOfCurrent(ss: seq<Snap>, n: nat, dv: nat)
    requires n <= |ss|
    ensures SumFragstatDiff(ss, n, dv) == AllBooks(FragstatCurrent(ss[..n], dv)).Fdiff()
  {
    if n > 0 {
      FragstatOfCurrent(ss, n - 1, dv);
      var was := FragstatCurrent(ss[..n - 1], dv);
      assert ss[..n][..n - 1] == ss[..n - 1];
      if ss[n - 1].stats.accountedFragstatVersion == dv {
        assert FragstatCurrent(ss[..n], dv) == was + [ss[n - 1]];
        BooksMore(was, ss[n - 1]);
      } else {
        assert FragstatCurrent(ss[..n], dv) == was;
        CountsZero(AllBooks(was).Fdiff());
      }
    }
  }

  lemma NestZero(n: Nest)
    ensures n.Plus(NEST0) == n
  {
  }

  lemma CountsZero(n: Counts)
    ensures n.Plus(COUNTS0) == n
  {
  }

  lemma BooksMore(ss: seq<Snap>, s: Snap)
    ensures AllBooks(ss + [s]).Rdiff() == AllBooks(ss).Rdiff().Plus(s.stats.accountedRstat.Minus(s.body.tally.rstat))
    ensures AllBooks(ss + [s]).Fdiff() ==
      AllBooks(ss).Fdiff().Plus(s.stats.accountedFragstat.Minus(s.body.tally.fragstat))
    ensures ss + [] == ss
  {
    BooksOfFirst(ss, s, |ss|);
  }

  lemma {:induction false} BooksOfFirst(ss: seq<Snap>, s: Snap, n: nat)
    requires n <= |ss|
    ensures BooksOf(ss + [s], n) == BooksOf(ss, n)
  {
    if n > 0 { BooksOfFirst(ss, s, n - 1); }
  }

  // What split does to the statistics: accounted minus current goes to the first child if it is
  // of the inode's version, and is forgotten else; all are of the inode's version.
  predicate SplitStats(was: Snap, ss: seq<Snap>, rv: nat, dv: nat) {
    forall i :: 0 <= i < |ss| ==> ChildStats(was, ss, i, rv, dv)
  }

  predicate ChildStats(was: Snap, ss: seq<Snap>, i: nat, rv: nat, dv: nat)
    requires i < |ss|
  {
    var s := ss[i];
    && s.stats.rstatVersion == s.stats.accountedRstatVersion == rv
    && s.stats.fragstatVersion == s.stats.accountedFragstatVersion == dv
    && (if i == 0 && was.stats.accountedRstatVersion == rv then
          s.stats.accountedRstat.Minus(s.body.tally.rstat) == was.stats.accountedRstat.Minus(was.body.tally.rstat)
        else s.stats.accountedRstat == s.body.tally.rstat)
    && (if i == 0 && was.stats.accountedFragstatVersion == dv then
          s.stats.accountedFragstat.Minus(s.body.tally.fragstat) ==
          was.stats.accountedFragstat.Minus(was.body.tally.fragstat)
        else s.stats.accountedFragstat == s.body.tally.fragstat)
  }

  lemma FreshIsSplit(was: Snap, ss: seq<Snap>, rv: nat, dv: nat)
    requires FreshStats(ss, rv, dv, RstatDiff(was, rv), FragstatDiff(was, dv))
    ensures SplitStats(was, ss, rv, dv)
  {
    forall i | 0 <= i < |ss| ensures ChildStats(was, ss, i, rv, dv) {
      assert ss[i].stats == SubStats(ss[i].body.tally, rv, dv, if i == 0 then RstatDiff(was, rv) else NEST0,
                                     if i == 0 then FragstatDiff(was, dv) else COUNTS0);
    }
  }

  // What merge makes of the statistics of the parts.
  predicate MergedStats(ss: seq<Snap>, now: Snap, rv: nat, dv: nat) {
    && now.stats.rstatVersion == now.stats.accountedRstatVersion == rv
    && now.stats.fragstatVersion == now.stats.accountedFragstatVersion == dv
    && now.stats.accountedRstat.Minus(now.body.tally.rstat) == AllBooks(RstatCurrent(ss, rv)).Rdiff()
    && now.stats.accountedFragstat.Minus(now.body.tally.fragstat) == AllBooks(FragstatCurrent(ss, dv)).Fdiff()
  }

  lemma SumsAreMerged(ss: seq<Snap>, now: Snap, rv: nat, dv: nat)
    requires now.stats == SubStats(now.body.tally, rv, dv, SumRstatDiff(ss, |ss|, rv), SumFragstatDiff(ss, |ss|, dv))
    ensures MergedStats(ss, now, rv, dv)
  {
    assert ss[..|ss|] == ss;
    RstatOfCurrent(ss, |ss|, rv);
    FragstatOfCurrent(ss, |ss|, dv);
  }

  lemma {:induction false} ShareIsPart(b: Body, all: map<Key, Dentry>, home: map<Key, nat>, f: Frag, nb: nat, i: nat)
    requires f.bits + nb <= HASH_BITS && (forall k <- all :: f.Contains(all[k].hash)) && home == Homes(all, f, nb)
    requires HasShare(b, all, {}, home, i)
    ensures b.items == Part(all, f, nb, i)
  {
  }

  predicate Distinct(ds: seq<Dirfrag>) {
    forall i, j :: 0 <= i < j < |ds| ==> ds[i] != ds[j]
  }

  // A fragment about to be refragmented: it is frozen if we are its authority (and not
  // replaying), nobody holds a pin on it, and its pin counters are exact.
  ghost predicate Ready(s: Snap, authPins: nat, replay: bool) {
    Unpinned(s, authPins, replay) && PinsExact(s.body)
  }

  predicate Unpinned(s: Snap, authPins: nat, replay: bool) {
    && authPins == 0
    && (!replay && Auth in s.meta.state ==> FrozenDir in s.meta.state)
  }

  class Dirfrag {
    const frag: Frag
    var body: Body
    var meta: Meta
    var stats: Stats
    var authPins: nat

    function Now(): Snap
      reads this
    {
      Snap(body, meta, stats)
    }

    constructor (frag: Frag, auth: bool)
      ensures this.frag == frag && body == EMPTY && stats == STATS0 && authPins == 0
      ensures meta == Meta(if auth then {Auth} else {}, (-1, -2), 0, map[])
    {
      this.frag := frag;
      body, stats, authPins := EMPTY, STATS0, 0;
      meta := Meta(if auth then {Auth} else {}, (-1, -2), 0, map[]);
    }

    // CDir::steal_dentry
    method StealDentry(from: Dirfrag, k: Key)
      requires this != from && k in from.body.items
      modifies `body, from`body
      ensures body == Stolen(old(body), k, old(from.body.items)[k])
      ensures from.body == Robbed(old(from.body), k)
    {
      var dn := from.body.items[k];
      var t := body.tally;
      var n, c, r := t.numbers, t.fragstat, t.rstat;
      if dn.link.Null? {
        if dn.head { n := n.(headNull := n.headNull + 1); } else { n := n.(snapNull := n.snapNull + 1); }
      } else if dn.head {
        n := n.(headItems := n.headItems + 1);
        if dn.link.isDir { c := c.(nsubdirs := c.nsubdirs + 1); } else { c := c.(nfiles := c.nfiles + 1); }
        if dn.link.Primary? { r := r.Plus(dn.link.accounted); }
      } else {
        n := n.(snapItems := n.snapItems + 1);
      }
      if dn.dirty { n := n.(dirty := n.dirty + 1); }
      var p, q := t.pins, from.body.tally.pins;
      if dn.pins != PINS0 {
        // adjust_nested_auth_pins on both fragments
        p, q := p.Plus(dn.pins), q.Minus(dn.pins);
      }
      body := Body(body.items[k := dn], Tally(n, c, r, p));
      from.body := Body(from.body.items - {k}, from.body.tally.(pins := q));
    }

    // prepare_old_fragment: hold a pin so that nothing is triggered meanwhile
    method PrepareOld(replay: bool)
      modifies `authPins
      ensures authPins == old(authPins) + if !replay && Auth in meta.state then 1 else 0
    {
      if !replay && Auth in meta.state { authPins := authPins + 1; }
    }

    // prepare_new_fragment
    method PrepareNew(replay: bool)
      modifies `meta
      ensures meta == old(meta).(state := meta.state)
      ensures meta.state == old(meta).state + if !replay && Auth in old(meta).state then {FrozenDir, Complete} else {}
    {
      if !replay && Auth in meta.state {
        meta := meta.(state := meta.state + {FrozenDir, Complete});
      }
    }

    // finish_old_fragment; the asserts are those of the code
    method FinishOld(replay: bool)
      requires body == Body(map[], body.tally) && body.tally.pins == PINS0
      requires authPins == if !replay && Auth in meta.state then 1 else 0
      requires !replay && Auth in meta.state ==> FrozenDir in meta.state
      modifies `authPins, `meta, `body
      ensures authPins == 0 && body.items == map[] && body.tally == old(body.tally).(numbers := NUMBERS0)
      ensures Dirty !in meta.state
    {
      if !replay && Auth in meta.state {
        authPins := authPins - 1;
        assert FrozenDir in meta.state;
        meta := meta.(state := meta.state - {FrozenDir});
      }
      assert body.tally.pins.nested == 0;
      assert body.tally.pins.dir == 0;
      assert authPins == 0;
      body := body.(tally := body.tally.(numbers := NUMBERS0));
      if Auth in meta.state { meta := meta.(replicas := map[]); }
      if Dirty in meta.state { meta := meta.(state := meta.state - {Dirty}); }
    }

    // CDir::split
    method Split(nb: nat, rv: nat, dv: nat, replay: bool) returns (subs: seq<Dirfrag>)
      requires frag.Valid() && frag.bits + nb <= HASH_BITS
      requires forall k <- body.items :: frag.Contains(body.items[k].hash)
      requires Ready(Now(), authPins, replay)
      modifies this
      ensures |subs| == Pow2(nb) && Distinct(subs) && fresh(set d <- subs)
      ensures forall i :: 0 <= i < |subs| ==> subs[i].frag == frag.Child(i, nb) && subs[i].authPins == 0
      ensures Children(Snaps(subs), old(body.items), frag, nb) && AllExact(Snaps(subs))
      ensures SameMeta(Snaps(subs), SubMeta(old(meta), replay))
      ensures FreshStats(Snaps(subs), rv, dv, RstatDiff(old(Now()), rv), FragstatDiff(old(Now()), dv))
      ensures SplitStats(old(Now()), Snaps(subs), rv, dv)
      ensures body.items == map[] && body.tally.pins == PINS0 && authPins == 0
    {
      var rdiff, fdiff := RstatDiff(Now(), rv), FragstatDiff(Now(), dv);
      PrepareOld(replay);
      subs := Divide(nb, rv, dv, replay, rdiff, fdiff, old(Now()));
      ghost var snaps := Snaps(subs);
      FinishOld(replay);
      assert Snaps(subs) == snaps;
    }

    // Create the new fragments and fill them.
    method Divide(nb: nat, rv: nat, dv: nat, replay: bool, rdiff: Nest, fdiff: Counts, ghost was: Snap)
      returns (subs: seq<Dirfrag>)
      requires frag.Valid() && frag.bits + nb <= HASH_BITS && PinsExact(body)
      requires rdiff == RstatDiff(was, rv) && fdiff == FragstatDiff(was, dv)
      requires forall k <- body.items :: frag.Contains(body.items[k].hash)
      modifies `body
      ensures |subs| == Pow2(nb) && Distinct(subs) && fresh(set d <- subs)
      ensures forall i :: 0 <= i < |subs| ==> subs[i].frag == frag.Child(i, nb) && subs[i].authPins == 0
      ensures Children(Snaps(subs), old(body.items), frag, nb) && AllExact(Snaps(subs))
      ensures SameMeta(Snaps(subs), SubMeta(meta, replay)) && FreshStats(Snaps(subs), rv, dv, rdiff, fdiff)
      ensures SplitStats(was, Snaps(subs), rv, dv)
      ensures body.items == map[] && body.tally.pins == PINS0
    {
      subs := CreateSubs(nb, replay);
      Fill(subs, nb, rv, dv, rdiff, fdiff);
      FreshIsSplit(was, Snaps(subs), rv, dv);
    }

    // Hand the dentries to the new fragments, and give these their statistics.
    method Fill(subs: seq<Dirfrag>, nb: nat, rv: nat, dv: nat, rdiff: Nest, fdiff: Counts)
      requires frag.Valid() && frag.bits + nb <= HASH_BITS && |subs| == Pow2(nb) && Distinct(subs) && this !in subs
      requires forall k <- body.items :: frag.Contains(body.items[k].hash)
      requires PinsExact(body) && forall i :: 0 <= i < |subs| ==> subs[i].body == EMPTY
      modifies `body, subs`body, subs`stats
      ensures body.items == map[] && body.tally.pins == PINS0
      ensures Children(Snaps(subs), old(body.items), frag, nb) && AllExact(Snaps(subs))
      ensures FreshStats(Snaps(subs), rv, dv, rdiff, fdiff)
    {
      ghost var exact, pinned := (b: Body) => Exact(b), (b: Body) => PinsExact(b);
      StealingKeepsExact(exact);
      RobbingKeepsPinsExact(pinned);
      Repartition(subs, nb, exact, pinned);
      GiveStats(subs, rv, dv, rdiff, fdiff);
      forall i | 0 <= i < |subs| ensures Exact(Snaps(subs)[i].body) { assert exact(subs[i].body); }
    }

    // The statistics of the new fragments; any outstanding differential goes to the first.
    method GiveStats(subs: seq<Dirfrag>, rv: nat, dv: nat, rdiff: Nest, fdiff: Counts)
      requires Distinct(subs) && subs != []
      modifies subs`stats
      ensures FreshStats(Snaps(subs), rv, dv, rdiff, fdiff)
    {
      FixStats(subs, rv, dv);
      subs[0].stats := SubStats(subs[0].body.tally, rv, dv, rdiff, fdiff);
    }

    method CreateSubs(nb: nat, replay: bool) returns (subs: seq<Dirfrag>)
      requires frag.bits + nb <= HASH_BITS
      ensures |subs| == Pow2(nb) && Distinct(subs) && fresh(set d <- subs)
      ensures forall i :: 0 <= i < |subs| ==>
        subs[i].frag == frag.Child(i, nb) && subs[i].body == EMPTY && subs[i].authPins == 0
      ensures forall i :: 0 <= i < |subs| ==> subs[i].meta == SubMeta(meta, replay)
    {
      subs := [];
      for i := 0 to Pow2(nb)
        invariant |subs| == i && Distinct(subs) && fresh(set d <- subs)
        invariant forall j :: 0 <= j < i ==>
          subs[j].frag == frag.Child(j, nb) && subs[j].body == EMPTY && subs[j].authPins == 0
        invariant forall j :: 0 <= j < i ==> subs[j].meta == SubMeta(meta, replay)
      {
        var f := new Dirfrag(frag.Child(i, nb), Auth in meta.state);
        f.meta := Meta(f.meta.state + meta.state * (FRAGMENT_KEPT + {Complete}), meta.dirAuth, meta.version,
                       meta.replicas);
        f.PrepareNew(replay);
        subs := subs + [f];
      }
    }

    // Each dentry goes to the child whose fragment has its hash.
    method Repartition(subs: seq<Dirfrag>, nb: nat, ghost exact: Body -> bool, ghost pinned: Body -> bool)
      requires frag.Valid() && frag.bits + nb <= HASH_BITS && |subs| == Pow2(nb) && Distinct(subs) && this !in subs
      requires forall k <- body.items :: frag.Contains(body.items[k].hash)
      requires forall i :: 0 <= i < |subs| ==> subs[i].body == EMPTY
      requires KeptByStealing(exact) && exact(EMPTY) && KeptByRobbing(pinned) && pinned(body)
      modifies `body, subs`body
      ensures body.items == map[] && body.tally.pins == PINS0
      ensures forall i :: 0 <= i < |subs| ==> subs[i].body.items == Part(old(body.items), frag, nb, i)
      ensures forall i :: 0 <= i < |subs| ==> exact(subs[i].body)
    {
      ghost var all := body.items;
      ghost var home := Homes(all, frag, nb);
      while body.items.Keys != {}
        invariant body.items.Keys <= all.Keys && (forall k <- body.items :: body.items[k] == all[k])
        invariant pinned(body)
        invariant forall i :: 0 <= i < |subs| ==> HasShare(subs[i].body, all, body.items.Keys, home, i)
        invariant forall i :: 0 <= i < |subs| ==> exact(subs[i].body)
        decreases body.items.Keys
      {
        var k :| k in body.items;
        var n := Index(frag, Pick(body.items[k].hash, frag.bits + nb));
        MoveOne(subs, n, k, all, home, exact);
      }
      forall i | 0 <= i < |subs| ensures subs[i].body.items == Part(all, frag, nb, i) {
        ShareIsPart(subs[i].body, all, home, frag, nb, i);
      }
    }

    // one round of the loop above
    method MoveOne(subs: seq<Dirfrag>, n: nat, k: Key,
                   ghost all: map<Key, Dentry>, ghost home: map<Key, nat>, ghost good: Body -> bool)
      requires Distinct(subs) && this !in subs && KeptByStealing(good)
      requires k in body.items && k in all && body.items[k] == all[k] && k in home && home[k] == n < |subs|
      requires forall i :: 0 <= i < |subs| ==> HasShare(subs[i].body, all, body.items.Keys, home, i)
      requires forall i :: 0 <= i < |subs| ==> good(subs[i].body)
      modifies `body, subs`body
      ensures body == Robbed(old(body), k)
      ensures forall i :: 0 <= i < |subs| ==> HasShare(subs[i].body, all, body.items.Keys, home, i)
      ensures forall i :: 0 <= i < |subs| ==> good(subs[i].body)
    {
      var dn := body.items[k];
      ghost var left := body.items.Keys;
      forall i | 0 <= i < |subs|
        ensures i == n ==> k !in subs[i].body.items && HasShare(Stolen(subs[i].body, k, dn), all, left - {k}, home, i)
        ensures i != n ==> HasShare(subs[i].body, all, left - {k}, home, i)
      { ShareStep(subs[i].body, all, left, home, i, k); }
      subs[n].StealDentry(this, k);
      assert body.items.Keys == left - {k};
    }

    // The new fragments count what they were given.
    method FixStats(subs: seq<Dirfrag>, rv: nat, dv: nat)
      requires Distinct(subs)
      modifies subs`stats
      ensures forall i :: 0 <= i < |subs| ==> subs[i].stats == SubStats(subs[i].body.tally, rv, dv, NEST0, COUNTS0)
    {
      for n := 0 to |subs|
        invariant forall i :: 0 <= i < n ==> subs[i].stats == SubStats(subs[i].body.tally, rv, dv, NEST0, COUNTS0)
      {
        subs[n].stats := SubStats(subs[n].body.tally, rv, dv, NEST0, COUNTS0);
      }
    }

    // CDir::merge
    method Merge(subs: seq<Dirfrag>, rv: nat, dv: nat, replay: bool)
      requires body == EMPTY && meta.version == 0 && meta.replicas == map[] && this !in subs
      requires subs != [] && Distinct(subs) && DisjointItems(Snaps(subs))
      requires forall i :: 0 <= i < |subs| ==> Unpinned(subs[i].Now(), subs[i].authPins, replay)
      requires AllPinsExact(Snaps(subs))
      modifies `body, `meta, `stats, subs
      ensures body.items == AllItems(old(Snaps(subs)), |subs|) && Exact(body)
      ensures meta == MergedMeta(old(Snaps(subs)), |subs|,
                old(meta).state + if Auth in old(meta).state && !replay then {FrozenDir, Complete} else {})
      ensures stats == SubStats(body.tally, rv, dv,
                SumRstatDiff(old(Snaps(subs)), |subs|, rv), SumFragstatDiff(old(Snaps(subs)), |subs|, dv))
      ensures MergedStats(old(Snaps(subs)), Now(), rv, dv)
      ensures forall i :: 0 <= i < |subs| ==> subs[i].body.items == map[] && subs[i].authPins == 0
    {
      ghost var exact, pinned := (b: Body) => Exact(b), (b: Body) => PinsExact(b);
      StealingKeepsExact(exact);
      RobbingKeepsPinsExact(pinned);
      ghost var ss := Snaps(subs);
      meta := meta.(dirAuth := subs[0].meta.dirAuth);
      PrepareNew(replay);
      assert Snaps(subs) == ss;
      forall i | 0 <= i < |subs| ensures pinned(subs[i].body) { assert PinsExact(ss[i].body); }
      var rdiff, fdiff := AbsorbAll(subs, rv, dv, replay, exact, pinned);
      SetStats(rv, dv, rdiff, fdiff, ss);
    }

    method SetStats(rv: nat, dv: nat, rdiff: Nest, fdiff: Counts, ghost ss: seq<Snap>)
      requires rdiff == SumRstatDiff(ss, |ss|, rv) && fdiff == SumFragstatDiff(ss, |ss|, dv)
      modifies `stats
      ensures stats == SubStats(body.tally, rv, dv, rdiff, fdiff) && MergedStats(ss, Now(), rv, dv)
    {
      stats := SubStats(body.tally, rv, dv, rdiff, fdiff);
      SumsAreMerged(ss, Now(), rv, dv);
    }

    // the loop of merge over the old fragments
    method AbsorbAll(subs: seq<Dirfrag>, rv: nat, dv: nat, replay: bool, ghost exact: Body -> bool,
                     ghost pinned: Body -> bool)
      returns (rdiff: Nest, fdiff: Counts)
      requires body == EMPTY && meta.version == 0 && meta.replicas == map[] && this !in subs
      requires subs != [] && meta.dirAuth == subs[0].meta.dirAuth && Distinct(subs) && DisjointItems(Snaps(subs))
      requires KeptByStealing(exact) && exact(EMPTY) && KeptByRobbing(pinned)
      requires forall i :: 0 <= i < |subs| ==> Unpinned(subs[i].Now(), subs[i].authPins, replay) && pinned(subs[i].body)
      modifies `body, `meta, subs
      ensures body.items == AllItems(old(Snaps(subs)), |subs|) && exact(body)
      ensures meta == MergedMeta(old(Snaps(subs)), |subs|, old(meta).state)
      ensures rdiff == SumRstatDiff(old(Snaps(subs)), |subs|, rv)
      ensures fdiff == SumFragstatDiff(old(Snaps(subs)), |subs|, dv)
      ensures forall i :: 0 <= i < |subs| ==> subs[i].body.items == map[] && subs[i].authPins == 0
    {
      ghost var ss := Snaps(subs);
      rdiff, fdiff := NEST0, COUNTS0;
      for n := 0 to |subs|
        invariant Drained(subs, ss, n) && exact(body)
        invariant Joined(ss, n, rv, dv, old(meta).state, body.items, meta, rdiff, fdiff)
      {
        rdiff, fdiff := AbsorbNext(subs, n, rdiff, fdiff, rv, dv, replay, ss, old(meta).state, exact, pinned);
      }
    }

    // one round of the loop above
    method AbsorbNext(subs: seq<Dirfrag>, n: nat, rdiff0: Nest, fdiff0: Counts, rv: nat, dv: nat, replay: bool,
                      ghost ss: seq<Snap>, ghost state: set<Bit>, ghost exact: Body -> bool, ghost pinned: Body -> bool)
      returns (rdiff: Nest, fdiff: Counts)
      requires n < |subs| && this !in subs && Distinct(subs) && Drained(subs, ss, n) && DisjointItems(ss)
      requires Joined(ss, n, rv, dv, state, body.items, meta, rdiff0, fdiff0)
      requires KeptByStealing(exact) && exact(body) && KeptByRobbing(pinned) && pinned(ss[n].body)
      requires Unpinned(ss[n], 0, replay)
      modifies `body, `meta, subs
      ensures Drained(subs, ss, n + 1) && exact(body)
      ensures Joined(ss, n + 1, rv, dv, state, body.items, meta, rdiff, fdiff)
    {
      JoinStep(ss, n, rv, dv, state, body.items, meta, rdiff0, fdiff0);
      rdiff, fdiff := Absorb(subs[n], rdiff0, fdiff0, rv, dv, replay, exact, pinned);
    }

    // one round of the loop above: take everything the other fragment has
    method Absorb(dir: Dirfrag, rdiff0: Nest, fdiff0: Counts, rv: nat, dv: nat, replay: bool,
                  ghost exact: Body -> bool, ghost pinned: Body -> bool) returns (rdiff: Nest, fdiff: Counts)
      requires this != dir && KeptByStealing(exact) && exact(body) && KeptByRobbing(pinned) && pinned(dir.body)
      requires body.items.Keys !! dir.body.items.Keys && Unpinned(dir.Now(), dir.authPins, replay)
      modifies `body, `meta, dir
      ensures body.items == old(body.items) + old(dir.body.items) && exact(body)
      ensures meta == JoinMeta(old(meta), old(dir.meta))
      ensures rdiff == rdiff0.Plus(RstatDiff(old(dir.Now()), rv))
      ensures fdiff == fdiff0.Plus(FragstatDiff(old(dir.Now()), dv))
      ensures dir.body.items == map[] && dir.authPins == 0
    {
      rdiff := rdiff0.Plus(RstatDiff(dir.Now(), rv));
      fdiff := fdiff0.Plus(FragstatDiff(dir.Now(), dv));
      dir.PrepareOld(replay);
      StealAll(dir, exact, pinned);
      var replicas := MergeReplicas(meta.replicas, dir.meta.replicas);
      meta := Meta(meta.state + dir.meta.state * FRAGMENT_KEPT, dir.meta.dirAuth,
                   if dir.meta.version > meta.version then dir.meta.version else meta.version, replicas);
      dir.FinishOld(replay);
    }

    // steal dentries until the other fragment is empty
    method StealAll(from: Dirfrag, ghost exact: Body -> bool, ghost pinned: Body -> bool)
      requires this != from && KeptByStealing(exact) && exact(body) && KeptByRobbing(pinned) && pinned(from.body)
      requires body.items.Keys !! from.body.items.Keys
      modifies `body, from`body
      ensures body.items == old(body.items) + old(from.body.items) && exact(body)
      ensures from.body.items == map[] && from.body.tally.pins == PINS0
    {
      ghost var all := body.items + from.body.items;
      while from.body.items.Keys != {}
        invariant body.items + from.body.items == all && body.items.Keys !! from.body.items.Keys
        invariant exact(body) && pinned(from.body)
        decreases from.body.items.Keys
      {
        var k :| k in from.body.items;
        MoveKeepsUnion(body.items, from.body.items, k);
        StealDentry(from, k);
      }
    }
  }

  function Snaps(ds: seq<Dirfrag>): (ss: seq<Snap>)
    reads ds
    ensures |ss| == |ds| && forall i :: 0 <= i < |ds| ==> ss[i] == ds[i].Now()
  {
    if ds == [] then [] else Snaps(ds[..|ds| - 1]) + [ds[|ds| - 1].Now()]
  }
}
