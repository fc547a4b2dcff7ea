/** What splitting and merging conserve. */
module SplitMerge {
  import opened Frags
  import opened Tallies
  import opened Refragment

  /** check_rstats: in an exact fragment the head items are the files and subdirectories. */
  lemma {:induction false} HeadItemsAreFilesAndDirs(m: map<Key, Dentry>)
    ensures Total(m).numbers.headItems == Total(m).fragstat.nfiles + Total(m).fragstat.nsubdirs
    decreases |m|
  {
    if m.Keys != {} {
      HeadItemsAreFilesAndDirs(m - {Any(m)});
      TotalWithout(m, Any(m));
    }
  }

  // ---- the children of a split cover the fragment

  // Each dentry goes to a child, and that child alone.
  lemma ChildrenDisjoint(ss: seq<Snap>, m: map<Key, Dentry>, f: Frag, nb: nat)
    requires Children(ss, m, f, nb)
    ensures DisjointItems(ss)
  {
    forall i, j | 0 <= i < j < |ss| ensures ss[i].body.items.Keys !! ss[j].body.items.Keys {
      forall k | k in ss[i].body.items ensures k !in ss[j].body.items {
        assert InPart(f, nb, i, m[k]);
      }
    }
  }

  // A fragment has exactly the dentries whose home it is.
  ghost predicate HasHome(items: map<Key, Dentry>, m: map<Key, Dentry>, home: map<Key, nat>, i: nat) {
    && home.Keys == m.Keys
    && (forall k :: k in items <==> k in m && home[k] == i) && (forall k <- items :: items[k] == m[k])
  }

  // The first n have exactly the dentries whose home is among them.
  lemma {:induction false} InFirst(ss: seq<Snap>, m: map<Key, Dentry>, home: map<Key, nat>, n: nat, k: Key)
    requires n <= |ss| && forall i :: 0 <= i < |ss| ==> HasHome(ss[i].body.items, m, home, i)
    requires home.Keys == m.Keys
    ensures k in AllItems(ss, n) <==> k in m && home[k] < n
    ensures k in AllItems(ss, n) ==> AllItems(ss, n)[k] == m[k]
  {
    if n > 0 {
      InFirst(ss, m, home, n - 1, k);
      assert HasHome(ss[n - 1].body.items, m, home, n - 1);
    }
  }

  lemma PartHasHome(m: map<Key, Dentry>, f: Frag, nb: nat, home: map<Key, nat>, i: nat)
    requires f.bits + nb <= HASH_BITS && home.Keys == m.Keys
    requires forall k <- m :: home[k] == Index(f, Pick(m[k].hash, f.bits + nb))
    ensures HasHome(Part(m, f, nb, i), m, home, i)
  {
    forall k | k in m ensures k in Part(m, f, nb, i) <==> home[k] == i {
      assert InPart(f, nb, i, m[k]) <==> home[k] == i;
    }
  }

  lemma ChildrenCover(ss: seq<Snap>, m: map<Key, Dentry>, f: Frag, nb: nat)
    requires Children(ss, m, f, nb)
    ensures AllItems(ss, |ss|) == m
  {
    var home := ChildrenHaveHomes(ss, m, f, nb);
    forall k ensures k in AllItems(ss, |ss|) <==> k in m { InFirst(ss, m, home, |ss|, k); }
    forall k | k in m ensures AllItems(ss, |ss|)[k] == m[k] { InFirst(ss, m, home, |ss|, k); }
  }

  lemma ChildrenHaveHomes(ss: seq<Snap>, m: map<Key, Dentry>, f: Frag, nb: nat) returns (home: map<Key, nat>)
    requires Children(ss, m, f, nb)
    ensures home.Keys == m.Keys && (forall k <- m :: home[k] < |ss|)
    ensures forall i :: 0 <= i < |ss| ==> HasHome(ss[i].body.items, m, home, i)
  {
    home := HomesOf(m, f, nb);
  }

  lemma HomesOf(m: map<Key, Dentry>, f: Frag, nb: nat) returns (home: map<Key, nat>)
    requires f.bits + nb <= HASH_BITS && forall k <- m :: f.Contains(m[k].hash)
    ensures home.Keys == m.Keys && (forall k <- m :: home[k] < Pow2(nb))
    ensures forall i: nat :: HasHome(Part(m, f, nb, i), m, home, i)
  {
    home := Homes(m, f, nb);
    forall i: nat ensures HasHome(Part(m, f, nb, i), m, home, i) { PartHasHome(m, f, nb, home, i); }
  }

  /** Every dentry is in the one child whose fragment contains its hash. */
  lemma DentryInRightChild(ss: seq<Snap>, m: map<Key, Dentry>, f: Frag, nb: nat, k: Key, i: nat)
    requires f.Valid() && Children(ss, m, f, nb) && k in m && i < |ss|
    ensures k in ss[i].body.items <==> f.Child(i, nb).Contains(m[k].hash)
  {
    IndexNamesChild(f, nb, m[k].hash);
    if f.Child(i, nb).Contains(m[k].hash) { ChildIsUnique(f, nb, i, m[k].hash); }
    assert ss[i].body.items == Part(m, f, nb, i);
    assert k in ss[i].body.items <==> InPart(f, nb, i, m[k]);
  }

  // ---- sums over fragments

  function SumTally(ss: seq<Snap>, n: nat): Tally
    requires n <= |ss|
  {
    if n == 0 then TALLY0 else SumTally(ss, n - 1).Plus(ss[n - 1].body.tally)
  }

  lemma {:induction false} SumOfExact(ss: seq<Snap>, n: nat)
    requires n <= |ss| && DisjointItems(ss) && AllExact(ss)
    ensures SumTally(ss, n) == Total(AllItems(ss, n))
  {
    if n > 0 {
      SumOfExact(ss, n - 1);
      EarlierItemsDisjoint(ss, n - 1, n - 1);
      TotalOfUnion(AllItems(ss, n - 1), ss[n - 1].body.items);
      assert Exact(ss[n - 1].body);
    }
  }

  /** The children of an exact fragment count together exactly what it counted: items, dirty
      dentries, files and subdirectories, recursive sums and pins. */
  lemma SplitConservesTally(ss: seq<Snap>, b: Body, f: Frag, nb: nat)
    requires Exact(b) && Children(ss, b.items, f, nb) && AllExact(ss)
    ensures SumTally(ss, |ss|) == b.tally
  {
    ChildrenDisjoint(ss, b.items, f, nb);
    ChildrenCover(ss, b.items, f, nb);
    SumOfExact(ss, |ss|);
  }

  /** Splitting conserves accounted minus current, summed over the fragments, if it is of the
      inode's version; else none is left. */
  lemma {:induction false} SplitConservesDifference(was: Snap, ss: seq<Snap>, n: nat, rv: nat, dv: nat)
    requires 0 < n <= |ss| && SplitStats(was, ss, rv, dv)
    ensures BooksOf(ss, n).Rdiff() ==
      if was.stats.accountedRstatVersion == rv then was.stats.accountedRstat.Minus(was.body.tally.rstat) else NEST0
    ensures BooksOf(ss, n).Fdiff() ==
      if was.stats.accountedFragstatVersion == dv then was.stats.accountedFragstat.Minus(was.body.tally.fragstat)
      else COUNTS0
  {
    assert ChildStats(was, ss, n - 1, rv, dv);
    if n > 1 { SplitConservesDifference(was, ss, n - 1, rv, dv); }
  }

  lemma {:induction false} SumOfFresh(ss: seq<Snap>, n: nat, rv: nat, dv: nat, rdiff: Nest, fdiff: Counts)
    requires 0 < n <= |ss| && FreshStats(ss, rv, dv, rdiff, fdiff)
    ensures SumRstatDiff(ss, n, rv) == rdiff && SumFragstatDiff(ss, n, dv) == fdiff
  {
    assert ss[n - 1].stats == SubStats(ss[n - 1].body.tally, rv, dv,
      if n == 1 then rdiff else NEST0, if n == 1 then fdiff else COUNTS0);
    if n > 1 { SumOfFresh(ss, n - 1, rv, dv, rdiff, fdiff); }
  }

  // ---- splitting and merging back

  lemma {:induction false} MergeOfSame(ss: seq<Snap>, n: nat, m: Meta)
    requires 0 < n <= |ss| && SameMeta(ss, m)
    ensures MaxVersion(ss, n) == m.version && AllReplicas(ss, n) == m.replicas
    ensures KeptState(ss, n) == m.state * FRAGMENT_KEPT
  {
    assert ss[n - 1].meta == m;
    if n > 1 { MergeOfSame(ss, n - 1, m); }
  }

  lemma ExactPins(ss: seq<Snap>)
    requires AllExact(ss)
    ensures AllPinsExact(ss)
  {
    forall i | 0 <= i < |ss| ensures PinsExact(ss[i].body) { assert Exact(ss[i].body); }
  }

  // The merged fragment is the old one again, on top of the state it was created with.
  function BackTo(m: Meta, s: set<Bit>): Meta {
    Meta(s + m.state * FRAGMENT_KEPT, m.dirAuth, m.version, m.replicas)
  }

  // The state bits of the fragment merged into, before anything is merged.
  function Created(auth: bool, replay: bool): (s: set<Bit>)
    ensures s * FRAGMENT_KEPT == {}
  {
    if !auth then {} else if replay then {Auth} else {Auth, FrozenDir, Complete}
  }

  lemma KeptBits(m: Meta, s: set<Bit>)
    requires s * FRAGMENT_KEPT == {}
    ensures forall b <- {Dirty, ExportBound, ImportBound, RejoinUndef} :: b in BackTo(m, s).state <==> b in m.state
  {
    forall b <- {Dirty, ExportBound, ImportBound, RejoinUndef} ensures b in BackTo(m, s).state <==> b in m.state {
      assert b in FRAGMENT_KEPT && b !in s * FRAGMENT_KEPT;
    }
  }

  lemma SubMetaKeeps(m: Meta, replay: bool)
    ensures SubMeta(m, replay).state * FRAGMENT_KEPT == m.state * FRAGMENT_KEPT
  {
  }

  // Merging fresh children of a fragment yields what the fragment was.
  lemma ChildrenMergeBack(ss: seq<Snap>, was: Snap, f: Frag, nb: nat, rv: nat, dv: nat, replay: bool, s: set<Bit>)
    requires Children(ss, was.body.items, f, nb) && AllExact(ss)
    requires SameMeta(ss, SubMeta(was.meta, replay))
    requires FreshStats(ss, rv, dv, RstatDiff(was, rv), FragstatDiff(was, dv))
    ensures ss != [] && DisjointItems(ss) && AllPinsExact(ss) && AllItems(ss, |ss|) == was.body.items
    ensures SumRstatDiff(ss, |ss|, rv) == RstatDiff(was, rv) && SumFragstatDiff(ss, |ss|, dv) == FragstatDiff(was, dv)
    ensures MergedMeta(ss, |ss|, s) == BackTo(was.meta, s)
  {
    var m := SubMeta(was.meta, replay);
    ChildrenDisjoint(ss, was.body.items, f, nb);
    ChildrenCover(ss, was.body.items, f, nb);
    ExactPins(ss);
    SumOfFresh(ss, |ss|, rv, dv, RstatDiff(was, rv), FragstatDiff(was, dv));
    MergeOfSame(ss, |ss|, m);
    assert ss[|ss| - 1].meta == m;
    SubMetaKeeps(was.meta, replay);
  }

  // Merge fresh children of a fragment that was as given.
  method MergeBack(subs: seq<Dirfrag>, f: Frag, auth: bool, nb: nat, rv: nat, dv: nat, replay: bool, ghost was: Snap)
    returns (m: Dirfrag)
    requires Distinct(subs) && (forall i :: 0 <= i < |subs| ==> subs[i].authPins == 0)
    requires auth == (Auth in was.meta.state)
    requires Children(Snaps(subs), was.body.items, f, nb) && AllExact(Snaps(subs))
    requires SameMeta(Snaps(subs), SubMeta(was.meta, replay))
    requires FreshStats(Snaps(subs), rv, dv, RstatDiff(was, rv), FragstatDiff(was, dv))
    modifies subs
    ensures fresh(m) && m.frag == f && m.body.items == was.body.items && Exact(m.body)
    ensures m.meta == BackTo(was.meta, Created(auth, replay))
    ensures m.stats == SubStats(m.body.tally, rv, dv, RstatDiff(was, rv), FragstatDiff(was, dv))
  {
    ghost var ss := Snaps(subs);
    ghost var s := Created(auth, replay);
    ChildrenMergeBack(ss, was, f, nb, rv, dv, replay, s);
    m := new Dirfrag(f, auth);
    assert Snaps(subs) == ss;
    forall i | 0 <= i < |subs| ensures Unpinned(subs[i].Now(), subs[i].authPins, replay) {
      assert ss[i].meta == SubMeta(was.meta, replay);
    }
    assert s == m.meta.state + if Auth in m.meta.state && !replay then {FrozenDir, Complete} else {};
    m.Merge(subs, rv, dv, replay);
  }

  /** Splitting an exact fragment and merging the children gives back its dentries, all that
      is counted about them, its version, authority, replica nonces and kept state bits, and
      the same outstanding difference of the statistics. */
  method SplitThenMerge(d: Dirfrag, nb: nat, rv: nat, dv: nat, replay: bool) returns (m: Dirfrag)
    requires d.frag.Valid() && d.frag.bits + nb <= HASH_BITS && Exact(d.body)
    requires forall k <- d.body.items :: d.frag.Contains(d.body.items[k].hash)
    requires Unpinned(d.Now(), d.authPins, replay)
    modifies d
    ensures fresh(m) && m.frag == d.frag && m.body.items == old(d.body.items) && Exact(m.body)
    ensures m.body.tally == old(d.body.tally)
    ensures m.meta.version == old(d.meta).version && m.meta.replicas == old(d.meta).replicas
    ensures m.meta.dirAuth == old(d.meta).dirAuth
    ensures forall b <- {Dirty, ExportBound, ImportBound, RejoinUndef} :: b in m.meta.state <==> b in old(d.meta).state
    ensures BackStats(old(d.Now()), m.stats, rv, dv)
  {
    var auth := Auth in d.meta.state;
    ghost var was := d.Now();
    var subs := d.Split(nb, rv, dv, replay);
    m := MergeBack(subs, d.frag, auth, nb, rv, dv, replay, was);
    KeptBits(was.meta, Created(auth, replay));
    StatsComeBack(was, m.body.tally, m.stats, rv, dv);
  }

  // What was accounted, if it is of the inode's version, and else what is there.
  predicate BackStats(was: Snap, stats: Stats, rv: nat, dv: nat) {
    && stats.accountedRstat ==
      (if was.stats.accountedRstatVersion == rv then was.stats.accountedRstat else was.body.tally.rstat)
    && stats.accountedFragstat ==
      (if was.stats.accountedFragstatVersion == dv then was.stats.accountedFragstat else was.body.tally.fragstat)
  }

  lemma StatsComeBack(was: Snap, t: Tally, stats: Stats, rv: nat, dv: nat)
    requires t == was.body.tally && stats == SubStats(t, rv, dv, RstatDiff(was, rv), FragstatDiff(was, dv))
    ensures BackStats(was, stats, rv, dv)
  {
  }
}
