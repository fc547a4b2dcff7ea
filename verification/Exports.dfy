/** The balancer's export chooser: pick subtrees of this server's tree whose loads add up to
    about the amount to be sent away. Loads are exact reals. */
module Exports {
  import opened Options

  // A directory fragment: its subtree's load, and the fragments of its subdirectories in the
  // order they are visited.
  datatype Dir = Dir(id: nat, auth: bool, frozen: bool, rep: bool, pop: real, subs: seq<Dir>)

  // mds_bal_min_start, mds_bal_need_min, mds_bal_need_max, mds_bal_midchunk, mds_bal_minchunk
  datatype Config = Config(minStart: real, needMin: real, needMax: real, midchunk: real, minchunk: real)
  {
    predicate Sane() { minStart >= 0.0 && needMin >= 0.0 && needMax >= 0.0 }
    // How far, as a multiple of the amount asked for, a search may go.
    function Reach(): real { if needMax > 1.0 + needMin then needMax else 1.0 + needMin }
  }

  // What a search aims at: the load still wanted, what is near enough to it, and the sizes of
  // fragments worth taking at first and at all.
  datatype Aim = Aim(need: real, needmin: real, needmax: real, midchunk: real, minchunk: real)

  function AimOf(cfg: Config, amount: real, had: real): Aim {
    var need := amount - had;
    Aim(need, need * cfg.needMin, need * cfg.needMax, need * cfg.midchunk, need * cfg.minchunk)
  }

  // ---- a tree, given by its fragments and what lies below each

  // The fragments of a forest, with the ids of all fragments in the subtree of each: a
  // subtree contains its root, and those of its subdirectories, which do not overlap.
  datatype Forest = Forest(nodes: iset<Dir>, ids: Dir -> set<nat>)
  {
    ghost predicate Local(d: Dir) {
      && d.id in ids(d)
      && (forall s <- d.subs :: s in nodes && ids(s) <= ids(d) && d.id !in ids(s))
      && Apart(d.subs)
    }

    ghost predicate Valid() { forall d :: d in nodes ==> Local(d) }

    // No two of these subtrees share a fragment; in particular none contains another.
    ghost predicate Apart(ds: seq<Dir>) {
      forall i, j :: 0 <= i < j < |ds| ==> ids(ds[i]) !! ids(ds[j])
    }

    ghost predicate NonNegative() { forall d :: d in nodes ==> d.pop >= 0.0 }
  }

  function Load(ds: seq<Dir>): real {
    if ds == [] then 0.0 else Load(ds[..|ds| - 1]) + ds[|ds| - 1].pop
  }

  lemma {:induction false} LoadConcat(a: seq<Dir>, b: seq<Dir>)
    ensures Load(a + b) == Load(a) + Load(b)
  {
    if b == [] {
      assert a + b == a;
    } else {
      LoadConcat(a, b[..|b| - 1]);
      assert (a + b)[..|a + b| - 1] == a + b[..|b| - 1];
    }
  }

  // ---- the search

  // What find_exports works on by reference: the list, the load found, and what is taken.
  datatype Search = Search(exports: seq<Dir>, have: real, already: set<nat>)
  {
    function Take(x: Dir): Search { Search(exports + [x], have + x.pop, already + {x.id}) }
  }

  // From s to u exactly these fragments were chosen.
  ghost predicate Gained(s: Search, u: Search, added: seq<Dir>) {
    && u.exports == s.exports + added
    && u.have == s.have + Load(added)
    && u.already == s.already + set x <- added :: x.id
  }

  lemma {:induction false} GainedMore(s: Search, u: Search, v: Search, a: seq<Dir>, b: seq<Dir>)
    requires Gained(s, u, a) && Gained(u, v, b)
    ensures Gained(s, v, a + b)
  {
    LoadConcat(a, b);
    assert s.exports + a + b == s.exports + (a + b);
  }

  lemma {:induction false} GainedOne(s: Search, x: Dir)
    ensures Gained(s, s.Take(x), [x])
  {
    assert [x][..0] == [];
  }

  lemma {:induction false} GainedNone(s: Search)
    ensures Gained(s, s, [])
  {
    assert s.exports + [] == s.exports;
  }

  // Does find_exports look at this fragment at all?
  predicate Considered(d: Dir, already: set<nat>) {
    d.auth && d.id !in already && !d.frozen
  }

  /** Every fragment chosen may be exported, was not taken before and lies in the given
      ids; no two of them overlap. */
  ghost predicate Chosen(f: Forest, added: seq<Dir>, already: set<nat>, span: set<nat>) {
    f.Apart(added) && forall x <- added :: x in f.nodes && Considered(x, already) && f.ids(x) <= span
  }

  // The search has gone from s0 to s by choosing these fragments.
  ghost predicate Progress(f: Forest, s0: Search, s: Search, added: seq<Dir>, span: set<nat>) {
    Gained(s0, s, added) && Chosen(f, added, s0.already, span)
  }

  // Choosing more, from fragments not used yet.
  lemma {:induction false} ProgressMore(f: Forest, s0: Search, s: Search, u: Search, added: seq<Dir>, a: seq<Dir>,
                                        span: set<nat>, more: set<nat>)
    requires Progress(f, s0, s, added, span) && Progress(f, s, u, a, more) && span !! more
    ensures Progress(f, s0, u, added + a, span + more)
  {
    GainedMore(s0, s, u, added, a);
    assert s0.already <= s.already;
    forall i, j | 0 <= i < j < |added + a| ensures f.ids((added + a)[i]) !! f.ids((added + a)[j]) {
      if i < |added| { assert added[i] in added; }
      if j >= |added| { assert a[j - |added|] in a; }
    }
  }

  predicate Ascending(ds: seq<Dir>) {
    forall i, j :: 0 <= i < j < |ds| ==> ds[i].pop <= ds[j].pop
  }

  predicate Distinct(ds: seq<Dir>) {
    forall i, j :: 0 <= i < j < |ds| ==> ds[i] != ds[j]
  }

  // smaller.insert: a multimap keeps its entries in order, equal loads in order of arrival.
  method InsertByLoad(ds: seq<Dir>, x: Dir) returns (r: seq<Dir>)
    requires Ascending(ds) && Distinct(ds) && x !in ds
    ensures Ascending(r) && Distinct(r)
    ensures forall y :: y in r <==> y in ds || y == x
  {
    var n := |ds|;
    while n > 0 && ds[n - 1].pop > x.pop
      invariant 0 <= n <= |ds| && forall i :: n <= i < |ds| ==> x.pop < ds[i].pop
    {
      n := n - 1;
    }
    InsertKeepsOrder(ds, n, x);
    InsertKeepsMembers(ds, n, x);
    r := ds[..n] + [x] + ds[n..];
  }

  lemma {:induction false} InsertKeepsMembers(ds: seq<Dir>, n: nat, x: Dir)
    requires n <= |ds| && Distinct(ds) && x !in ds
    ensures Distinct(ds[..n] + [x] + ds[n..])
    ensures forall y :: y in ds[..n] + [x] + ds[n..] <==> y in ds || y == x
  {
    assert ds == ds[..n] + ds[n..];
  }

  lemma {:induction false} InsertKeepsOrder(ds: seq<Dir>, n: nat, x: Dir)
    requires n <= |ds| && Ascending(ds)
    requires (forall i :: n <= i < |ds| ==> x.pop < ds[i].pop) && (n > 0 ==> ds[n - 1].pop <= x.pop)
    ensures Ascending(ds[..n] + [x] + ds[n..])
  {
    var r := ds[..n] + [x] + ds[n..];
    assert r[n] == x && forall i :: 0 <= i < n ==> r[i] == ds[i];
    assert forall i :: n < i < |r| ==> r[i] == ds[i - 1];
  }

  // Big enough to be worth looking at.
  predicate Useful(d: Dir, already: set<nat>, minchunk: real) { Considered(d, already) && minchunk <= d.pop }

  // Just what is needed.
  predicate Fits(d: Dir, already: set<nat>, aim: Aim) {
    Useful(d, already, aim.minchunk) && aim.needmin < d.pop < aim.needmax
  }

  predicate IsBig(d: Dir, already: set<nat>, aim: Aim, rep: bool) {
    Useful(d, already, aim.minchunk) && d.pop > aim.need && d.rep == rep
  }

  // The fragments too big to be taken whole, among the first n, in the order they are visited.
  function BigOf(ds: seq<Dir>, n: nat, already: set<nat>, aim: Aim, rep: bool): seq<Dir>
    requires n <= |ds|
  {
    if n == 0 then []
    else BigOf(ds, n - 1, already, aim, rep) + if IsBig(ds[n - 1], already, aim, rep) then [ds[n - 1]] else []
  }

  lemma BigMore(ds: seq<Dir>, i: nat, already: set<nat>, aim: Aim, rep: bool)
    requires i < |ds|
    ensures IsBig(ds[i], already, aim, rep) ==>
      BigOf(ds, i + 1, already, aim, rep) == BigOf(ds, i, already, aim, rep) + [ds[i]]
    ensures !IsBig(ds[i], already, aim, rep) ==> BigOf(ds, i + 1, already, aim, rep) == BigOf(ds, i, already, aim, rep)
  {
  }

  function Bigger(ds: seq<Dir>, already: set<nat>, aim: Aim, rep: bool): (r: seq<Dir>)
    ensures forall d :: d in r <==> d in ds && IsBig(d, already, aim, rep)
  {
    BigMembers(ds, |ds|, already, aim, rep);
    assert ds[..|ds|] == ds;
    BigOf(ds, |ds|, already, aim, rep)
  }

  lemma {:induction false} BigMembers(ds: seq<Dir>, n: nat, already: set<nat>, aim: Aim, rep: bool)
    requires n <= |ds|
    ensures forall d :: d in BigOf(ds, n, already, aim, rep) <==> d in ds[..n] && IsBig(d, already, aim, rep)
  {
    if n > 0 {
      BigMembers(ds, n - 1, already, aim, rep);
      assert ds[..n] == ds[..n - 1] + [ds[n - 1]];
    }
  }

  // The first that fits.
  ghost predicate FirstFit(ds: seq<Dir>, x: Dir, already: set<nat>, aim: Aim) {
    exists i :: 0 <= i < |ds| && ds[i] == x && Fits(x, already, aim) &&
      forall j :: 0 <= j < i ==> !Fits(ds[j], already, aim)
  }

  lemma IsFirstFit(ds: seq<Dir>, i: nat, already: set<nat>, aim: Aim)
    requires i < |ds| && Fits(ds[i], already, aim) && forall j :: 0 <= j < i ==> !Fits(ds[j], already, aim)
    ensures FirstFit(ds, ds[i], already, aim)
  {
  }

  // The useful fragments that are small enough, in order of load.
  ghost predicate Small(smaller: seq<Dir>, ds: seq<Dir>, already: set<nat>, aim: Aim) {
    && Ascending(smaller) && Distinct(smaller)
    && forall d :: d in smaller <==> d in ds && Useful(d, already, aim.minchunk) && d.pop <= aim.need
  }

  // The three lists of candidates.
  ghost predicate Sorted(rep: seq<Dir>, unrep: seq<Dir>, smaller: seq<Dir>, ds: seq<Dir>, already: set<nat>,
                         aim: Aim) {
    && rep == Bigger(ds, already, aim, true) && unrep == Bigger(ds, already, aim, false)
    && Small(smaller, ds, already, aim) && Distinct(rep) && Distinct(unrep)
  }

  lemma {:induction false} BigDistinct(ds: seq<Dir>, n: nat, already: set<nat>, aim: Aim, rep: bool)
    requires Distinct(ds) && n <= |ds|
    ensures Distinct(BigOf(ds, n, already, aim, rep))
  {
    if n > 0 {
      BigDistinct(ds, n - 1, already, aim, rep);
      BigMembers(ds, n - 1, already, aim, rep);
    }
  }

  method AddSmaller(smaller: seq<Dir>, ghost ds: seq<Dir>, d: Dir, ghost already: set<nat>, ghost aim: Aim)
    returns (r: seq<Dir>)
    requires Small(smaller, ds, already, aim) && d !in ds && Useful(d, already, aim.minchunk) && d.pop <= aim.need
    ensures Small(r, ds + [d], already, aim)
  {
    r := InsertByLoad(smaller, d);
  }

  lemma SmallSkips(smaller: seq<Dir>, ds: seq<Dir>, d: Dir, already: set<nat>, aim: Aim)
    requires Small(smaller, ds, already, aim)
    ensures !Useful(d, already, aim.minchunk) || d.pop > aim.need ==> Small(smaller, ds + [d], already, aim)
  {
  }

  lemma OneMore(ds: seq<Dir>, i: nat)
    requires Distinct(ds) && i < |ds|
    ensures ds[..i + 1] == ds[..i] + [ds[i]] && ds[i] !in ds[..i]
  {
  }

  // The loop of find_exports over the subdirectories.
  method Classify(subs: seq<Dir>, aim: Aim, already: set<nat>)
    returns (lucky: Option<Dir>, rep: seq<Dir>, unrep: seq<Dir>, smaller: seq<Dir>)
    requires Distinct(subs)
    ensures lucky.Some? ==> FirstFit(subs, lucky.value, already, aim)
    ensures lucky.None? ==> (forall d <- subs :: !Fits(d, already, aim))
    ensures lucky.None? ==> Sorted(rep, unrep, smaller, subs, already, aim)
  {
    lucky, rep, unrep, smaller := None, [], [], [];
    for i := 0 to |subs|
      invariant forall j :: 0 <= j < i ==> !Fits(subs[j], already, aim)
      invariant rep == BigOf(subs, i, already, aim, true) && unrep == BigOf(subs, i, already, aim, false)
      invariant Small(smaller, subs[..i], already, aim)
    {
      var d := subs[i];
      OneMore(subs, i);
      SmallSkips(smaller, subs[..i], d, already, aim);
      BigMore(subs, i, already, aim, true);
      BigMore(subs, i, already, aim, false);
      if !d.auth || d.id in already || d.frozen || d.pop < aim.minchunk {
        continue;
      }
      if d.pop > aim.needmin && d.pop < aim.needmax {
        IsFirstFit(subs, i, already, aim);
        return Some(d), rep, unrep, smaller;
      }
      if d.pop > aim.need {
        if d.rep { rep := rep + [d]; } else { unrep := unrep + [d]; }
      } else {
        smaller := AddSmaller(smaller, subs[..i], d, already, aim);
      }
    }
    assert subs[..|subs|] == subs;
    BigDistinct(subs, |subs|, already, aim, true);
    BigDistinct(subs, |subs|, already, aim, false);
  }

  // Different subdirectories do not overlap.
  lemma {:induction false} SubsApart(f: Forest, dir: Dir, a: Dir, b: Dir)
    requires f.Valid() && dir in f.nodes && a in dir.subs && b in dir.subs && a != b
    ensures f.ids(a) !! f.ids(b)
  {
    assert f.Local(dir);
    var i :| 0 <= i < |dir.subs| && dir.subs[i] == a;
    var j :| 0 <= j < |dir.subs| && dir.subs[j] == b;
    assert if i < j then f.ids(dir.subs[i]) !! f.ids(dir.subs[j]) else f.ids(dir.subs[j]) !! f.ids(dir.subs[i]);
  }

  // What one visit of a directory has done so far: the fragments it added, all ids in their
  // subtrees, and the subdirectories it has not touched.
  datatype Visit = Visit(added: seq<Dir>, span: set<nat>, free: set<Dir>)

  ghost predicate Visiting(f: Forest, dir: Dir, s0: Search, s: Search, v: Visit) {
    && Progress(f, s0, s, v.added, v.span)
    && v.span <= f.ids(dir) - {dir.id}
    && forall d <- v.free :: d in dir.subs && f.ids(d) !! v.span
  }

  // Nothing but these subdirectories has been touched since.
  ghost predicate Untouched(v: Visit, w: Visit, ds: seq<Dir>) {
    forall d <- v.free :: d in ds || d in w.free
  }

  // One subdirectory is used: some fragments in its subtree are added.
  lemma {:induction false} UseSub(f: Forest, dir: Dir, s0: Search, s: Search, v: Visit, d: Dir, u: Search, a: seq<Dir>,
                                  w: Visit)
    requires f.Valid() && dir in f.nodes && Visiting(f, dir, s0, s, v) && d in v.free
    requires Progress(f, s, u, a, f.ids(d)) && w == Visit(v.added + a, v.span + f.ids(d), v.free - {d})
    ensures Visiting(f, dir, s0, u, w)
  {
    assert f.Local(dir);
    ProgressMore(f, s0, s, u, v.added, a, v.span, f.ids(d));
    forall e | e in w.free ensures e in dir.subs && f.ids(e) !! w.span {
      SubsApart(f, dir, d, e);
    }
  }

  // An untouched subdirectory has not been taken since the visit began.
  lemma {:induction false} StillConsidered(f: Forest, dir: Dir, s0: Search, s: Search, v: Visit, d: Dir)
    requires f.Valid() && dir in f.nodes && Visiting(f, dir, s0, s, v) && d in v.free && Considered(d, s0.already)
    ensures d in f.nodes && Considered(d, s.already)
  {
    assert f.Local(dir) && f.Local(d);
    forall x <- v.added ensures x.id != d.id {
      assert f.Local(x);
    }
  }

  lemma {:induction false} TakeSub(f: Forest, dir: Dir, s0: Search, s: Search, v: Visit, d: Dir) returns (w: Visit)
    requires f.Valid() && dir in f.nodes && Visiting(f, dir, s0, s, v) && d in v.free && Considered(d, s0.already)
    ensures w.free == v.free - {d} && Visiting(f, dir, s0, s.Take(d), w) && d in f.nodes
  {
    StillConsidered(f, dir, s0, s, v, d);
    GainedOne(s, d);
    w := Visit(v.added + [d], v.span + f.ids(d), v.free - {d});
    UseSub(f, dir, s0, s, v, d, s.Take(d), [d], w);
  }

  // How the load found may grow in one step, when loads are not negative.
  ghost predicate Grows(nonneg: bool, s: Search, u: Search, limit: real) {
    nonneg ==> s.have <= u.have && (u.have <= s.have || u.have <= limit)
  }

  // Taking these, from the last of the first n0 down to the n-th.
  function TakeDown(s: Search, ds: seq<Dir>, n: nat, n0: nat): Search
    requires n <= n0 <= |ds|
    decreases n0 - n
  {
    if n == n0 then s else TakeDown(s, ds, n + 1, n0).Take(ds[n])
  }

  // The subdirectories from n up to n0 have been taken, the last one first, and nothing else touched.
  ghost predicate Took(s: Search, u: Search, v: Visit, w: Visit, ds: seq<Dir>, n: nat, n0: nat)
    requires n <= n0 <= |ds|
  {
    && s.already <= u.already && Untouched(v, w, ds)
    && (forall i :: 0 <= i < n ==> ds[i] in w.free)
    && (forall i :: n <= i < n0 ==> ds[i].id in u.already)
  }

  ghost predicate Taking(f: Forest, dir: Dir, s0: Search, s: Search, u: Search, v: Visit, w: Visit, ds: seq<Dir>,
                         n: nat, n0: nat) {
    && n <= n0 <= |ds| && Visiting(f, dir, s0, u, w) && Took(s, u, v, w, ds, n, n0)
    && u == TakeDown(s, ds, n, n0)
  }

  lemma {:induction false} TakeNext(f: Forest, dir: Dir, s0: Search, s: Search, u: Search, v: Visit, w: Visit,
                                    ds: seq<Dir>, n: nat, n0: nat)
    returns (w': Visit)
    requires f.Valid() && dir in f.nodes && Distinct(ds) && n < n0 && Taking(f, dir, s0, s, u, v, w, ds, n + 1, n0)
    requires Considered(ds[n], s0.already)
    ensures Taking(f, dir, s0, s, u.Take(ds[n]), v, w', ds, n, n0) && ds[n] in f.nodes
  {
    w' := TakeSub(f, dir, s0, u, w, ds[n]);
    TookNext(s, u, v, w, w', ds, n, n0);
  }

  lemma {:induction false} TookNext(s: Search, u: Search, v: Visit, w: Visit, w': Visit, ds: seq<Dir>, n: nat, n0: nat)
    requires n < n0 <= |ds| && Distinct(ds) && Took(s, u, v, w, ds, n + 1, n0) && w'.free == w.free - {ds[n]}
    ensures Took(s, u.Take(ds[n]), v, w', ds, n, n0)
  {
  }

  lemma {:induction false} TakeDiffers(s: Search, ds: seq<Dir>, n: nat, n0: nat)
    requires n <= n0 <= |ds|
    ensures |TakeDown(s, ds, n, n0).exports| == |s.exports| + n0 - n
    decreases n0 - n
  {
    if n < n0 { TakeDiffers(s, ds, n + 1, n0); }
  }

  lemma {:induction false} GrowsByOne(s: Search, u: Search, x: Dir, aim: Aim, limit: real)
    requires Grows(true, s, u, limit) && 0.0 <= x.pop <= aim.need
    requires InReach(aim, s.have, limit) && (u == s || u.have <= aim.needmin)
    ensures Grows(true, s, u.Take(x), limit)
  {
  }

  predicate AllFine(ds: seq<Dir>, aim: Aim, already: set<nat>) {
    forall d <- ds :: d.pop <= aim.need && Considered(d, already)
  }

  predicate AllAtLeast(ds: seq<Dir>, n: nat, n0: nat, until: Option<real>)
    requires n <= n0 <= |ds|
  {
    until.Some? ==> forall i :: n <= i < n0 ==> until.value <= ds[i].pop
  }

  lemma AtLeastMore(ds: seq<Dir>, n: nat, n0: nat, until: Option<real>)
    requires n < n0 <= |ds| && AllAtLeast(ds, n + 1, n0, until) && (until.Some? ==> until.value <= ds[n].pop)
    ensures AllAtLeast(ds, n, n0, until)
  {
  }

  lemma {:induction false} AllLoaded(f: Forest, dir: Dir, v: Visit, ds: seq<Dir>, n0: nat)
    requires f.Valid() && dir in f.nodes && f.NonNegative() && (forall d <- v.free :: d in dir.subs) && n0 <= |ds|
    requires forall i :: 0 <= i < n0 ==> ds[i] in v.free
    ensures forall i :: 0 <= i < n0 ==> ds[i].pop >= 0.0
  {
    assert f.Local(dir);
  }

  // The two loops of find_exports over the smaller fragments, biggest first: stop at the
  // given size, if any, or as soon as enough is found.
  method TakeSmaller(ghost f: Forest, ghost dir: Dir, ghost s0: Search, s: Search, ghost v: Visit, ghost nonneg: bool,
                     ghost limit: real, smaller: seq<Dir>, n0: nat, until: Option<real>, aim: Aim)
    returns (n: nat, u: Search, done: bool, ghost w: Visit)
    requires f.Valid() && dir in f.nodes && Visiting(f, dir, s0, s, v) && n0 <= |smaller| && Distinct(smaller)
    requires (forall i :: 0 <= i < n0 ==> smaller[i] in v.free) && AllFine(smaller, aim, s0.already)
    requires nonneg ==> f.NonNegative() && InReach(aim, s.have, limit)
    ensures Taking(f, dir, s0, s, u, v, w, smaller, n, n0)
    ensures done == (u != s && u.have > aim.needmin)
    ensures done || n == 0 || (until.Some? && smaller[n - 1].pop < until.value)
    ensures AllAtLeast(smaller, n, n0, until)
    ensures Grows(nonneg, s, u, limit)
  {
    if nonneg { AllLoaded(f, dir, v, smaller, n0); }
    n, u, done := TakeWhile(s, nonneg, limit, smaller, n0, until, aim, s0.already);
    w := TakeAllSubs(f, dir, s0, s, v, smaller, n, n0, aim);
  }

  method TakeWhile(s: Search, ghost nonneg: bool, ghost limit: real, smaller: seq<Dir>, n0: nat, until: Option<real>,
                   aim: Aim, ghost already: set<nat>)
    returns (n: nat, u: Search, done: bool)
    requires n0 <= |smaller| && AllFine(smaller, aim, already)
    requires nonneg ==> InReach(aim, s.have, limit) && forall i :: 0 <= i < n0 ==> smaller[i].pop >= 0.0
    ensures n <= n0 && u == TakeDown(s, smaller, n, n0) && done == (u != s && u.have > aim.needmin)
    ensures done || n == 0 || (until.Some? && smaller[n - 1].pop < until.value)
    ensures AllAtLeast(smaller, n, n0, until) && Grows(nonneg, s, u, limit)
  {
    n, u, done := n0, s, false;
    while n > 0 && !done && !(until.Some? && smaller[n - 1].pop < until.value)
      invariant n <= n0 && u == TakeDown(s, smaller, n, n0) && done == (u != s && u.have > aim.needmin)
      invariant AllAtLeast(smaller, n, n0, until) && Grows(nonneg, s, u, limit)
    {
      n := n - 1;
      AtLeastMore(smaller, n, n0, until);
      if nonneg { GrowsByOne(s, u, smaller[n], aim, limit); }
      TakeDiffers(s, smaller, n, n0);
      u := u.Take(smaller[n]);
      done := u.have > aim.needmin;
    }
  }

  lemma {:induction false} TakeAllSubs(f: Forest, dir: Dir, s0: Search, s: Search, v: Visit, ds: seq<Dir>, n: nat,
                                       n0: nat, aim: Aim)
    returns (w: Visit)
    requires f.Valid() && dir in f.nodes && Visiting(f, dir, s0, s, v) && n <= n0 <= |ds| && Distinct(ds)
    requires (forall i :: 0 <= i < n0 ==> ds[i] in v.free) && AllFine(ds, aim, s0.already)
    ensures Taking(f, dir, s0, s, TakeDown(s, ds, n, n0), v, w, ds, n, n0)
    decreases n0 - n
  {
    if n == n0 {
      w := v;
    } else {
      w := TakeAllSubs(f, dir, s0, s, v, ds, n + 1, n0, aim);
      w := TakeNext(f, dir, s0, s, TakeDown(s, ds, n + 1, n0), v, w, ds, n, n0);
    }
  }

  // ---- find_exports

  // No load is negative, so the search can only gain.
  ghost predicate Regular(f: Forest, cfg: Config, amount: real, limit: real, have: real) {
    f.NonNegative() && cfg.Sane() && amount >= 0.0 && have >= 0.0 && limit == cfg.Reach() * amount
  }

  lemma {:induction false} TimesMonotone(a: real, b: real, c: real)
    requires a <= b && c >= 0.0
    ensures a * c <= b * c
  {
  }

  lemma {:induction false} TimesMinus(a: real, b: real, c: real)
    ensures (a - b) * c == a * c - b * c
  {
  }

  // What was found plus a multiple of what is still wanted.
  lemma {:induction false} Overshoot(amount: real, had: real, c: real, reach: real)
    requires 0.0 <= had <= amount && 0.0 <= c <= reach && 1.0 <= reach
    ensures had + (amount - had) * c <= amount * reach
  {
    TimesMinus(amount, had, c);
    if c >= 1.0 {
      TimesMonotone(1.0, c, had);
      TimesMonotone(c, reach, amount);
      BelowSum(had, amount * c, had * c, amount * reach);
    } else {
      TimesMonotone(c, 1.0, amount - had);
      TimesMonotone(1.0, reach, amount);
      BelowSum(had, amount - had, 0.0, amount * reach);
    }
  }

  lemma {:induction false} BelowSum(x: real, y: real, z: real, limit: real)
    requires (x <= z && y <= limit) || (z == 0.0 && x + y <= limit)
    ensures x + (y - z) <= limit
  {
  }

  // The arithmetic of the limit: had is what was found before, need what is still wanted.
  lemma {:induction false} WithinReach(cfg: Config, amount: real, had: real)
    requires cfg.Sane() && amount >= 0.0 && had >= 0.0 && amount - had >= amount * cfg.minStart
    ensures var need := amount - had;
      && need >= 0.0
      && had + need <= cfg.Reach() * amount
      && need * cfg.needMin + need <= cfg.Reach() * amount
      && had + need * cfg.needMax <= cfg.Reach() * amount
  {
    var need := amount - had;
    TimesMonotone(0.0, amount, cfg.minStart);
    TimesMonotone(need, amount, cfg.needMin);
    TimesMonotone(1.0 + cfg.needMin, cfg.Reach(), amount);
    TimesMonotone(cfg.needMax, cfg.Reach(), amount);
    TimesMonotone(1.0, cfg.Reach(), amount);
    assert (1.0 + cfg.needMin) * amount == amount + amount * cfg.needMin;
    Overshoot(amount, had, cfg.needMax, cfg.Reach());
  }

  // ---- drilling into bigger fragments

  // A later state of the search.
  predicate Later(s: Search, u: Search) { s.have <= u.have && s.already <= u.already }

  // A search that ends with this little has not stopped early anywhere.
  predicate TooLittle(cfg: Config, amount: real, z: Search) {
    && cfg.minchunk >= 0.0 && amount * cfg.minStart <= amount - z.have
    && z.have <= AimOf(cfg, amount, z.have).needmin
  }

  // Every considered subdirectory with a load of at least low is taken, or else it is bigger than
  // high and the same holds below it.
  predicate NothingLeft(dir: Dir, start: set<nat>, low: real, high: real, taken: set<nat>) {
    forall d <- dir.subs :: Useful(d, start, low) ==>
      d.id in taken || (d.pop > high && NothingLeft(d, start, low, high, taken))
  }

  // From s to u this directory was searched: whatever follows, if the whole search ends with too
  // little then nothing is left below it.
  ghost predicate Searched(cfg: Config, amount: real, dir: Dir, s: Search, u: Search) {
    forall z: Search :: Later(u, z) && TooLittle(cfg, amount, z) ==>
      NothingLeft(dir, s.already, AimOf(cfg, amount, s.have).minchunk, amount - z.have, z.already)
  }

  lemma {:induction false} NothingLeftMore(dir: Dir, start: set<nat>, low: real, start': set<nat>, low': real,
                                           high: real, taken: set<nat>)
    requires NothingLeft(dir, start', low', high, taken) && start' <= taken && low' <= low
    ensures NothingLeft(dir, start, low, high, taken)
  {
    forall d <- dir.subs | Useful(d, start, low)
      ensures d.id in taken || (d.pop > high && NothingLeft(d, start, low, high, taken))
    {
      if d.id !in taken { NothingLeftMore(d, start, low, start', low', high, taken); }
    }
  }

  // The more is found, the less is aimed at.
  lemma {:induction false} AimFalls(cfg: Config, amount: real, had: real, have: real)
    requires had <= have
    ensures cfg.minchunk >= 0.0 ==> AimOf(cfg, amount, have).minchunk <= AimOf(cfg, amount, had).minchunk
    ensures cfg.needMin >= 0.0 ==> AimOf(cfg, amount, have).needmin <= AimOf(cfg, amount, had).needmin
  {
    if cfg.minchunk >= 0.0 { MinchunkFalls(cfg, amount, had, have); }
    if cfg.needMin >= 0.0 { NeedminFalls(cfg, amount, had, have); }
  }

  lemma {:induction false} MinchunkFalls(cfg: Config, amount: real, had: real, have: real)
    requires had <= have && cfg.minchunk >= 0.0
    ensures AimOf(cfg, amount, have).minchunk <= AimOf(cfg, amount, had).minchunk
  {
    var less, more := amount - have, amount - had;
    TimesMonotone(less, more, cfg.minchunk);
    assert AimOf(cfg, amount, have).minchunk == less * cfg.minchunk;
    assert AimOf(cfg, amount, had).minchunk == more * cfg.minchunk;
  }

  lemma {:induction false} NeedminFalls(cfg: Config, amount: real, had: real, have: real)
    requires had <= have && cfg.needMin >= 0.0
    ensures AimOf(cfg, amount, have).needmin <= AimOf(cfg, amount, had).needmin
  {
    var less, more := amount - have, amount - had;
    TimesMonotone(less, more, cfg.needMin);
    assert AimOf(cfg, amount, have).needmin == less * cfg.needMin;
    assert AimOf(cfg, amount, had).needmin == more * cfg.needMin;
  }

  // Beginning earlier and ending later.
  lemma {:induction false} SearchedMore(cfg: Config, amount: real, d: Dir, s0: Search, s: Search, u: Search, u': Search)
    requires Later(s0, s) && Searched(cfg, amount, d, s, u) && Later(s, u) && Later(u, u')
    ensures Searched(cfg, amount, d, s0, u')
  {
    forall z: Search | Later(u', z) && TooLittle(cfg, amount, z)
      ensures NothingLeft(d, s0.already, AimOf(cfg, amount, s0.have).minchunk, amount - z.have, z.already)
    {
      assert Later(u, z);
      AimFalls(cfg, amount, s0.have, s.have);
      NothingLeftMore(d, s0.already, AimOf(cfg, amount, s0.have).minchunk, s.already,
                      AimOf(cfg, amount, s.have).minchunk, amount - z.have, z.already);
    }
  }

  // All of these were searched.
  ghost predicate AllSearched(cfg: Config, amount: real, ds: seq<Dir>, s: Search, u: Search) {
    forall d <- ds :: Searched(cfg, amount, d, s, u)
  }

  lemma {:induction false} AllSearchedMore(cfg: Config, amount: real, ds: seq<Dir>, s0: Search, s: Search, u: Search,
                                           u': Search)
    requires Later(s0, s) && AllSearched(cfg, amount, ds, s, u) && Later(s, u) && Later(u, u')
    ensures AllSearched(cfg, amount, ds, s0, u')
  {
    forall d <- ds ensures Searched(cfg, amount, d, s0, u') { SearchedMore(cfg, amount, d, s0, s, u, u'); }
  }

  lemma {:induction false} SearchedNext(cfg: Config, amount: real, ds: seq<Dir>, i: nat, s: Search, u: Search,
                                        u': Search)
    requires i < |ds| && Later(s, u) && Later(u, u')
    requires AllSearched(cfg, amount, ds[..i], s, u) && Searched(cfg, amount, ds[i], u, u')
    ensures AllSearched(cfg, amount, ds[..i + 1], s, u')
  {
    AllSearchedMore(cfg, amount, ds[..i], s, s, u, u');
    SearchedMore(cfg, amount, ds[i], s, u, u', u');
    assert ds[..i + 1] == ds[..i] + [ds[i]];
  }

  // These were searched one after the other, from each stop to the next.
  ghost predicate Drills(cfg: Config, amount: real, ds: seq<Dir>, stops: seq<Search>) {
    |stops| == |ds| + 1 && forall i :: 0 <= i < |ds| ==> Ended(cfg, ds[i], amount, stops[i], stops[i + 1])
  }

  lemma {:induction false} DrillsMore(cfg: Config, amount: real, ds: seq<Dir>, i: nat, stops: seq<Search>, u: Search)
    requires i < |ds| && Drills(cfg, amount, ds[..i], stops) && Ended(cfg, ds[i], amount, stops[i], u)
    ensures Drills(cfg, amount, ds[..i + 1], stops + [u])
  {
    var more, stops' := ds[..i + 1], stops + [u];
    forall k | 0 <= k < |more| ensures Ended(cfg, more[k], amount, stops'[k], stops'[k + 1]) {
      if k < i { assert Ended(cfg, ds[..i][k], amount, stops[k], stops[k + 1]); }
    }
  }

  // The loops of find_exports that drill into bigger fragments.
  method Descend(ghost f: Forest, cfg: Config, dir: Dir, amount: real, ghost s0: Search, s: Search, ghost v: Visit,
                 ghost nonneg: bool, ghost limit: real, ds: seq<Dir>, needmin: real)
    returns (u: Search, done: bool, ghost w: Visit, ghost stops: seq<Search>)
    requires f.Valid() && dir in f.nodes && Visiting(f, dir, s0, s, v) && Distinct(ds)
    requires forall d <- ds :: d in v.free
    requires nonneg ==> Regular(f, cfg, amount, limit, s.have)
    ensures Visiting(f, dir, s0, u, w) && Untouched(v, w, ds) && s.already <= u.already
    ensures done ==> u.have > needmin
    ensures !done ==> u == s || u.have <= needmin
    ensures !done ==> Drills(cfg, amount, ds, stops) && stops[0] == s && stops[|ds|] == u
    ensures Grows(nonneg, s, u, limit) && (nonneg && !done ==> AllSearched(cfg, amount, ds, s, u))
    decreases dir, 0
  {
    u, done, w, stops := s, false, v, [s];
    var i := 0;
    while i < |ds| && !done
      invariant i <= |ds| && Visiting(f, dir, s0, u, w) && Untouched(v, w, ds) && s.already <= u.already
      invariant forall j :: i <= j < |ds| ==> ds[j] in w.free
      invariant if done then u.have > needmin else u == s || u.have <= needmin
      invariant Drills(cfg, amount, ds[..i], stops) && stops[0] == s && stops[i] == u
      invariant Grows(nonneg, s, u, limit) && (nonneg ==> AllSearched(cfg, amount, ds[..i], s, u))
    {
      assert ds[i] in w.free;
      ghost var before := u;
      u, w := DrillInto(f, cfg, dir, amount, s0, u, w, nonneg, limit, ds[i]);
      if nonneg { SearchedNext(cfg, amount, ds, i, s, before, u); }
      DrillsMore(cfg, amount, ds, i, stops, u);
      stops := stops + [u];
      done := u.have > needmin;
      i := i + 1;
    }
    assert i == |ds| ==> ds[..i] == ds;
  }

  method DrillInto(ghost f: Forest, cfg: Config, dir: Dir, amount: real, ghost s0: Search, s: Search, ghost v: Visit,
                   ghost nonneg: bool, ghost limit: real, d: Dir)
    returns (u: Search, ghost w: Visit)
    requires f.Valid() && dir in f.nodes && Visiting(f, dir, s0, s, v) && d in v.free
    requires nonneg ==> Regular(f, cfg, amount, limit, s.have)
    ensures Visiting(f, dir, s0, u, w) && w.free == v.free - {d} && s.already <= u.already
    ensures Grows(nonneg, s, u, limit) && (nonneg ==> Searched(cfg, amount, d, s, u))
    ensures Ended(cfg, d, amount, s, u)
    decreases dir, 0, 0
  {
    SubIsSmaller(f, dir, d);
    ghost var a, p;
    u, a, p := FindExports(f, cfg, d, amount, s, nonneg, limit);
    w := UseBelow(f, dir, s0, s, v, d, u, a);
  }

  lemma {:induction false} SubIsSmaller(f: Forest, dir: Dir, d: Dir)
    requires f.Valid() && dir in f.nodes && d in dir.subs
    ensures d in f.nodes && (dir decreases to d) && f.ids(d) <= f.ids(dir) - {dir.id}
  {
    assert f.Local(dir);
  }

  lemma {:induction false} UseBelow(f: Forest, dir: Dir, s0: Search, s: Search, v: Visit, d: Dir, u: Search,
                                    a: seq<Dir>) returns (w: Visit)
    requires f.Valid() && dir in f.nodes && Visiting(f, dir, s0, s, v) && d in v.free
    requires Progress(f, s, u, a, f.ids(d) - {d.id})
    ensures w.free == v.free - {d} && Visiting(f, dir, s0, u, w) && s.already <= u.already
  {
    w := Visit(v.added + a, v.span + f.ids(d), v.free - {d});
    UseSub(f, dir, s0, s, v, d, u, a, w);
  }

  // How a search ended: at once, with a fragment that fits, as soon as enough was found, or after
  // all that can be done: the bigger ones of the small fragments, drilling from each stop to the
  // next, the other small ones, and drilling again.
  datatype Course =
    | Enough
    | Lucky(x: Dir)
    | Early
    | Full(smaller: seq<Dir>, n: nat, unrepStops: seq<Search>, repStops: seq<Search>)

  // The second half of a full course.
  ghost predicate Rest(cfg: Config, amount: real, rep: seq<Dir>, unrep: seq<Dir>, smaller: seq<Dir>, n: nat, s: Search,
                       a: seq<Search>, b: seq<Search>, u: Search) {
    && n <= |smaller|
    && Drills(cfg, amount, unrep, a) && a[0] == s
    && Drills(cfg, amount, rep, b) && b[|rep|] == u
    && b[0] == TakeDown(a[|unrep|], smaller, 0, n)
  }

  /** What the search of one directory did, in order. */
  ghost predicate Went(cfg: Config, dir: Dir, amount: real, s0: Search, s: Search, c: Course) {
    var aim := AimOf(cfg, amount, s0.have);
    if aim.need < amount * cfg.minStart then c.Enough? && s == s0
    else WentFor(cfg, dir, amount, aim, s0, s, c)
  }

  ghost predicate WentFor(cfg: Config, dir: Dir, amount: real, aim: Aim, s0: Search, s: Search, c: Course) {
    match c
    case Enough => false
    case Lucky(x) => FirstFit(dir.subs, x, s0.already, aim) && s == s0.Take(x)
    case Early => NoneFits(dir, s0.already, aim) && s.have > aim.needmin
    case Full(_, _, _, _) => NoneFits(dir, s0.already, aim) && FullCourse(cfg, dir, amount, aim, s0, s, c)
  }

  predicate NoneFits(dir: Dir, already: set<nat>, aim: Aim) { forall d <- dir.subs :: !Fits(d, already, aim) }

  // First come the small fragments of at least midchunk, biggest first.
  ghost predicate FullCourse(cfg: Config, dir: Dir, amount: real, aim: Aim, s0: Search, s: Search, c: Course)
    requires c.Full?
  {
    && Small(c.smaller, dir.subs, s0.already, aim) && Midway(c.smaller, c.n, aim.midchunk)
    && c.unrepStops != [] && c.unrepStops[0] == TakeDown(s0, c.smaller, c.n, |c.smaller|)
    && Rest(cfg, amount, Bigger(dir.subs, s0.already, aim, true), Bigger(dir.subs, s0.already, aim, false), c.smaller,
            c.n, c.unrepStops[0], c.unrepStops, c.repStops, s)
  }

  // The rest of find_exports after its first loop.
  method Choose(ghost f: Forest, cfg: Config, dir: Dir, amount: real, aim: Aim, s0: Search, ghost nonneg: bool,
                ghost limit: real, rep: seq<Dir>, unrep: seq<Dir>, smaller: seq<Dir>)
    returns (s: Search, ghost v: Visit, ghost c: Course)
    requires f.Valid() && dir in f.nodes && Sorted(rep, unrep, smaller, dir.subs, s0.already, aim)
    requires nonneg ==> Regular(f, cfg, amount, limit, s0.have) && InReach(aim, s0.have, limit)
    ensures Visiting(f, dir, s0, s, v) && Grows(nonneg, s0, s, limit)
    ensures s.have > aim.needmin || forall i :: 0 <= i < |smaller| ==> smaller[i].id in s.already
    ensures nonneg && s.have <= aim.needmin ==> AllSearched(cfg, amount, rep + unrep, s0, s)
    ensures if s.have > aim.needmin then c == Early else c.Full? && FullCourse(cfg, dir, amount, aim, s0, s, c)
    decreases dir, 2
  {
    ghost var v0 := Visit([], {}, set d <- dir.subs);
    var n, done;
    c := Early;
    n, s, done, v := TakeSmaller(f, dir, s0, s0, v0, nonneg, limit, smaller, |smaller|, Some(aim.midchunk), aim);
    if done { return; }
    ghost var s1 := s;
    ghost var a, b;
    IsMidway(smaller, n, aim.midchunk);
    s, v, a, b := Deeper(f, cfg, dir, amount, aim, s0, s, v, nonneg, limit, rep, unrep, smaller, n);
    if s.have <= aim.needmin {
      if nonneg { AllSearchedMore(cfg, amount, rep + unrep, s0, s1, s, s); }
      c := Full(smaller, n, a, b);
      IsFullCourse(cfg, dir, amount, aim, s0, s1, s, rep, unrep, c);
    }
  }

  lemma {:induction false} IsFullCourse(cfg: Config, dir: Dir, amount: real, aim: Aim, s0: Search, s1: Search,
                                        s: Search, rep: seq<Dir>, unrep: seq<Dir>, c: Course)
    requires c.Full? && Sorted(rep, unrep, c.smaller, dir.subs, s0.already, aim) && Midway(c.smaller, c.n, aim.midchunk)
    requires s1 == TakeDown(s0, c.smaller, c.n, |c.smaller|)
    requires Rest(cfg, amount, rep, unrep, c.smaller, c.n, s1, c.unrepStops, c.repStops, s)
    ensures FullCourse(cfg, dir, amount, aim, s0, s, c)
  {
  }

  lemma {:induction false} IsMidway(smaller: seq<Dir>, n: nat, midchunk: real)
    requires Ascending(smaller) && n <= |smaller| && (n == 0 || smaller[n - 1].pop < midchunk)
    requires forall i :: n <= i < |smaller| ==> midchunk <= smaller[i].pop
    ensures Midway(smaller, n, midchunk)
  {
  }

  // From n on these are at least that big, and before n smaller.
  predicate Midway(smaller: seq<Dir>, n: nat, midchunk: real) {
    && n <= |smaller| && (forall i :: 0 <= i < n ==> smaller[i].pop < midchunk)
    && (forall i :: n <= i < |smaller| ==> midchunk <= smaller[i].pop)
  }

  // Whatever is taken of a small fragment stays within the limit.
  predicate InReach(aim: Aim, had: real, limit: real) { had + aim.need <= limit && aim.needmin + aim.need <= limit }

  // Not enough was found: drill into bigger fragments, then use small ones, then drill into
  // replicated ones.
  method Deeper(ghost f: Forest, cfg: Config, dir: Dir, amount: real, aim: Aim, ghost s0: Search, s: Search,
                ghost v: Visit, ghost nonneg: bool, ghost limit: real, rep: seq<Dir>, unrep: seq<Dir>,
                smaller: seq<Dir>, n: nat)
    returns (u: Search, ghost w: Visit, ghost a: seq<Search>, ghost b: seq<Search>)
    requires f.Valid() && dir in f.nodes && Visiting(f, dir, s0, s, v) && n <= |smaller|
    requires Sorted(rep, unrep, smaller, dir.subs, s0.already, aim)
    requires (forall d <- rep :: d in v.free) && (forall d <- unrep :: d in v.free)
    requires (forall i :: 0 <= i < n ==> smaller[i] in v.free)
    requires nonneg ==> Regular(f, cfg, amount, limit, s.have) && InReach(aim, s.have, limit)
    ensures Visiting(f, dir, s0, u, w) && Grows(nonneg, s, u, limit) && s.already <= u.already
    ensures u.have > aim.needmin || forall i :: 0 <= i < n ==> smaller[i].id in u.already
    ensures nonneg && u.have <= aim.needmin ==> AllSearched(cfg, amount, rep + unrep, s, u)
    ensures u.have > aim.needmin || Rest(cfg, amount, rep, unrep, smaller, n, s, a, b, u)
    decreases dir, 1
  {
    var done, k, u1, u2;
    ghost var w1, w2;
    b := [];
    u1, done, w1, a := Descend(f, cfg, dir, amount, s0, s, v, nonneg, limit, unrep, aim.needmin);
    if done { return u1, w1, a, b; }
    k, u2, done, w2 := TakeSmaller(f, dir, s0, u1, w1, nonneg, limit, smaller, n, None, aim);
    if done { return u2, w2, a, b; }
    u, done, w, b := Descend(f, cfg, dir, amount, s0, u2, w2, nonneg, limit, rep, aim.needmin);
    if nonneg && !done { BothSearched(cfg, amount, rep, unrep, s, u1, u2, u); }
  }

  lemma {:induction false} BothSearched(cfg: Config, amount: real, rep: seq<Dir>, unrep: seq<Dir>, s: Search,
                                        u1: Search, u2: Search, u: Search)
    requires Later(s, u1) && Later(u1, u2) && Later(u2, u)
    requires AllSearched(cfg, amount, unrep, s, u1) && AllSearched(cfg, amount, rep, u2, u)
    ensures AllSearched(cfg, amount, rep + unrep, s, u)
  {
    AllSearchedMore(cfg, amount, unrep, s, s, u1, u);
    AllSearchedMore(cfg, amount, rep, s, u2, u, u);
  }

  // A search that ends with too little has used up every subdirectory of a useful size.
  ghost predicate Thorough(dir: Dir, aim: Aim, s0: Search, s: Search) {
    s.have <= aim.needmin ==>
      forall d <- dir.subs :: Useful(d, s0.already, aim.minchunk) && d.pop <= aim.need ==> d.id in s.already
  }

  // It has then also searched every bigger one.
  lemma {:induction false} LeavesNothing(cfg: Config, dir: Dir, amount: real, aim: Aim, s0: Search, s: Search,
                                         rep: seq<Dir>, unrep: seq<Dir>, smaller: seq<Dir>, z: Search)
    requires Sorted(rep, unrep, smaller, dir.subs, s0.already, aim) && AllSearched(cfg, amount, rep + unrep, s0, s)
    requires forall i :: 0 <= i < |smaller| ==> smaller[i].id in s.already
    requires aim == AimOf(cfg, amount, s0.have) && Later(s0, s) && Later(s, z) && TooLittle(cfg, amount, z)
    ensures NothingLeft(dir, s0.already, aim.minchunk, amount - z.have, z.already)
  {
    forall d <- dir.subs | Useful(d, s0.already, aim.minchunk)
      ensures d.id in z.already || (d.pop > amount - z.have &&
                NothingLeft(d, s0.already, aim.minchunk, amount - z.have, z.already))
    {
      if d.pop <= aim.need {
        assert d in smaller;
      } else {
        assert d in rep + unrep && Searched(cfg, amount, d, s0, s);
      }
    }
  }

  lemma {:induction false} SearchedDir(cfg: Config, dir: Dir, amount: real, aim: Aim, s0: Search, s: Search,
                                       rep: seq<Dir>, unrep: seq<Dir>, smaller: seq<Dir>)
    requires Sorted(rep, unrep, smaller, dir.subs, s0.already, aim)
    requires s.have <= aim.needmin ==> AllSearched(cfg, amount, rep + unrep, s0, s)
    requires s.have <= aim.needmin ==> forall i :: 0 <= i < |smaller| ==> smaller[i].id in s.already
    requires aim == AimOf(cfg, amount, s0.have) && Later(s0, s) && cfg.needMin >= 0.0
    ensures Searched(cfg, amount, dir, s0, s)
  {
    forall z: Search | Later(s, z) && TooLittle(cfg, amount, z)
      ensures NothingLeft(dir, s0.already, aim.minchunk, amount - z.have, z.already)
    {
      AimFalls(cfg, amount, s0.have, z.have);
      LeavesNothing(cfg, dir, amount, aim, s0, s, rep, unrep, smaller, z);
    }
  }

  // A search that found enough has not ended with too little.
  lemma {:induction false} EnoughSearched(cfg: Config, dir: Dir, amount: real, s0: Search, s: Search)
    requires cfg.needMin >= 0.0 && Later(s0, s)
    requires s.have > AimOf(cfg, amount, s0.have).needmin || amount - s.have < amount * cfg.minStart
    ensures Searched(cfg, amount, dir, s0, s)
  {
    forall z: Search | Later(s, z) ensures !TooLittle(cfg, amount, z) {
      AimFalls(cfg, amount, s0.have, z.have);
    }
  }

  // find_exports, once it is clear that more is needed.
  method LookIn(ghost f: Forest, cfg: Config, dir: Dir, amount: real, aim: Aim, s0: Search, ghost nonneg: bool,
                ghost limit: real)
    returns (s: Search, ghost added: seq<Dir>, ghost c: Course)
    requires f.Valid() && dir in f.nodes && aim == AimOf(cfg, amount, s0.have)
    requires nonneg ==> Regular(f, cfg, amount, limit, s0.have) && InReach(aim, s0.have, limit)
    requires nonneg ==> s0.have + aim.needmax <= limit
    ensures Progress(f, s0, s, added, f.ids(dir) - {dir.id})
    ensures Grows(nonneg, s0, s, limit)
    ensures s0.have >= 0.0 ==> Thorough(dir, aim, s0, s)
    ensures nonneg ==> Searched(cfg, amount, dir, s0, s)
    ensures WentFor(cfg, dir, amount, aim, s0, s, c)
    decreases dir, 3
  {
    SubsDistinct(f, dir);
    var lucky, rep, unrep, smaller := Classify(dir.subs, aim, s0.already);
    if lucky.Some? {
      s, added, c := s0.Take(lucky.value), [lucky.value], Lucky(lucky.value);
      GainedOne(s0, lucky.value);
      SubIsSmaller(f, dir, lucky.value);
      if nonneg { EnoughSearched(cfg, dir, amount, s0, s); }
    } else {
      ghost var v;
      s, v, c := Choose(f, cfg, dir, amount, aim, s0, nonneg, limit, rep, unrep, smaller);
      added := v.added;
      if nonneg { SearchedDir(cfg, dir, amount, aim, s0, s, rep, unrep, smaller); }
    }
  }

  // Nothing is looked for when little is missing.
  ghost predicate Ended(cfg: Config, dir: Dir, amount: real, s0: Search, s: Search) {
    var aim := AimOf(cfg, amount, s0.have);
    if aim.need < amount * cfg.minStart then s == s0 else s0.have >= 0.0 ==> Thorough(dir, aim, s0, s)
  }

  // What find_exports aims at, worked out from the configuration.
  method Aims(cfg: Config, amount: real, had: real) returns (enough: bool, aim: Aim)
    ensures aim == AimOf(cfg, amount, had) && enough == (amount - had < amount * cfg.minStart)
  {
    var need := amount - had;
    enough := need < amount * cfg.minStart;
    aim := Aim(need, need * cfg.needMin, need * cfg.needMax, need * cfg.midchunk, need * cfg.minchunk);
  }

  lemma {:induction false} AimInReach(cfg: Config, amount: real, had: real)
    requires cfg.Sane() && amount >= 0.0 && had >= 0.0 && amount - had >= amount * cfg.minStart
    ensures var aim := AimOf(cfg, amount, had);
      InReach(aim, had, cfg.Reach() * amount) && had + aim.needmax <= cfg.Reach() * amount
  {
    WithinReach(cfg, amount, had);
  }

  /** Add to the list fragments below dir, up to about the amount asked for. */
  method FindExports(ghost f: Forest, cfg: Config, dir: Dir, amount: real, s0: Search, ghost nonneg: bool,
                     ghost limit: real)
    returns (s: Search, ghost added: seq<Dir>, ghost c: Course)
    requires f.Valid() && dir in f.nodes
    requires nonneg ==> Regular(f, cfg, amount, limit, s0.have)
    ensures Progress(f, s0, s, added, f.ids(dir) - {dir.id})
    ensures Grows(nonneg, s0, s, limit)
    ensures Ended(cfg, dir, amount, s0, s) && Went(cfg, dir, amount, s0, s, c)
    ensures nonneg ==> Searched(cfg, amount, dir, s0, s)
    decreases dir, 4
  {
    var enough, aim := Aims(cfg, amount, s0.have);
    if enough {
      s, added, c := s0, [], Enough;
      GainedNone(s0);
      if nonneg { EnoughSearched(cfg, dir, amount, s0, s); }
    } else {
      if nonneg { AimInReach(cfg, amount, s0.have); }
      s, added, c := LookIn(f, cfg, dir, amount, aim, s0, nonneg, limit);
    }
  }

  lemma {:induction false} SubsDistinct(f: Forest, dir: Dir)
    requires f.Valid() && dir in f.nodes
    ensures Distinct(dir.subs)
  {
    assert f.Local(dir);
    forall i, j | 0 <= i < j < |dir.subs| ensures dir.subs[i] != dir.subs[j] {
      assert f.Local(dir.subs[i]);
    }
  }
}
