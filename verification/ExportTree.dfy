/** find_exports on a tree of fragments with distinct ids. */
module ExportTree {
  import opened Exports

  function Ids(d: Dir): set<nat> { {d.id} + IdsOf(d.subs) }

  function IdsOf(ds: seq<Dir>): set<nat> {
    if ds == [] then {} else IdsOf(ds[..|ds| - 1]) + Ids(ds[|ds| - 1])
  }

  // d is r or a descendant of it.
  predicate Within(d: Dir, r: Dir) { d == r || exists s <- r.subs :: Within(d, s) }

  predicate Below(d: Dir, r: Dir) { exists s <- r.subs :: Within(d, s) }

  // No id occurs twice.
  predicate Tree(d: Dir) {
    && (forall s <- d.subs :: Tree(s) && d.id !in Ids(s))
    && (forall i, j :: 0 <= i < j < |d.subs| ==> Ids(d.subs[i]) !! Ids(d.subs[j]))
  }

  ghost predicate Loaded(r: Dir) { forall d :: Within(d, r) ==> d.pop >= 0.0 }

  ghost function AsForest(r: Dir): Forest { Forest((iset d | Within(d, r)), Ids) }

  lemma {:induction false} IdsInclude(ds: seq<Dir>, s: Dir)
    requires s in ds
    ensures Ids(s) <= IdsOf(ds)
  {
    if s != ds[|ds| - 1] { IdsInclude(ds[..|ds| - 1], s); }
  }

  lemma {:induction false} WithinSubs(d: Dir, r: Dir)
    requires Within(d, r) && Tree(r)
    ensures Tree(d) && (forall s <- d.subs :: Within(s, r)) && d.id in Ids(r)
  {
    if d != r {
      var s :| s in r.subs && Within(d, s);
      WithinSubs(d, s);
      IdsInclude(r.subs, s);
    }
  }

  lemma {:induction false} TreeIsForest(r: Dir)
    requires Tree(r)
    ensures AsForest(r).Valid()
  {
    var f := AsForest(r);
    forall d | d in f.nodes ensures f.Local(d) {
      WithinSubs(d, r);
      forall s <- d.subs ensures s in f.nodes && f.ids(s) <= f.ids(d) && d.id !in f.ids(s) {
        IdsInclude(d.subs, s);
      }
    }
  }

  lemma {:induction false} DisjointNotWithin(a: Dir, b: Dir)
    requires Tree(b) && Ids(a) !! Ids(b)
    ensures !Within(a, b)
  {
    if Within(a, b) {
      WithinSubs(a, b);
    }
  }

  /** On any tree: what is added is new, may be exported, lies properly below the root, and no
      two of the fragments added overlap; the load found grows by exactly theirs and, when no
      load is negative, does not overshoot; and a search that ends with too little has left
      nothing useful, however deep. */
  method FindExportsIn(cfg: Config, root: Dir, amount: real, s0: Search)
    returns (s: Search, ghost added: seq<Dir>, ghost c: Course)
    requires Tree(root)
    ensures s.exports == s0.exports + added && s.have == s0.have + Load(added)
    ensures s.already == s0.already + set x <- added :: x.id
    ensures forall x <- added :: Below(x, root) && x.auth && !x.frozen && x.id !in s0.already
    ensures forall i, j :: 0 <= i < |added| && 0 <= j < |added| && i != j ==> !Within(added[i], added[j])
    ensures Loaded(root) && cfg.Sane() && amount >= 0.0 && s0.have >= 0.0 ==>
      s0.have <= s.have && (s.have == s0.have || s.have <= cfg.Reach() * amount)
    ensures Ended(cfg, root, amount, s0, s) && Went(cfg, root, amount, s0, s, c)
    ensures Loaded(root) && cfg.Sane() && amount >= 0.0 && s0.have >= 0.0 && TooLittle(cfg, amount, s) ==>
      NothingLeft(root, s0.already, AimOf(cfg, amount, s0.have).minchunk, amount - s.have, s.already)
  {
    ghost var f := AsForest(root);
    TreeIsForest(root);
    ghost var nonneg := Loaded(root) && cfg.Sane() && amount >= 0.0 && s0.have >= 0.0;
    s, added, c := FindExports(f, cfg, root, amount, s0, nonneg, cfg.Reach() * amount);
    ChosenApart(root, added, s0.already);
    if nonneg && TooLittle(cfg, amount, s) {
      SearchedIsAll(cfg, root, amount, s0, s, AimOf(cfg, amount, s0.have));
    }
  }

  // The sizes that decide are fixed multiples of what is needed.
  lemma {:induction false} AimFields(cfg: Config, amount: real, had: real, need: real, aim: Aim)
    requires need == amount - had && aim == AimOf(cfg, amount, had)
    ensures aim.needmin == need * cfg.needMin && aim.needmax == need * cfg.needMax
    ensures aim.midchunk == need * cfg.midchunk && aim.minchunk == need * cfg.minchunk
  {
  }

  lemma {:induction false} SearchedIsAll(cfg: Config, root: Dir, amount: real, s0: Search, s: Search, aim: Aim)
    requires Searched(cfg, amount, root, s0, s) && TooLittle(cfg, amount, s) && aim == AimOf(cfg, amount, s0.have)
    ensures NothingLeft(root, s0.already, aim.minchunk, amount - s.have, s.already)
  {
    assert Later(s, s);
  }

  // One comes from dir to x through fragments that were considered and not taken; all but x are
  // bigger than high.
  predicate Reaches(dir: Dir, x: Dir, start: set<nat>, low: real, high: real, taken: set<nat>) {
    exists d <- dir.subs :: Useful(d, start, low) &&
      (d == x || (d.pop > high && d.id !in taken && Reaches(d, x, start, low, high, taken)))
  }

  /** No fragment of a useful size that can be reached is left untaken. */
  lemma {:induction false} NoneOverlooked(dir: Dir, x: Dir, start: set<nat>, low: real, high: real, taken: set<nat>)
    requires NothingLeft(dir, start, low, high, taken) && Reaches(dir, x, start, low, high, taken) && x.pop <= high
    ensures x.id in taken
  {
    var d :| d in dir.subs && Useful(d, start, low) &&
      (d == x || (d.pop > high && d.id !in taken && Reaches(d, x, start, low, high, taken)));
    if d != x { NoneOverlooked(d, x, start, low, high, taken); }
  }

  lemma {:induction false} ChosenApart(root: Dir, added: seq<Dir>, already: set<nat>)
    requires Tree(root) && Chosen(AsForest(root), added, already, Ids(root) - {root.id})
    ensures forall x <- added :: Below(x, root)
    ensures forall i, j :: 0 <= i < |added| && 0 <= j < |added| && i != j ==> !Within(added[i], added[j])
  {
    var f := AsForest(root);
    forall x <- added ensures Below(x, root) {
      assert x.id in f.ids(x) && x.id != root.id;
    }
    forall i, j | 0 <= i < |added| && 0 <= j < |added| && i != j ensures !Within(added[i], added[j]) {
      assert added[i] in added && added[j] in added;
      WithinSubs(added[j], root);
      assert f.ids(added[i]) !! f.ids(added[j]) by { if i > j { assert f.ids(added[j]) !! f.ids(added[i]); } }
      DisjointNotWithin(added[i], added[j]);
    }
  }
}
