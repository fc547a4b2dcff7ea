/** The balancer's rebalance plan: match overloaded ranks with underloaded ones. Loads are
    exact reals, so the comparisons with .001 are exact too. */
module Planner {
  // Entries of the source's maps that do not exist read as zero.
  function Get(m: map<nat, real>, r: nat): real { if r in m then m[r] else 0.0 }

  function Add(m: map<nat, real>, r: nat, h: real): map<nat, real> { m[r := Get(m, r) + h] }

  // One call of try_match that moves load.
  datatype Transfer = Transfer(from: nat, to: nat, amount: real)

  datatype Plan = Plan(meta: map<nat, real>, target: real,
                       exported: map<nat, real>, imported: map<nat, real>, targets: map<nat, real>)
  {
    function MaxEx(r: nat): real { Get(meta, r) - target - Get(exported, r) }
    function MaxIm(r: nat): real { target - Get(meta, r) - Get(imported, r) }
    // The load of a rank once the plan is carried out.
    function After(r: nat): real { Get(meta, r) - Get(exported, r) + Get(imported, r) }
    function Gap(r: nat): real { if After(r) < target then target - After(r) else After(r) - target }
    function Fresh(): Plan { this.(exported := map[], imported := map[], targets := map[]) }
    function Match(whoami: nat, t: Transfer): Plan {
      this.(exported := Add(exported, t.from, t.amount), imported := Add(imported, t.to, t.amount),
            targets := if t.from == whoami then Add(targets, t.to, t.amount) else targets)
    }
  }

  // ---- what a list of transfers amounts to

  function Out(log: seq<Transfer>, r: nat): real {
    if log == [] then 0.0
    else Out(log[..|log| - 1], r) + if log[|log| - 1].from == r then log[|log| - 1].amount else 0.0
  }

  function In(log: seq<Transfer>, r: nat): real {
    if log == [] then 0.0
    else In(log[..|log| - 1], r) + if log[|log| - 1].to == r then log[|log| - 1].amount else 0.0
  }

  function Sent(log: seq<Transfer>, from: nat, to: nat): real {
    if log == [] then 0.0
    else
      var t := log[|log| - 1];
      Sent(log[..|log| - 1], from, to) + if t.from == from && t.to == to then t.amount else 0.0
  }

  function Total(log: seq<Transfer>): real {
    if log == [] then 0.0 else Total(log[..|log| - 1]) + log[|log| - 1].amount
  }

  lemma LogMore(log: seq<Transfer>, t: Transfer, from: nat, to: nat)
    ensures Out(log + [t], from) == Out(log, from) + if t.from == from then t.amount else 0.0
    ensures In(log + [t], to) == In(log, to) + if t.to == to then t.amount else 0.0
    ensures Sent(log + [t], from, to) == Sent(log, from, to) + if t.from == from && t.to == to then t.amount else 0.0
    ensures Total(log + [t]) == Total(log) + t.amount
  {
    assert (log + [t])[..|log + [t]| - 1] == log;
  }

  // The maps record exactly these transfers.
  ghost predicate Records(p: Plan, whoami: nat, log: seq<Transfer>) {
    forall r: nat ::
      && Get(p.exported, r) == Out(log, r)
      && Get(p.imported, r) == In(log, r)
      && Get(p.targets, r) == Sent(log, whoami, r)
  }

  // A rank above the target only exports, one below it only imports, and neither crosses it.
  predicate Side(p: Plan, r: nat) {
    if Get(p.meta, r) >= p.target then Get(p.imported, r) == 0.0 && Get(p.exported, r) >= 0.0 && p.MaxEx(r) >= 0.0
    else Get(p.exported, r) == 0.0 && Get(p.imported, r) >= 0.0 && p.MaxIm(r) >= 0.0
  }

  ghost predicate Sides(p: Plan) { forall r: nat :: Side(p, r) }

  /** The plan is a list of transfers from overloaded to underloaded ranks. */
  ghost predicate Sound(p: Plan, whoami: nat, log: seq<Transfer>) {
    Records(p, whoami, log) && Sides(p) && forall t <- log :: t.amount > 0.0
  }

  lemma FreshIsSound(p: Plan, whoami: nat)
    requires p == p.Fresh()
    ensures Sound(p, whoami, [])
  {
  }

  lemma MatchIsSound(p: Plan, whoami: nat, log: seq<Transfer>, t: Transfer)
    requires Sound(p, whoami, log) && 0.0 < t.amount <= p.MaxEx(t.from) && t.amount <= p.MaxIm(t.to)
    ensures Sound(p.Match(whoami, t), whoami, log + [t])
  {
    var q := p.Match(whoami, t);
    assert Side(p, t.from) && Side(p, t.to);
    forall r: nat
      ensures Get(q.exported, r) == Out(log + [t], r) && Get(q.imported, r) == In(log + [t], r)
      ensures Get(q.targets, r) == Sent(log + [t], whoami, r)
    {
      LogMore(log, t, r, r);
      LogMore(log, t, whoami, r);
    }
    forall r: nat ensures Side(q, r) {
      assert Side(p, r);
    }
  }

  // ---- sums over the ranks below n

  function Sum(m: map<nat, real>, n: nat): real { if n == 0 then 0.0 else Sum(m, n - 1) + Get(m, n - 1) }

  function SumGap(p: Plan, n: nat): real { if n == 0 then 0.0 else SumGap(p, n - 1) + p.Gap(n - 1) }

  function SumOut(log: seq<Transfer>, n: nat): real { if n == 0 then 0.0 else SumOut(log, n - 1) + Out(log, n - 1) }

  function SumIn(log: seq<Transfer>, n: nat): real { if n == 0 then 0.0 else SumIn(log, n - 1) + In(log, n - 1) }

  function SumSent(log: seq<Transfer>, from: nat, n: nat): real {
    if n == 0 then 0.0 else SumSent(log, from, n - 1) + Sent(log, from, n - 1)
  }

  predicate Ranks(log: seq<Transfer>, n: nat) { forall t <- log :: t.from < n && t.to < n }

  lemma {:induction false} SumsMore(log: seq<Transfer>, t: Transfer, from: nat, n: nat)
    ensures SumOut(log + [t], n) == SumOut(log, n) + if t.from < n then t.amount else 0.0
    ensures SumIn(log + [t], n) == SumIn(log, n) + if t.to < n then t.amount else 0.0
    ensures SumSent(log + [t], from, n) == SumSent(log, from, n) + if t.from == from && t.to < n then t.amount else 0.0
  {
    if n > 0 {
      SumsMore(log, t, from, n - 1);
      LogMore(log, t, n - 1, n - 1);
      LogMore(log, t, from, n - 1);
    }
  }

  lemma {:induction false} SumsOfNone(from: nat, n: nat)
    ensures SumOut([], n) == 0.0 && SumIn([], n) == 0.0 && SumSent([], from, n) == 0.0
  {
    if n > 0 { SumsOfNone(from, n - 1); }
  }

  // Everything that leaves a rank arrives at another.
  lemma {:induction false} LogBalances(log: seq<Transfer>, from: nat, n: nat)
    requires Ranks(log, n)
    ensures SumOut(log, n) == Total(log) && SumIn(log, n) == Total(log) && SumSent(log, from, n) == Out(log, from)
  {
    if log == [] {
      SumsOfNone(from, n);
    } else {
      var t := log[|log| - 1];
      LogBalances(log[..|log| - 1], from, n);
      SumsMore(log[..|log| - 1], t, from, n);
      LogMore(log[..|log| - 1], t, from, from);
      assert log == log[..|log| - 1] + [t];
    }
  }

  lemma {:induction false} SumsAreOfLog(p: Plan, whoami: nat, log: seq<Transfer>, n: nat)
    requires Sound(p, whoami, log)
    ensures Sum(p.exported, n) == SumOut(log, n) && Sum(p.imported, n) == SumIn(log, n)
    ensures Sum(p.targets, n) == SumSent(log, whoami, n)
    ensures SumGap(p, n) == SumGap(p.Fresh(), n) - SumOut(log, n) - SumIn(log, n)
  {
    if n > 0 {
      SumsAreOfLog(p, whoami, log, n - 1);
      assert Side(p, n - 1);
    }
  }

  /** What is exported is imported; this rank's targets add up to its exports; and the
      distance from the target falls by exactly twice what is moved. */
  lemma PlanConserves(p: Plan, whoami: nat, log: seq<Transfer>, n: nat)
    requires Sound(p, whoami, log) && Ranks(log, n)
    ensures Sum(p.exported, n) == Total(log) && Sum(p.imported, n) == Total(log)
    ensures Sum(p.targets, n) == Get(p.exported, whoami)
    ensures SumGap(p, n) == SumGap(p.Fresh(), n) - 2.0 * Total(log)
  {
    SumsAreOfLog(p, whoami, log, n);
    LogBalances(log, whoami, n);
  }

  // ---- building the lists

  predicate Ascending(meta: map<nat, real>, ranks: seq<nat>) {
    forall i, j :: 0 <= i < j < |ranks| ==> Get(meta, ranks[i]) <= Get(meta, ranks[j])
  }

  predicate Distinct(ranks: seq<nat>) { forall i, j :: 0 <= i < j < |ranks| ==> ranks[i] != ranks[j] }

  // load_map.insert: after the entries whose load is not above this one's.
  method InsertRank(meta: map<nat, real>, ranks: seq<nat>, r: nat) returns (out: seq<nat>)
    requires r !in ranks && Distinct(ranks) && Ascending(meta, ranks)
    ensures Distinct(out) && (forall q :: q in out <==> q in ranks || q == r) && Ascending(meta, out)
  {
    var n := |ranks|;
    while n > 0 && Get(meta, ranks[n - 1]) > Get(meta, r)
      invariant 0 <= n <= |ranks| && forall i :: n <= i < |ranks| ==> Get(meta, r) < Get(meta, ranks[i])
    {
      n := n - 1;
    }
    InsertMembers(ranks, n, r);
    out := ranks[..n] + [r] + ranks[n..];
    assert out[n] == r && (forall i :: 0 <= i < n ==> out[i] == ranks[i]);
    assert forall i :: n < i < |out| ==> out[i] == ranks[i - 1];
  }

  lemma InsertMembers(ranks: seq<nat>, n: nat, r: nat)
    requires n <= |ranks| && r !in ranks && Distinct(ranks)
    ensures Distinct(ranks[..n] + [r] + ranks[n..])
    ensures forall q :: q in ranks[..n] + [r] + ranks[n..] <==> q in ranks || q == r
  {
    assert ranks == ranks[..n] + ranks[n..];
  }

  // All ranks of the cluster, by load.
  method LoadMap(meta: map<nat, real>, n: nat) returns (ranks: seq<nat>)
    ensures Distinct(ranks) && Ascending(meta, ranks) && forall r: nat :: r in ranks <==> r < n
  {
    ranks := [];
    for i := 0 to n
      invariant Distinct(ranks) && Ascending(meta, ranks) && forall r: nat :: r in ranks <==> r < i
    {
      ranks := InsertRank(meta, ranks, i);
    }
  }

  // The ranks below the target and the others, both in the order of the load map.
  method Separate(meta: map<nat, real>, target: real, ranks: seq<nat>)
    returns (importers: seq<nat>, exporters: seq<nat>)
    requires Ascending(meta, ranks)
    ensures Ascending(meta, importers) && Ascending(meta, exporters)
    ensures forall r :: r in importers <==> r in ranks && Get(meta, r) < target
    ensures forall r :: r in exporters <==> r in ranks && Get(meta, r) >= target
  {
    importers, exporters := [], [];
    for i := 0 to |ranks|
      invariant Ascending(meta, importers) && Ascending(meta, exporters)
      invariant forall r :: r in importers <==> r in ranks[..i] && Get(meta, r) < target
      invariant forall r :: r in exporters <==> r in ranks[..i] && Get(meta, r) >= target
    {
      assert forall q :: q in ranks[..i] ==> Get(meta, q) <= Get(meta, ranks[i]);
      if Get(meta, ranks[i]) < target {
        importers := importers + [ranks[i]];
      } else {
        exporters := exporters + [ranks[i]];
      }
    }
  }

  // ---- the matching

  // Matching only ever uses up room.
  ghost predicate Shrinks(p: Plan, q: Plan) {
    && q.meta == p.meta && q.target == p.target
    && forall r: nat :: q.MaxEx(r) <= p.MaxEx(r) && q.MaxIm(r) <= p.MaxIm(r)
  }

  function Sources(importMap: map<nat, seq<nat>>, ex: nat): seq<nat> { if ex in importMap then importMap[ex] else [] }

  // This exporter has nothing left, or no rank it imported from has room left.
  ghost predicate SourcesUsed(p: Plan, importMap: map<nat, seq<nat>>, ex: nat) {
    p.MaxEx(ex) <= 0.001 || forall im <- Sources(importMap, ex) :: p.MaxIm(im) <= 0.001
  }

  // The first k exporters and l importers are used up, and the next pair cannot be matched.
  ghost predicate Stopped(p: Plan, exporters: seq<nat>, importers: seq<nat>, k: nat, l: nat) {
    && k <= |exporters| && l <= |importers|
    && (forall i :: 0 <= i < k ==> p.MaxEx(exporters[i]) <= 0.001)
    && (forall j :: 0 <= j < l ==> p.MaxIm(importers[j]) <= 0.001)
    && (k == |exporters| || l == |importers| || p.MaxEx(exporters[k]) < 0.001 || p.MaxIm(importers[l]) < 0.001)
  }

  ghost predicate Cluster(meta: map<nat, real>, target: real, size: nat, exporters: seq<nat>, importers: seq<nat>) {
    && (forall r: nat :: r in exporters <==> r < size && Get(meta, r) >= target)
    && (forall r: nat :: r in importers <==> r < size && Get(meta, r) < target)
  }

  // These are the cluster's exporters and importers, and both phases have done all they can.
  ghost predicate Planned(p: Plan, size: nat, importMap: map<nat, seq<nat>>, exporters: seq<nat>, importers: seq<nat>,
                          k: nat, l: nat) {
    && Cluster(p.meta, p.target, size, exporters, importers)
    && (forall ex <- exporters :: SourcesUsed(p, importMap, ex))
    && Stopped(p, exporters, importers, k, l)
  }

  // ---- the order of the transfers

  // The first phase: back to ranks imported from, the most loaded exporter first.
  ghost predicate GivesBack(log: seq<Transfer>, meta: map<nat, real>, importMap: map<nat, seq<nat>>) {
    && (forall t <- log :: t.to in Sources(importMap, t.from))
    && (forall i, j :: 0 <= i < j < |log| ==> Get(meta, log[i].from) >= Get(meta, log[j].from))
  }

  // So far only exporters from k on have given back.
  ghost predicate BackTo(log: seq<Transfer>, meta: map<nat, real>, importMap: map<nat, seq<nat>>, exporters: seq<nat>,
                         k: nat) {
    && GivesBack(log, meta, importMap)
    && forall t <- log, i :: 0 <= i < k <= |exporters| ==> Get(meta, exporters[i]) <= Get(meta, t.from)
  }

  lemma BackMore(log: seq<Transfer>, more: seq<Transfer>, meta: map<nat, real>, importMap: map<nat, seq<nat>>,
                 exporters: seq<nat>, k: nat)
    requires k < |exporters| && Ascending(meta, exporters) && BackTo(log, meta, importMap, exporters, k + 1)
    requires forall t <- more :: t.from == exporters[k] && t.to in Sources(importMap, exporters[k])
    ensures BackTo(log + more, meta, importMap, exporters, k)
  {
    var both := log + more;
    forall i, j | 0 <= i < j < |both| ensures Get(meta, both[i].from) >= Get(meta, both[j].from) {
      if i < |log| { assert both[i] in log; } else { assert both[i] in more; }
      if j >= |log| { assert both[j] in more; }
    }
  }

  // The second phase: both lists from the front, never back.
  ghost predicate Along(log: seq<Transfer>, steps: seq<(nat, nat)>, exporters: seq<nat>, importers: seq<nat>) {
    && |steps| == |log|
    && (forall i :: 0 <= i < |log| ==> steps[i].0 < |exporters| && steps[i].1 < |importers|)
    && (forall i :: 0 <= i < |log| ==> log[i].from == exporters[steps[i].0] && log[i].to == importers[steps[i].1])
    && (forall i, j :: 0 <= i < j < |log| ==> steps[i].0 <= steps[j].0 && steps[i].1 <= steps[j].1)
  }

  // And the cursors have not gone beyond these.
  ghost predicate AlongTo(log: seq<Transfer>, steps: seq<(nat, nat)>, exporters: seq<nat>, importers: seq<nat>, ex: nat,
                          im: nat) {
    && Along(log, steps, exporters, importers)
    && forall i :: 0 <= i < |steps| ==> steps[i].0 <= ex && steps[i].1 <= im
  }

  lemma AlongMore(log: seq<Transfer>, steps: seq<(nat, nat)>, exporters: seq<nat>, importers: seq<nat>, ex: nat,
                  im: nat, amount: real)
    requires AlongTo(log, steps, exporters, importers, ex, im) && ex < |exporters| && im < |importers|
    ensures forall a, b :: ex <= a && im <= b ==>
      AlongTo(log + [Transfer(exporters[ex], importers[im], amount)], steps + [(ex, im)], exporters, importers, a, b)
  {
  }

  // The exporters from k on have given back what they can.
  ghost predicate UsedFrom(p: Plan, importMap: map<nat, seq<nat>>, exporters: seq<nat>, k: nat) {
    forall i :: k <= i < |exporters| ==> SourcesUsed(p, importMap, exporters[i])
  }

  lemma UsedMore(p: Plan, q: Plan, importMap: map<nat, seq<nat>>, exporters: seq<nat>, k: nat)
    requires k < |exporters| && UsedFrom(p, importMap, exporters, k + 1) && Shrinks(p, q)
    requires SourcesUsed(q, importMap, exporters[k])
    ensures UsedFrom(q, importMap, exporters, k)
  {
    forall i | k < i < |exporters| ensures SourcesUsed(q, importMap, exporters[i]) {
      assert SourcesUsed(p, importMap, exporters[i]);
    }
  }

  lemma AllUsed(p: Plan, q: Plan, importMap: map<nat, seq<nat>>, rising: seq<nat>, exporters: seq<nat>)
    requires UsedFrom(p, importMap, rising, 0) && Shrinks(p, q) && SameRanks(rising, exporters)
    ensures forall ex <- exporters :: SourcesUsed(q, importMap, ex)
  {
    forall ex <- exporters ensures SourcesUsed(q, importMap, ex) {
      var i :| 0 <= i < |rising| && rising[i] == ex;
      assert SourcesUsed(p, importMap, rising[i]);
    }
  }

  // The first exporters and importers are used up.
  ghost predicate FrontsUsed(p: Plan, exporters: seq<nat>, importers: seq<nat>, k: nat, l: nat) {
    && k <= |exporters| && l <= |importers|
    && (forall i :: 0 <= i < k ==> p.MaxEx(exporters[i]) <= 0.001)
    && (forall j :: 0 <= j < l ==> p.MaxIm(importers[j]) <= 0.001)
  }

  lemma FrontsStay(p: Plan, q: Plan, exporters: seq<nat>, importers: seq<nat>, k: nat, l: nat)
    requires FrontsUsed(p, exporters, importers, k, l) && Shrinks(p, q) && k < |exporters| && l < |importers|
    ensures FrontsUsed(q, exporters, importers, k, l)
    ensures q.MaxEx(exporters[k]) <= 0.001 ==> FrontsUsed(q, exporters, importers, k + 1, l)
    ensures q.MaxIm(importers[l]) <= 0.001 ==> FrontsUsed(q, exporters, importers, k, l + 1)
    ensures q.MaxEx(exporters[k]) <= 0.001 && q.MaxIm(importers[l]) <= 0.001 ==>
      FrontsUsed(q, exporters, importers, k + 1, l + 1)
  {
  }

  // Every transfer moves as much as both sides then allow.
  ghost predicate Greedy(meta: map<nat, real>, target: real, log: seq<Transfer>) {
    forall i :: 0 <= i < |log| ==> GreedyAt(meta, target, log, i)
  }

  predicate GreedyAt(meta: map<nat, real>, target: real, log: seq<Transfer>, i: nat)
    requires i < |log|
  {
    var t, before := log[i], log[..i];
    t.amount == Min(Get(meta, t.from) - target - Out(before, t.from), target - Get(meta, t.to) - In(before, t.to))
  }

  lemma GreedyMore(p: Plan, whoami: nat, log: seq<Transfer>, t: Transfer)
    requires Records(p, whoami, log) && Greedy(p.meta, p.target, log)
    requires t.amount == Min(p.MaxEx(t.from), p.MaxIm(t.to))
    ensures Greedy(p.meta, p.target, log + [t])
  {
    var more := log + [t];
    forall i | 0 <= i < |more| ensures GreedyAt(p.meta, p.target, more, i) {
      if i < |log| {
        assert GreedyAt(p.meta, p.target, log, i) && more[..i] == log[..i];
      } else {
        assert more[..i] == log;
      }
    }
  }

  // What both phases did.
  datatype Course = Course(back: seq<Transfer>, fronts: seq<Transfer>, steps: seq<(nat, nat)>)

  ghost predicate Ordered(c: Course, log: seq<Transfer>, meta: map<nat, real>, importMap: map<nat, seq<nat>>,
                          exporters: seq<nat>, importers: seq<nat>) {
    log == c.back + c.fronts && GivesBack(c.back, meta, importMap) && Along(c.fronts, c.steps, exporters, importers)
  }

  predicate Overloaded(load: real, target: real, minRebalance: real) { load >= target * (1.0 + minRebalance) }

  ghost predicate SameRanks(a: seq<nat>, b: seq<nat>) { forall r :: r in a <==> r in b }

  // The exporters, by rising load and in the order of the second phase, and the importers.
  method Lists(ghost n: nat, meta: map<nat, real>, target: real, size: nat, beat: nat)
    returns (rising: seq<nat>, exporters: seq<nat>, importers: seq<nat>)
    requires size <= n
    ensures Under(rising, n) && Under(exporters, n) && Under(importers, n) && SameRanks(rising, exporters)
    ensures Cluster(meta, target, size, exporters, importers)
    ensures Ascending(meta, importers) && Ascending(meta, rising)
    ensures Ascending(meta, if beat % 2 == 1 then Reverse(exporters) else exporters)
  {
    var ranks := LoadMap(meta, size);
    importers, rising := Separate(meta, target, ranks);
    MembersUnder(importers, n);
    MembersUnder(rising, n);
    exporters := if beat % 2 == 1 then Reverse(rising) else rising;
    ReverseSame(rising);
  }

  lemma ReverseSame(ranks: seq<nat>)
    ensures SameRanks(ranks, Reverse(ranks)) && Reverse(Reverse(ranks)) == ranks
  {
    assert forall i :: 0 <= i < |ranks| ==> ranks[i] == Reverse(ranks)[|ranks| - 1 - i];
  }

  lemma MembersUnder(ranks: seq<nat>, n: nat)
    requires forall r :: r in ranks ==> r < n
    ensures Under(ranks, n)
  {
    forall i | 0 <= i < |ranks| ensures ranks[i] < n { assert ranks[i] in ranks; }
  }

  // Exporters go from big to small on odd beats and from small to big on even ones.
  predicate InOrder(p: Plan, beat: nat, exporters: seq<nat>, importers: seq<nat>) {
    Ascending(p.meta, importers) && Ascending(p.meta, if beat % 2 == 1 then Reverse(exporters) else exporters)
  }

  function Reverse(ranks: seq<nat>): (r: seq<nat>)
    ensures |r| == |ranks| && forall i :: 0 <= i < |r| ==> r[i] == ranks[|ranks| - 1 - i]
  {
    seq(|ranks|, i requires 0 <= i < |ranks| => ranks[|ranks| - 1 - i])
  }

  predicate Under(ranks: seq<nat>, n: nat) { forall i :: 0 <= i < |ranks| ==> ranks[i] < n }

  function Min(a: real, b: real): real { if a < b then a else b }

  class Balancer {
    const whoami: nat
    var p: Plan
    var myLoad: real
    var lastUnder: nat
    var lastOver: nat
    ghost var log: seq<Transfer>

    ghost predicate Valid(n: nat) reads this {
      Sound(p, whoami, log) && Ranks(log, n) && Greedy(p.meta, p.target, log)
    }

    constructor (id: nat)
      ensures whoami == id && log == [] && forall n :: Valid(n)
    {
      whoami := id;
      p := Plan(map[], 0.0, map[], map[], map[]);
      myLoad, lastUnder, lastOver, log := 0.0, 0, 0, [];
    }

    /** Move as much as both sides allow: afterwards one of them is used up. */
    method TryMatch(ghost n: nat, ex: nat, maxex: real, im: nat, maxim: real) returns (maxex': real, maxim': real)
      requires Valid(n) && ex < n && im < n && maxex == p.MaxEx(ex) && maxim == p.MaxIm(im)
      modifies this`p, this`log
      ensures Valid(n) && Shrinks(old(p), p) && maxex' == p.MaxEx(ex) && maxim' == p.MaxIm(im)
      ensures if maxex > 0.0 && maxim > 0.0 then log == old(log) + [Transfer(ex, im, Min(maxex, maxim))]
              else p == old(p) && log == old(log)
      ensures maxex' <= 0.0 || maxim' <= 0.0
    {
      maxex', maxim' := maxex, maxim;
      if maxex <= 0.0 || maxim <= 0.0 { return; }
      var howmuch := Min(maxex, maxim);
      ghost var t := Transfer(ex, im, howmuch);
      MatchIsSound(p, whoami, log, t);
      GreedyMore(p, whoami, log, t);
      assert Side(p, ex) && Side(p, im);
      p := Plan(p.meta, p.target, Add(p.exported, ex, howmuch), Add(p.imported, im, howmuch),
                if ex == whoami then Add(p.targets, im, howmuch) else p.targets);
      log := log + [t];
      maxex', maxim' := maxex - howmuch, maxim - howmuch;
    }

    // A match of two ranks with room.
    method MatchPair(ghost n: nat, ex: nat, maxex: real, im: nat, maxim: real) returns (maxex': real, maxim': real)
      requires Valid(n) && ex < n && im < n && maxex == p.MaxEx(ex) && maxim == p.MaxIm(im)
      requires maxex > 0.0 && maxim > 0.0
      modifies this`p, this`log
      ensures Valid(n) && Shrinks(old(p), p) && maxex' == p.MaxEx(ex) && maxim' == p.MaxIm(im)
      ensures log == old(log) + [Transfer(ex, im, Min(maxex, maxim))] && (maxex' <= 0.0 || maxim' <= 0.0)
    {
      maxex', maxim' := TryMatch(n, ex, maxex, im, maxim);
    }

    // One exporter with the ranks it imported from.
    method MatchSources(ghost n: nat, ex: nat, sources: seq<nat>) returns (ghost added: seq<Transfer>)
      requires Valid(n) && ex < n && Under(sources, n)
      modifies this`p, this`log
      ensures Valid(n) && Shrinks(old(p), p)
      ensures p.MaxEx(ex) <= 0.001 || forall im <- sources :: p.MaxIm(im) <= 0.001
      ensures log == old(log) + added && forall t <- added :: t.from == ex && t.to in sources
    {
      added := [];
      var maxex := p.MaxEx(ex);
      if maxex <= 0.001 { return; }
      for i := 0 to |sources|
        invariant Valid(n) && Shrinks(old(p), p) && maxex == p.MaxEx(ex) && maxex > 0.001
        invariant log == old(log) + added && forall t <- added :: t.from == ex && t.to in sources
        invariant forall j :: 0 <= j < i ==> p.MaxIm(sources[j]) <= 0.001
      {
        var maxim := p.MaxIm(sources[i]);
        if maxim <= 0.001 { continue; }
        added := added + [Transfer(ex, sources[i], Min(maxex, maxim))];
        maxex, maxim := TryMatch(n, ex, maxex, sources[i], maxim);
        if maxex <= 0.001 { return; }
      }
    }

    // The first phase: exporters, biggest first, give back to the ranks they imported from.
    method MatchImports(ghost n: nat, exporters: seq<nat>, importMap: map<nat, seq<nat>>)
      returns (ghost added: seq<Transfer>)
      requires Valid(n) && Under(exporters, n) && Ascending(p.meta, exporters)
      requires forall ex <- importMap :: Under(importMap[ex], n)
      modifies this`p, this`log
      ensures Valid(n) && Shrinks(old(p), p) && UsedFrom(p, importMap, exporters, 0)
      ensures log == old(log) + added && GivesBack(added, p.meta, importMap)
    {
      added := [];
      var k := |exporters|;
      while k > 0
        invariant 0 <= k <= |exporters| && Valid(n) && Shrinks(old(p), p) && UsedFrom(p, importMap, exporters, k)
        invariant log == old(log) + added && BackTo(added, old(p).meta, importMap, exporters, k)
      {
        k := k - 1;
        ghost var was := p;
        ghost var more := MatchSources(n, exporters[k], Sources(importMap, exporters[k]));
        UsedMore(was, p, importMap, exporters, k);
        BackMore(added, more, old(p).meta, importMap, exporters, k);
        added := added + more;
      }
    }

    // The second phase: a cursor in each list; each match advances one of them.
    method MatchFronts(ghost n: nat, exporters: seq<nat>, importers: seq<nat>)
      returns (ghost k: nat, ghost l: nat, ghost added: seq<Transfer>, ghost steps: seq<(nat, nat)>)
      requires Valid(n) && Under(exporters, n) && Under(importers, n)
      modifies this`p, this`log
      ensures Valid(n) && Shrinks(old(p), p) && Stopped(p, exporters, importers, k, l)
      ensures log == old(log) + added && Along(added, steps, exporters, importers)
    {
      var ex, im := 0, 0;
      added, steps := [], [];
      while ex < |exporters| && im < |importers|
        invariant FrontsUsed(p, exporters, importers, ex, im) && Valid(n) && Shrinks(old(p), p)
        invariant log == old(log) + added && AlongTo(added, steps, exporters, importers, ex, im)
        decreases |exporters| + |importers| - ex - im
      {
        var maxex := p.MaxEx(exporters[ex]);
        var maxim := p.MaxIm(importers[im]);
        if maxex < 0.001 || maxim < 0.001 { break; }
        ghost var was := p;
        AlongMore(added, steps, exporters, importers, ex, im, Min(maxex, maxim));
        added, steps := added + [Transfer(exporters[ex], importers[im], Min(maxex, maxim))], steps + [(ex, im)];
        maxex, maxim := MatchPair(n, exporters[ex], maxex, importers[im], maxim);
        FrontsStay(was, p, exporters, importers, ex, im);
        if maxex <= 0.001 { ex := ex + 1; }
        if maxim <= 0.001 { im := im + 1; }
      }
      k, l := ex, im;
    }

    // The maps are cleared and the new loads recorded; the target is their mean.
    method Measure(loads: seq<real>)
      requires |loads| > 0
      modifies this`p, this`myLoad, this`log
      ensures p == p.Fresh() && log == [] && p.target == Sum(p.meta, |loads|) / (|loads| as real)
      ensures forall r: nat :: Get(p.meta, r) == if r < |loads| then loads[r] else Get(old(p.meta), r)
      ensures myLoad == if whoami < |loads| then loads[whoami] else old(myLoad)
    {
      var meta: map<nat, real> := p.meta;
      var total := 0.0;
      for i := 0 to |loads|
        invariant forall r: nat :: Get(meta, r) == if r < i then loads[r] else Get(old(p.meta), r)
        invariant myLoad == if whoami < i then loads[whoami] else old(myLoad)
        invariant total == Sum(meta, i)
      {
        SumFrame(meta, meta[i := loads[i]], i);
        meta := meta[i := loads[i]];
        if i == whoami { myLoad := loads[i]; }
        total := total + loads[i];
      }
      p := Plan(meta, total / (|loads| as real), map[], map[], map[]);
      log := [];
    }

    // Both matching phases.
    method MakePlan(ghost n: nat, importMap: map<nat, seq<nat>>, rising: seq<nat>, exporters: seq<nat>,
                    importers: seq<nat>)
      returns (ghost k: nat, ghost l: nat, ghost c: Course)
      requires Valid(n) && Under(rising, n) && Under(exporters, n) && Under(importers, n)
      requires SameRanks(rising, exporters) && Ascending(p.meta, rising)
      requires forall ex <- importMap :: Under(importMap[ex], n)
      modifies this`p, this`log
      ensures Valid(n) && p.meta == old(p.meta) && p.target == old(p.target)
      ensures forall ex <- exporters :: SourcesUsed(p, importMap, ex)
      ensures Stopped(p, exporters, importers, k, l)
      ensures old(log) == [] ==> Ordered(c, log, p.meta, importMap, exporters, importers)
    {
      ghost var back, fronts, steps;
      back := MatchImports(n, rising, importMap);
      ghost var was := p;
      k, l, fronts, steps := MatchFronts(n, exporters, importers);
      AllUsed(was, p, importMap, rising, exporters);
      c := Course(back, fronts, steps);
    }

    // Is this rank overloaded enough, for long enough, to act on this beat?
    method Decide(epoch: nat, minRebalance: real) returns (acts: bool)
      modifies this`lastUnder, this`lastOver
      ensures var over := Overloaded(myLoad, p.target, minRebalance);
        && lastUnder == (if over then old(lastUnder) else epoch)
        && lastOver == (if over then epoch else old(lastOver))
        && acts == (over && (lastUnder == 0 || epoch - lastUnder >= 2))
    {
      if myLoad < p.target * (1.0 + minRebalance) {
        lastUnder := epoch;
        return false;
      }
      lastOver := epoch;
      acts := !(lastUnder != 0 && epoch - lastUnder < 2);
    }

    /** prep_rebalance, where loads are the loads of the cluster in meta_load units and
        importMap lists the ranks each rank has imported from. */
    method PrepRebalance(ghost n: nat, beat: nat, epoch: nat, loads: seq<real>, importMap: map<nat, seq<nat>>,
                         minRebalance: real)
      returns (acts: bool, exporters: seq<nat>, importers: seq<nat>, ghost k: nat, ghost l: nat, ghost c: Course)
      requires 0 < |loads| <= n && forall ex <- importMap :: Under(importMap[ex], n)
      modifies this
      ensures Valid(n) && p.target == Sum(p.meta, |loads|) / (|loads| as real)
      ensures forall r: nat :: r < |loads| ==> Get(p.meta, r) == loads[r]
      ensures acts == (Overloaded(myLoad, p.target, minRebalance) && (lastUnder == 0 || epoch - lastUnder >= 2))
      ensures lastUnder == if Overloaded(myLoad, p.target, minRebalance) then old(lastUnder) else epoch
      ensures Sum(p.exported, n) == Sum(p.imported, n) && Sum(p.targets, n) == Get(p.exported, whoami)
      ensures SumGap(p, n) == SumGap(p.Fresh(), n) - 2.0 * Sum(p.exported, n)
      ensures !acts ==> p == p.Fresh() && log == []
      ensures acts ==>
        Planned(p, |loads|, importMap, exporters, importers, k, l) && InOrder(p, beat, exporters, importers)
      ensures acts ==> Ordered(c, log, p.meta, importMap, exporters, importers) && Greedy(p.meta, p.target, log)
    {
      exporters, importers, k, l, c := [], [], 0, 0, Course([], [], []);
      Measure(loads);
      FreshIsSound(p, whoami);
      acts := Decide(epoch, minRebalance);
      if acts {
        var rising;
        rising, exporters, importers := Lists(n, p.meta, p.target, |loads|, beat);
        k, l, c := MakePlan(n, importMap, rising, exporters, importers);
      }
      PlanConserves(p, whoami, log, n);
    }
  }

  lemma {:induction false} SumFrame(m: map<nat, real>, m': map<nat, real>, n: nat)
    requires forall r: nat :: r < n ==> Get(m, r) == Get(m', r)
    ensures Sum(m, n) == Sum(m', n)
  {
    if n > 0 { SumFrame(m, m', n - 1); }
  }
}
