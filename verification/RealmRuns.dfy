/** Runs of the client's realms: inodes come and go, traces arrive, contexts are read. */
module RealmRuns {
  import opened Options
  import opened Runs
  import opened SnapRealms

  datatype Event =
    | Open(i: nat, r: nat)
    | Close(i: nat)
    | Trace(es: seq<Entry>)
    | Read(r: nat)

  // One state of a run, with a ranking that shows that its realms form a tree.
  datatype Moment = Moment(s: State, depth: nat -> nat)

  ghost function Now(c: RealmCache): Moment
    reads c
  {
    Moment(c.s, c.depth)
  }

  // What may happen next; a trace is taken up to an entry that would make a cycle.
  predicate Allowed(s: State, e: Event) {
    match e
    case Open(i, _) => i !in s.inodes
    case Close(i) => i in s.inodes
    case Trace(_) => true
    case Read(r) => r in s.tree.infos
  }

  // Something refers to this realm: an inode or a child.
  predicate Needed(s: State, r: nat) {
    Holders(s.inodes, r) != {} || exists k <- s.tree.infos :: IsKid(s.tree.infos, r, k)
  }

  // The promises in one state.
  ghost predicate Good(m: Moment) {
    var infos := m.s.tree.infos;
    // the realms are a tree, and those that inodes hold are there
    && Ranked(infos, m.depth) && (forall i <- m.s.inodes :: m.s.inodes[i] in infos)
    // no realm is there that nothing refers to
    && (forall r <- infos :: Needed(m.s, r))
    // every cached context is right
    && (forall r <- m.s.cached :: m.s.cached[r].seqNo != 0 ==> IsContextOf(m.s.cached[r], infos, m.depth, r))
  }

  lemma {:induction false} ValidIsGood(c: RealmCache)
    requires c.Valid()
    ensures Good(Now(c))
  {
    var m := Now(c);
    forall r <- m.s.tree.infos ensures Needed(m.s, r) { AllNeeded(m.s, m.depth, r); }
    forall r <- m.s.cached | m.s.cached[r].seqNo != 0
      ensures IsContextOf(m.s.cached[r], m.s.tree.infos, m.depth, r)
    {
      assert Fits(m.s.tree.infos, m.depth, m.s.cached[r], r);
    }
  }

  lemma {:induction false} AllNeeded(s: State, depth: nat -> nat, r: nat)
    requires StateOk(s, depth) && r in s.tree.infos
    ensures Needed(s, r)
  {
    if Holders(s.inodes, r) == {} {
      assert Helds(s.tree)[r] == 0;
      var k :| k in s.tree.kids[r];
      assert IsKid(s.tree.infos, r, k);
    }
  }

  // ---- what an event does

  // A trace was taken over entry by entry.
  ghost predicate Traced(infos: map<nat, Info>, es: seq<Entry>, held: set<nat>, infos': map<nat, Info>) {
    exists n, states :: TakenOver(infos, es, n, states, held) && infos' == states[n]
  }

  ghost predicate Effect(m: Moment, e: Event, u: Moment, read: Option<Context>)
    requires Allowed(m.s, e)
  {
    var infos, infos' := m.s.tree.infos, u.s.tree.infos;
    && (read.Some? <==> e.Read?)
    && match e
       case Open(i, r) => u.s.inodes == m.s.inodes[i := r] && infos' == Known(infos, r)
       case Close(i) =>
         u.s.inodes == m.s.inodes - {i} && Fewer(infos, infos') && (Goes(m.s, i) <==> m.s.inodes[i] !in infos')
       case Trace(es) => u.s.inodes == m.s.inodes && Traced(infos, es, m.s.inodes.Values, infos')
       case Read(r) => u.s == m.s.(cached := u.s.cached) && IsContextOf(read.value, infos, m.depth, r)
  }

  // One event of a run: it happens iff it is allowed, and then has its effect.
  ghost predicate Step(m: Moment, e: Event, u: Moment, read: Option<Context>) {
    && Good(m) && Good(u)
    && if Allowed(m.s, e) then Effect(m, e, u, read) else u == m && read == None
  }

  // ---- performing it

  method PerformTrace(c: RealmCache, es: seq<Entry>)
    requires c.Valid()
    modifies c
    ensures c.Valid() && c.s.inodes == old(c.s.inodes)
    ensures Traced(old(c.s.tree.infos), es, c.s.inodes.Values, c.s.tree.infos)
  {
    ghost var states;
    var n;
    n, states := c.UpdateTrace(es);
  }

  method PerformEvent(c: RealmCache, e: Event) returns (read: Option<Context>)
    requires c.Valid() && Allowed(c.s, e)
    modifies c
    ensures c.Valid() && Effect(old(Now(c)), e, Now(c), read)
  {
    read := None;
    match e
    case Open(i, r) => c.OpenInode(i, r);
    case Close(i) => c.CloseInode(i);
    case Trace(es) => PerformTrace(c, es);
    case Read(r) =>
      var context := c.GetSnapContext(r);
      read := Some(context);
  }

  /** One event; one that is not allowed does not happen. */
  method Perform(c: RealmCache, e: Event) returns (read: Option<Context>)
    requires c.Valid()
    modifies c
    ensures c.Valid() && Step(old(Now(c)), e, Now(c), read)
  {
    ValidIsGood(c);
    read := None;
    if Allowed(c.s, e) {
      read := PerformEvent(c, e);
      ValidIsGood(c);
    }
  }

  // ---- runs

  ghost const STEP: (Moment, Event, Moment, Option<Context>) -> bool := (m, e, u, read) => Step(m, e, u, read)

  // A run: its states, its events and the contexts read.
  ghost predicate IsRun(trace: seq<Moment>, events: seq<Event>, answers: seq<Option<Context>>) {
    Answers(STEP, trace, events, answers)
  }

  method PerformNext(c: RealmCache, e: Event, ghost trace: seq<Moment>, ghost events: seq<Event>,
                     ghost answers: seq<Option<Context>>)
    returns (read: Option<Context>)
    requires c.Valid() && IsRun(trace, events, answers) && trace[|events|] == Now(c)
    modifies c
    ensures c.Valid() && IsRun(trace + [Now(c)], events + [e], answers + [read])
  {
    read := Perform(c, e);
    AnswersMore(STEP, trace, events, answers, e, Now(c), read);
  }

  /** Any run of a client that starts without realms: an event happens iff it is allowed and
      then has its effect, and every state keeps the promises. */
  method Run(events: seq<Event>) returns (c: RealmCache, answers: seq<Option<Context>>, ghost trace: seq<Moment>)
    ensures fresh(c) && c.Valid() && IsRun(trace, events, answers)
    ensures trace[0].s.tree.infos == map[] && trace[0].s.inodes == map[] && trace[|events|] == Now(c) && Good(Now(c))
  {
    c := new RealmCache();
    answers, trace := [], [Now(c)];
    for n := 0 to |events|
      invariant fresh(c) && c.Valid() && IsRun(trace, events[..n], answers) && trace[n] == Now(c)
      invariant trace[0].s.tree.infos == map[] && trace[0].s.inodes == map[]
    {
      var read := PerformNext(c, events[n], trace, events[..n], answers);
      assert events[..n + 1] == events[..n] + [events[n]];
      answers, trace := answers + [read], trace + [Now(c)];
    }
    assert events[..|events|] == events;
    ValidIsGood(c);
  }

  // ---- what follows from it

  lemma {:induction false} Deepest(s: set<nat>, depth: nat -> nat) returns (d: nat)
    requires s != {}
    ensures d in s && forall x <- s :: depth(x) <= depth(d)
  {
    d :| d in s;
    if s != {d} {
      var d' := Deepest(s - {d}, depth);
      if depth(d') > depth(d) { d := d'; }
    }
  }

  /** No realm outlives the inodes: when the last one has gone, so have all realms. */
  lemma {:induction false} NoneLeft(m: Moment)
    requires Good(m) && m.s.inodes == map[]
    ensures m.s.tree.infos == map[]
  {
    var infos := m.s.tree.infos;
    if infos.Keys != {} {
      var d := Deepest(infos.Keys, m.depth);
      assert false;
    }
  }

  lemma {:induction false} DescendingUnique(a: seq<nat>, b: seq<nat>)
    requires Descending(a) && Descending(b) && forall x :: x in a <==> x in b
    ensures a == b
  {
    assert (a != [] ==> a[0] in b) && (b != [] ==> b[0] in a);
    if a != [] && b != [] {
      assert a == [a[0]] + a[1..] && b == [b[0]] + b[1..];
      forall x ensures x in a[1..] <==> x in b[1..] {
        assert x in a <==> x in b;
      }
      DescendingUnique(a[1..], b[1..]);
    }
  }

  /** The definition gives a realm one context. */
  lemma {:induction false} ContextUnique(infos: map<nat, Info>, depth: nat -> nat, depth': nat -> nat, r: nat,
                                         c: Context, c': Context)
    requires IsContextOf(c, infos, depth, r) && IsContextOf(c', infos, depth', r)
    ensures c == c'
  {
    MeanUnique(infos, depth, depth', r);
    DescendingUnique(c.snaps, c'.snaps);
  }

  // ---- a run that reads what it heard

  const HELD := Entry(5, 3, 1, 0, [], [2, 3])
  const ABOVE := Entry(1, 4, 0, 0, [], [4])

  // The two entries are taken over, and the realm held has the other one above it.
  lemma {:induction false} WitnessTrace(infos: map<nat, Info>, n: nat, states: seq<map<nat, Info>>)
    requires infos == map[5 := BLANK] && TakenOver(infos, [HELD, ABOVE], n, states, {5})
    requires forall r <- states[n] :: states[n][r].pparent.Some? ==> states[n][r].pparent.value in states[n]
    ensures 5 in states[n] && states[n][5] == Info(3, 1, Some(1), 0, [], [2, 3])
    ensures 1 in states[n] && states[n][1] == Info(4, 0, None, 0, [], [4])
  {
    assert states[0] == infos && !Cycle(states[0], HELD);
    assert n > 0 && Applied(states[0], states[1], HELD, {5});
    assert !Cycle(states[1], ABOVE);
    assert n == 2 && Applied(states[1], states[2], ABOVE, {5});
  }

  lemma {:induction false} WitnessMean(infos: map<nat, Info>, depth: nat -> nat, c: Context)
    requires 5 in infos && infos[5] == Info(3, 1, Some(1), 0, [], [2, 3])
    requires 1 in infos && infos[1] == Info(4, 0, None, 0, [], [4]) && IsContextOf(c, infos, depth, 5)
    ensures c == Context(4, [4, 3, 2])
  {
    assert Mean(infos, depth, 1) == Meaning(4, {4});
    assert Mean(infos, depth, 5) == Meaning(4, {2, 3, 4});
    DescendingUnique(c.snaps, [4, 3, 2]);
  }

  /** A realm held, updated and read: its context has its own snapshots and those of the realm
      above it. */
  method Witness() returns (c: RealmCache, context: Context)
    ensures fresh(c) && c.Valid() && c.s.inodes == map[7 := 5] && 5 in c.s.tree.infos
    ensures context == Context(4, [4, 3, 2]) && IsContextOf(context, c.s.tree.infos, c.depth, 5)
  {
    c := new RealmCache();
    c.OpenInode(7, 5);
    assert c.s.inodes.Values == {5};
    ghost var infos := c.s.tree.infos;
    ghost var states;
    var n;
    n, states := c.UpdateTrace([HELD, ABOVE]);
    WitnessTrace(infos, n, states);
    context := c.GetSnapContext(5);
    WitnessMean(c.s.tree.infos, c.depth, context);
  }
}
