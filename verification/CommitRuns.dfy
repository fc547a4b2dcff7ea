/** Whole runs of one fragment's write-back: changes, commits, the object store applying
    writes one by one, and completions, in any order. */
module CommitRuns {
  import opened Options
  import opened Commit

  datatype Event =
    | Project(min: nat)                                          // pre_dirty
    | Touch(pv: nat)                                             // mark_dirty of the fragment alone
    | Change(key: Key, pv: nat, link: Linkage)
    | Add(key: Key, head: bool, pinned: bool)
    | Pin                                                        // the dentries are marked for refragmenting
    | Drop(key: Key)
    | Ask(want: nat, c: Context, trim: set<Key>, maxWrite: nat)  // commit
    | Land                                                       // the store applies a write
    | Finish(trim: set<Key>, maxWrite: nat)                      // _committed

  // A state of the run, as a crash or a later reader of the disk would find it.
  datatype Moment = Moment(v: Versions, inCommit: bool, dirty: bool, complete: bool,
                           items: map<Key, Dentry>, store: Store, waiting: map<nat, seq<Context>>, pins: nat)

  function Now(f: Fragment): Moment
    reads f
  {
    Moment(f.v, f.inCommit, f.dirty, f.complete, f.items, f.store, f.waiting, f.commitPins)
  }

  // What callers and the store promise; a change takes its version from pre_dirty.
  predicate Allowed(m: Moment, e: Event) {
    match e
    case Project(_) => true
    case Touch(pv) => m.v.current < pv <= m.v.projected
    case Change(k, pv, _) => k in m.items && m.v.current < pv <= m.v.projected
    case Add(k, _, _) => m.complete && k !in m.items
    case Pin => true
    case Drop(k) => k in m.items && Clean(m.items[k])
    case Ask(want, _, trim, _) => m.v.committed < Wanted(want, m.v.current) <= m.v.current && Snapped(m.items, trim)
    case Land => m.store.sent != []
    case Finish(trim, _) => m.inCommit && m.store.sent == [] && Snapped(m.items, trim)
  }

  // The promises of the protocol in one state.
  ghost predicate Good(m: Moment) {
    && m.v.Ordered() && (m.inCommit <==> m.v.InCommit())
    && (m.waiting != map[] ==> m.inCommit) && m.pins == (if m.waiting == map[] then 0 else 1)
    && (forall w <- m.waiting :: m.v.committed < w <= m.v.current)
    // nothing is on its way to an idle fragment's object, so its clean dentries are on disk now
    && (!m.inCommit ==> m.store.sent == [] && m.store.Landed() == m.store.disk)
    // no clean dentry differs from what the writes sent leave on disk
    && (forall k <- m.items :: Clean(m.items[k]) ==> At(m.store.Landed(), k) == m.items[k].OnDisk())
    // and it is on disk now, unless a write to it is still under way
    && (forall k <- m.items :: Clean(m.items[k]) && (forall w <- m.store.sent :: k !in w.updates) ==>
          At(m.store.disk, k) == m.items[k].OnDisk())
    // every dentry as of the header's version is on disk already
    && (forall k <- m.items :: !m.items[k].fragmenting && m.items[k].version <= m.store.header ==>
          At(m.store.disk, k) == m.items[k].OnDisk())
    // a clean complete fragment is exactly what is on disk
    && (!m.dirty && m.complete && (forall k <- m.items :: !m.items[k].fragmenting) ==>
          forall k :: At(m.store.disk, k) == if k in m.items then m.items[k].OnDisk() else None)
  }

  lemma ValidIsGood(f: Fragment)
    requires f.Valid()
    ensures Good(Now(f))
  {
    var m := Now(f);
    forall k | k in m.items
      ensures Clean(m.items[k]) ==> At(m.store.Landed(), k) == m.items[k].OnDisk()
      ensures !m.items[k].fragmenting && m.items[k].version <= m.store.header ==>
        At(m.store.disk, k) == m.items[k].OnDisk()
    { assert DentryOk(f.items[k], f.v, At(f.store.disk, k), At(f.store.Landed(), k), f.store.header); }
    forall k | k in m.items && Clean(m.items[k]) && (forall w <- m.store.sent :: k !in w.updates)
      ensures At(m.store.disk, k) == m.items[k].OnDisk()
    { Untouched(m.store.disk, m.store.sent, k); }
    if !m.dirty && m.complete && (forall k <- m.items :: !m.items[k].fragmenting) { CleanIsOnDisk(f); }
  }

  // The versions whose waiters were called, and the contexts called.
  datatype Calls = Calls(versions: seq<nat>, contexts: seq<Context>)

  const NO_CALLS := Calls([], [])

  // ---- what an event does

  // Changes to the fragment that no waiter and no write has a part in.
  function Changed(m: Moment, e: Event): Moment
    requires Allowed(m, e) && (e.Project? || e.Touch? || e.Change? || e.Add? || e.Pin? || e.Drop?)
  {
    match e
    case Project(min) => m.(v := m.v.(projected := (if min > m.v.projected then min else m.v.projected) + 1))
    case Touch(pv) => m.(v := m.v.(current := pv), dirty := true)
    case Change(k, pv, link) =>
      m.(v := m.v.(current := pv), dirty := true, items := m.items[k := Commit.Changed(m.items[k], pv, link)])
    case Add(k, head, pinned) => m.(items := m.items[k := Dentry(m.v.projected, false, pinned, head, Null)])
    case Pin => m.(items := map k | k in m.items :: m.items[k].(fragmenting := true))
    case Drop(k) => m.(items := m.items - {k}, complete := m.complete && m.items[k].link.Null?)
  }

  // The next write is on disk.
  function Landed(m: Moment): Moment
    requires m.store.sent != []
  {
    var w := m.store.sent[0];
    m.(store := Store(Apply(m.store.disk, w), if w.header.Some? then w.header.value else m.store.header,
                      m.store.sent[1..], m.store.inFlight))
  }

  // A waiter queues for its version, and a commit begins unless one is in flight.
  ghost predicate Asked(m: Moment, want: nat, c: Context, trim: set<Key>, u: Moment) {
    && u.waiting == Queued(m.waiting, Wanted(want, m.v.current), c) && u.inCommit && u.pins == 1
    && u.dirty == m.dirty && u.complete == m.complete
    && Begins(!m.inCommit, m.items, m.v, m.store, trim, u.items, u.v, u.store)
  }

  // The version in flight is committed: its dentries are clean, its waiters called, and the next
  // commit begins if anyone still waits.
  ghost predicate Finished(m: Moment, trim: set<Key>, u: Moment, calls: Calls) {
    && u.waiting == (map w | w in m.waiting && w > m.v.committing :: m.waiting[w])
    && Fires(m.waiting, m.v.committing, calls.versions) && calls.contexts == Gather(m.waiting, calls.versions)
    && u.complete == m.complete && u.dirty == (m.dirty && m.v.committing != m.v.current)
    && Begins(u.waiting != map[], SettledAll(m.items, m.v.committing), m.v.(committed := m.v.committing),
              m.store.(inFlight := None), trim, u.items, u.v, u.store)
  }

  ghost predicate Effect(m: Moment, e: Event, u: Moment, calls: Calls)
    requires Allowed(m, e)
  {
    match e
    case Ask(want, c, trim, _) => Asked(m, want, c, trim, u) && calls == NO_CALLS
    case Land => u == Landed(m) && calls == NO_CALLS
    case Finish(trim, _) => Finished(m, trim, u, calls)
    case _ => u == Changed(m, e) && calls == NO_CALLS
  }

  // One event of a run: it happens iff it is allowed, and then has its effect.
  ghost predicate Step(m: Moment, e: Event, done: bool, calls: Calls, u: Moment) {
    && Good(m) && Good(u) && done == Allowed(m, e)
    && (if Allowed(m, e) then Effect(m, e, u, calls) else u == m && calls == NO_CALLS)
  }

  // ---- what follows from it

  // Versions only grow, and a completion commits what was in flight and puts the rest in flight.
  predicate Advances(m: Moment, e: Event, done: bool, u: Moment) {
    && m.v.committing <= u.v.committing && m.v.committed <= u.v.committed && m.v.current <= u.v.current
    && (done && e.Finish? ==> u.v.committed == m.v.committing && forall w <- u.waiting :: w <= u.v.committing)
  }

  lemma StepAdvances(m: Moment, e: Event, done: bool, calls: Calls, u: Moment)
    requires Step(m, e, done, calls, u)
    ensures Advances(m, e, done, u)
  {
  }

  // Whoever waits goes on waiting or is called; called are only those whose version is
  // committed.
  predicate Serves(m: Moment, u: Moment, calls: Calls) {
    && (forall w <- m.waiting :: if w in u.waiting then m.waiting[w] <= u.waiting[w] else w in calls.versions)
    && (forall w <- calls.versions :: w in m.waiting && w <= u.v.committed)
    && (forall w <- calls.versions, c <- m.waiting[w] :: c in calls.contexts)
  }

  lemma StepServes(m: Moment, e: Event, done: bool, calls: Calls, u: Moment)
    requires Step(m, e, done, calls, u)
    ensures Serves(m, u, calls)
  {
    if done && e.Finish? { FinishServes(m.waiting, u.waiting, m.v.committing, calls.versions, calls.contexts); }
  }

  lemma FinishServes(was: map<nat, seq<Context>>, left: map<nat, seq<Context>>, committed: nat, fired: seq<nat>,
                     queue: seq<Context>)
    requires Fires(was, committed, fired) && queue == Gather(was, fired)
    requires left == map w | w in was && w > committed :: was[w]
    ensures forall w <- was :: if w in left then was[w] <= left[w] else w in fired
    ensures forall w <- fired :: w in was && w <= committed
    ensures forall w <- fired, c <- was[w] :: c in queue
  {
    forall w <- fired, c <- was[w] ensures c in queue { GatherHas(was, fired, w, c); }
  }

  // ---- performing it

  method PerformChange(f: Fragment, e: Event)
    requires f.Valid() && Allowed(Now(f), e)
    requires e.Project? || e.Touch? || e.Change? || e.Add? || e.Pin? || e.Drop?
    modifies f
    ensures f.Valid() && Now(f) == Changed(old(Now(f)), e)
  {
    match e
    case Project(min) => var _ := f.PreDirty(min);
    case Touch(pv) => f.MarkDirty(pv);
    case Change(k, pv, link) => f.ChangeDentry(k, pv, link);
    case Add(k, head, pinned) => f.AddNull(k, head, pinned);
    case Pin => f.PinDentries();
    case Drop(k) => f.DropDentry(k);
  }

  method PerformWrites(f: Fragment, e: Event) returns (calls: Calls)
    requires f.Valid() && Allowed(Now(f), e) && (e.Ask? || e.Land? || e.Finish?)
    modifies f
    ensures f.Valid() && Effect(old(Now(f)), e, Now(f), calls)
  {
    calls := NO_CALLS;
    match e
    case Ask(want, c, trim, maxWrite) => f.CommitWith(want, c, trim, maxWrite);
    case Land => f.ApplyNext();
    case Finish(trim, maxWrite) =>
      var fired, queue := f.Completed(trim, maxWrite);
      calls := Calls(fired, queue);
  }

  /** One event; one that is not allowed does not happen. */
  method Perform(f: Fragment, e: Event) returns (done: bool, calls: Calls)
    requires f.Valid()
    modifies f
    ensures f.Valid() && Step(old(Now(f)), e, done, calls, Now(f))
  {
    ValidIsGood(f);
    done, calls := Allowed(Now(f), e), NO_CALLS;
    if done {
      if e.Ask? || e.Land? || e.Finish? {
        calls := PerformWrites(f, e);
      } else {
        PerformChange(f, e);
      }
      ValidIsGood(f);
    }
  }

  // ---- runs

  // A run: its states, its events, which of them were allowed, and who was called at each.
  ghost predicate IsRun(trace: seq<Moment>, events: seq<Event>, done: seq<bool>, calls: seq<Calls>) {
    && |trace| == |events| + 1 && |done| == |events| && |calls| == |events|
    && forall n :: 0 <= n < |events| ==> Step(trace[n], events[n], done[n], calls[n], trace[n + 1])
  }

  lemma RunMore(trace: seq<Moment>, events: seq<Event>, done: seq<bool>, calls: seq<Calls>,
                e: Event, d: bool, c: Calls, u: Moment)
    requires IsRun(trace, events, done, calls) && Step(trace[|events|], e, d, c, u)
    ensures IsRun(trace + [u], events + [e], done + [d], calls + [c])
  {
    forall n | 0 <= n < |events + [e]|
      ensures Step((trace + [u])[n], (events + [e])[n], (done + [d])[n], (calls + [c])[n], (trace + [u])[n + 1])
    {
      if n < |events| { assert Step(trace[n], events[n], done[n], calls[n], trace[n + 1]); }
    }
  }

  method PerformNext(f: Fragment, e: Event, ghost trace: seq<Moment>, ghost events: seq<Event>, ghost done: seq<bool>,
                     ghost calls: seq<Calls>)
    returns (d: bool, c: Calls)
    requires f.Valid() && IsRun(trace, events, done, calls) && trace[|events|] == Now(f)
    modifies f
    ensures f.Valid() && IsRun(trace + [Now(f)], events + [e], done + [d], calls + [c])
  {
    d, c := Perform(f, e);
    RunMore(trace, events, done, calls, e, d, c, Now(f));
  }

  /** Any run from any valid fragment: an event happens iff it is allowed and then has its
      effect, and every state keeps the promises. */
  method Run(f: Fragment, events: seq<Event>) returns (trace: seq<Moment>, done: seq<bool>, calls: seq<Calls>)
    requires f.Valid()
    modifies f
    ensures f.Valid() && IsRun(trace, events, done, calls)
    ensures trace[0] == old(Now(f)) && trace[|events|] == Now(f) && Good(trace[0])
  {
    ValidIsGood(f);
    trace, done, calls := [Now(f)], [], [];
    for n := 0 to |events|
      invariant f.Valid() && IsRun(trace, events[..n], done, calls)
      invariant trace[0] == old(Now(f)) && trace[n] == Now(f) && Good(trace[0])
    {
      var d, c := PerformNext(f, events[n], trace, events[..n], done, calls);
      assert events[..n + 1] == events[..n] + [events[n]];
      trace, done, calls := trace + [Now(f)], done + [d], calls + [c];
    }
    assert events[..|events|] == events;
  }

  // What the steps of a run mean for those who wait.
  ghost predicate IsService(trace: seq<Moment>, events: seq<Event>, done: seq<bool>, calls: seq<Calls>) {
    && |trace| == |events| + 1 && |done| == |events| && |calls| == |events|
    && (forall n :: 0 <= n < |events| ==> Advances(trace[n], events[n], done[n], trace[n + 1]))
    && (forall n :: 0 <= n < |events| ==> Serves(trace[n], trace[n + 1], calls[n]))
    && (forall n, w :: 0 < n < |trace| && w in trace[n].waiting ==> trace[n].v.committed < w)
  }

  lemma RunIsService(trace: seq<Moment>, events: seq<Event>, done: seq<bool>, calls: seq<Calls>)
    requires IsRun(trace, events, done, calls)
    ensures IsService(trace, events, done, calls)
  {
    forall n | 0 <= n < |events|
      ensures Advances(trace[n], events[n], done[n], trace[n + 1]) && Serves(trace[n], trace[n + 1], calls[n])
    {
      StepAdvances(trace[n], events[n], done[n], calls[n], trace[n + 1]);
      StepServes(trace[n], events[n], done[n], calls[n], trace[n + 1]);
    }
    forall n, w | 0 < n < |trace| && w in trace[n].waiting ensures trace[n].v.committed < w {
      assert Step(trace[n - 1], events[n - 1], done[n - 1], calls[n - 1], trace[n]);
    }
  }

  lemma {:induction false} VersionsGrow(trace: seq<Moment>, events: seq<Event>, done: seq<bool>, calls: seq<Calls>,
                                        i: nat, j: nat)
    requires IsService(trace, events, done, calls) && i <= j <= |events|
    ensures trace[i].v.committing <= trace[j].v.committing && trace[i].v.committed <= trace[j].v.committed
    decreases j
  {
    if i < j {
      VersionsGrow(trace, events, done, calls, i, j - 1);
      assert Advances(trace[j - 1], events[j - 1], done[j - 1], trace[j]);
    }
  }

  // The event calls this context, which waited for version w.
  predicate CallsFor(calls: Calls, w: nat, c: Context) { w in calls.versions && c in calls.contexts }

  // Someone who no longer waits has been called in between.
  lemma {:induction false} CalledOrWaits(trace: seq<Moment>, events: seq<Event>, done: seq<bool>, calls: seq<Calls>,
                                         n: nat, j: nat, w: nat, c: Context)
    requires IsService(trace, events, done, calls) && n <= j <= |events|
    requires w in trace[n].waiting && c in trace[n].waiting[w]
    ensures (w in trace[j].waiting && c in trace[j].waiting[w]) || exists k :: n <= k < j && CallsFor(calls[k], w, c)
    decreases j - n
  {
    if n < j {
      assert Serves(trace[n], trace[n + 1], calls[n]);
      if w in trace[n + 1].waiting {
        CalledOrWaits(trace, events, done, calls, n + 1, j, w, c);
      } else {
        assert CallsFor(calls[n], w, c);
      }
    }
  }

  lemma CommittedByThen(trace: seq<Moment>, events: seq<Event>, done: seq<bool>, calls: seq<Calls>,
                        n: nat, i: nat, j: nat, w: nat, c: Context)
    requires IsService(trace, events, done, calls) && n <= i < j < |events|
    requires w in trace[n].waiting && c in trace[n].waiting[w]
    requires done[i] && events[i].Finish? && done[j] && events[j].Finish?
    ensures w <= trace[j + 1].v.committed
  {
    assert Advances(trace[i], events[i], done[i], trace[i + 1]);
    assert Advances(trace[j], events[j], done[j], trace[j + 1]);
    CalledOrWaits(trace, events, done, calls, n, i + 1, w, c);
    if w in trace[i + 1].waiting {
      VersionsGrow(trace, events, done, calls, i + 1, j);
    } else {
      var k :| n <= k < i + 1 && CallsFor(calls[k], w, c);
      assert Serves(trace[k], trace[k + 1], calls[k]);
      VersionsGrow(trace, events, done, calls, k + 1, j + 1);
    }
  }

  /** Whoever waits is called by the second completion that follows, and waits no longer. */
  lemma SecondCompletionServes(trace: seq<Moment>, events: seq<Event>, done: seq<bool>, calls: seq<Calls>,
                               n: nat, i: nat, j: nat, w: nat, c: Context)
    requires IsRun(trace, events, done, calls) && n <= i < j < |events|
    requires w in trace[n].waiting && c in trace[n].waiting[w]
    requires done[i] && events[i].Finish? && done[j] && events[j].Finish?
    ensures exists k :: n <= k <= j && CallsFor(calls[k], w, c)
    ensures w !in trace[j + 1].waiting
  {
    RunIsService(trace, events, done, calls);
    CommittedByThen(trace, events, done, calls, n, i, j, w, c);
    CalledOrWaits(trace, events, done, calls, n, j + 1, w, c);
  }

  lemma AskQueues(m: Moment, e: Event, calls: Calls, u: Moment)
    requires Step(m, e, true, calls, u) && e.Ask?
    ensures var w := Wanted(e.want, m.v.current);
      && w in u.waiting && u.waiting[w] == (if w in m.waiting then m.waiting[w] else []) + [e.c]
      && forall x <- m.waiting :: x != w ==> x in u.waiting && u.waiting[x] == m.waiting[x]
  {
  }

  /** Whoever asks for a commit is called by the second completion after that. */
  lemma AskerIsServed(trace: seq<Moment>, events: seq<Event>, done: seq<bool>, calls: seq<Calls>, n: nat, i: nat,
                      j: nat)
    requires IsRun(trace, events, done, calls) && n < i < j < |events| && done[n] && events[n].Ask?
    requires done[i] && events[i].Finish? && done[j] && events[j].Finish?
    ensures exists k :: n < k <= j && CallsFor(calls[k], Wanted(events[n].want, trace[n].v.current), events[n].c)
  {
    AskQueues(trace[n], events[n], calls[n], trace[n + 1]);
    SecondCompletionServes(trace, events, done, calls, n + 1, i, j, Wanted(events[n].want, trace[n].v.current),
                           events[n].c);
  }

  // ---- what a completed commit has saved

  // Until the commit in flight completes, its writes and no others are sent.
  lemma StepLands(m: Moment, e: Event, done: bool, calls: Calls, u: Moment)
    requires Step(m, e, done, calls, u) && m.inCommit && !(done && e.Finish?)
    ensures u.inCommit && u.store.Landed() == m.store.Landed()
  {
    if done && e.Land? { ApplyFirst(m.store.disk, m.store.sent); }
  }

  // No commit completes from the n-th event on and before the j-th.
  predicate NoneFinishes(events: seq<Event>, done: seq<bool>, n: nat, j: nat)
    requires n <= j <= |events| == |done|
  {
    forall l :: n <= l < j ==> !(done[l] && events[l].Finish?)
  }

  lemma {:induction false} LandedStays(trace: seq<Moment>, events: seq<Event>, done: seq<bool>, calls: seq<Calls>,
                                       n: nat, j: nat)
    requires IsRun(trace, events, done, calls) && n <= j <= |events|
    requires trace[n].inCommit && NoneFinishes(events, done, n, j)
    ensures trace[j].inCommit && trace[j].store.Landed() == trace[n].store.Landed()
    decreases j
  {
    if n < j {
      LandedStays(trace, events, done, calls, n, j - 1);
      StepLands(trace[j - 1], events[j - 1], done[j - 1], calls[j - 1], trace[j]);
    }
  }

  // This event begins a commit.
  predicate Starts(m: Moment, e: Event, done: bool, u: Moment) {
    done && u.inCommit && ((e.Ask? && !m.inCommit) || e.Finish?)
  }

  // The dentries as the commit that begins finds them.
  function Found(m: Moment, e: Event): map<Key, Dentry> {
    if e.Finish? then SettledAll(m.items, m.v.committing) else m.items
  }

  lemma StartSaves(m: Moment, e: Event, done: bool, calls: Calls, u: Moment)
    requires Step(m, e, done, calls, u) && Starts(m, e, done, u)
    ensures Saved(Found(m, e), e.trim, m.store.disk, u.store.Landed())
  {
  }

  lemma FinishKeepsDisk(m: Moment, e: Event, done: bool, calls: Calls, u: Moment)
    requires Step(m, e, done, calls, u) && done && e.Finish?
    ensures u.store.disk == m.store.Landed()
  {
  }

  /** When a commit completes, everything that was dirty or part of a new fragment when it began is
      on disk as it was then, whatever happened in between, and nothing else on disk has changed. */
  lemma CompletedIsSaved(trace: seq<Moment>, events: seq<Event>, done: seq<bool>, calls: seq<Calls>, n: nat, j: nat)
    requires IsRun(trace, events, done, calls) && n < j < |events|
    requires Starts(trace[n], events[n], done[n], trace[n + 1]) && NoneFinishes(events, done, n + 1, j)
    requires done[j] && events[j].Finish?
    ensures Saved(Found(trace[n], events[n]), events[n].trim, trace[n].store.disk, trace[j + 1].store.disk)
  {
    StartSaves(trace[n], events[n], done[n], calls[n], trace[n + 1]);
    LandedStays(trace, events, done, calls, n + 1, j);
    FinishKeepsDisk(trace[j], events[j], done[j], calls[j], trace[j + 1]);
  }
}
