/** Runs of the client's capability machine: any sequence of uses, messages and sends. */
module CapRuns {
  import opened Options
  import opened Caps
  import opened CapClient
  import opened Runs

  datatype Event =
    | Learn(i: nat)
    | Use(i: nat, used: Bits, wanted: Bits, room: Room)
    | Write(i: nat, bits: Bits)
    | Check(i: nat, delayed: bool, early: bool)
    | GrantMsg(i: nat, m: nat, g: Grant, flushed: bool, early: bool)
    | Reply(i: nat, m: nat, offer: Offer)
    | ImportMsg(i: nat, m: nat, offer: Offer, peer: Option<Peer>, g: Grant, flushed: bool, early: bool)
    | ExportMsg(i: nat, m: nat, id: nat, peer: Option<Peer>)
    | AckMsg(i: nat, tid: nat, bits: Bits)
    | Release(i: nat, m: nat, drop: Bits, unless: Bits)
    | Trim(i: nat, m: nat)
    | Drop(i: nat, m: nat)
    | Kick(i: nat)
    | SnapFlush(i: nat)
    | Close(m: nat)

  const NEW_INODE := Inode(map[], None, {}, {}, Room(0, 0, 0, 0, 0), Unsaved({}, {}, 0, map[], 0))

  const NEW_TRACE := Trace(map[], map[], map[], map[])

  // A state of the run: the inodes, and the flush history of each.
  datatype Moment = Moment(s: State, traces: map<nat, Trace>)

  function Now(c: Client): Moment reads c { Moment(c.s, c.traces) }

  function Config(c: Client): Setting reads c { Setting(c.ranks, c.inject, c.unmounting) }

  // What may happen next. An acknowledgement that wraps, and an offer that add_update_cap's
  // asserts reject, are left out of runs.
  predicate Allowed(m: Moment, cfg: Setting, e: Event) {
    if e.Close? then true
    else if e.Learn? then e.i !in m.s.inodes
    else
      && e.i in m.s.inodes
      && (e.AckMsg? ==> e.i in m.traces && AckOfFlush(m.traces[e.i], e.tid, e.bits))
      && (e.AckMsg? ==> e.i in m.traces && NoWrap(m.traces[e.i], e.tid, e.bits))
      && (e.Reply? ==> e.m < cfg.ranks && OfferOk(m.s.inodes[e.i], e.m, e.offer))
      && (e.ImportMsg? ==> e.m < cfg.ranks && OfferOk(m.s.inodes[e.i], e.m, e.offer.(auth := true)))
      && (e.ExportMsg? && e.peer.Some? ==> e.peer.value.mds < cfg.ranks)
  }

  // ---- what an event does

  // A grant, if there is a cap to grant to.
  ghost predicate Granted(o: Inode, o': Inode, m: nat, g: Grant, flushed: bool, early: bool, cfg: Setting) {
    if m in o.caps then
      && GrantDone(o, o', m, g, flushed, early, cfg)
      && HoldsUsed(o, Given(o, m, g, flushed), o', cfg.inject)
    else o' == o
  }

  // A new auth server gets again all that is flushing.
  function ResentTo(o: Inode, m: nat, inject: bool): Inode {
    if o.auth == Some(m) && m in o.caps && o.unsaved.flushing != {} then Resent(o, inject) else o
  }

  // handle_caps for an import: the cap is taken over, what is flushing is sent again, and the
  // grant follows.
  ghost predicate ImportedAndGranted(o: Inode, o': Inode, m: nat, offer: Offer, peer: Option<Peer>, g: Grant,
                                     flushed: bool, early: bool, cfg: Setting) {
    exists o1 :: Imported(o, o1, m, offer.(auth := true), peer, cfg.inject)
      && Granted(ResentTo(o1, m, cfg.inject), o', m, g, flushed, early, cfg)
  }

  // What an event on one inode does to it.
  ghost predicate Changes(o: Inode, e: Event, o': Inode, cfg: Setting) {
    match e
    case Use(_, used, wanted, room) => o' == o.(used := used, wanted := wanted, room := room)
    case Write(_, bits) => o' == Dirtied(o, bits)
    case AckMsg(_, tid, bits) => o' == o.(unsaved := FlushAck(o.unsaved, tid, bits))
    case Check(_, delayed, early) => Checked(o, o', cfg, delayed || !early)
    case GrantMsg(_, m, g, flushed, early) => Granted(o, o', m, g, flushed, early, cfg)
    case Reply(_, m, offer) => Updated(o, o', m, offer, cfg.inject) && UpdateDone(o, o', m, offer, cfg)
    case ImportMsg(_, m, offer, peer, g, flushed, early) =>
      ImportedAndGranted(o, o', m, offer, peer, g, flushed, early, cfg)
    case ExportMsg(_, m, id, peer) => Exported(o, o', m, id, peer, cfg.inject)
    case Release(_, m, drop, unless) => o' == if Gives(o, m, drop, unless) then Dropped(o, m, drop) else o
    case Trim(_, m) => o' == if Disposable(o, m) then Without(o, m) else o
    case Drop(_, m) => o' == Without(o, m)
    case Kick(_) => o' == if o.auth.Some? && o.auth.value in o.caps then Resent(o, cfg.inject) else o
    case SnapFlush(_) => o' == Skipped(o)
    case _ => false
  }

  // What it does to the inode's flush history: only a write dirties, only an acknowledgement
  // acknowledges, and everything else at most sends.
  ghost predicate Notes(u: Unsaved, t: Trace, e: Event, t': Trace) {
    match e
    case Write(_, bits) => t' == TraceDirty(u, t, bits)
    case AckMsg(_, tid, bits) => t' == t.Acked(tid, bits)
    case _ => Extends(t, t')
  }

  ghost predicate ChangesAt(m: Moment, e: Event, u: Moment, i: nat, cfg: Setting) {
    && i in m.s.inodes && i in u.s.inodes && i in m.traces && i in u.traces
    && SameBut(m.s.inodes, u.s.inodes, i) && SameBut(m.traces, u.traces, i)
    && Changes(m.s.inodes[i], e, u.s.inodes[i], cfg) && Notes(m.s.inodes[i].unsaved, m.traces[i], e, u.traces[i])
  }

  // One event: one that is not allowed does not happen.
  ghost predicate Effect(m: Moment, e: Event, u: Moment, cfg: Setting) {
    if !Allowed(m, cfg, e) then u == m
    else if e.Learn? then
      u.s.inodes == m.s.inodes[e.i := NEW_INODE] && u.traces == m.traces[e.i := NEW_TRACE]
    else if e.Close? then
      ClosedSoFar(m.s.inodes, m.traces, u.s.inodes, u.traces, {}, e.m)
    else
      ChangesAt(m, e, u, e.i, cfg)
  }

  ghost predicate Step(m: Moment, e: Event, u: Moment, cfg: Setting) {
    StateOk(m.s, m.traces, cfg.ranks) && StateOk(u.s, u.traces, cfg.ranks) && Effect(m, e, u, cfg)
  }

  // ---- performing it

  // A new inode without capabilities.
  method LearnInode(c: Client, i: nat)
    requires c.Valid() && i !in c.s.inodes
    modifies c`s, c`traces
    ensures c.Valid() && c.s.inodes == old(c.s.inodes)[i := NEW_INODE] && c.traces == old(c.traces)[i := NEW_TRACE]
  {
    assert FlushingInodes(c.s.inodes[i := NEW_INODE]) == FlushingInodes(c.s.inodes);
    NewIsOk(c.ranks);
    c.s := c.s.(inodes := c.s.inodes[i := NEW_INODE]);
    c.traces := c.traces[i := NEW_TRACE];
  }

  lemma NewIsOk(ranks: nat)
    ensures InodeOk(NEW_INODE, NEW_TRACE, ranks)
  {
    assert forall b: Bit :: Tracked(NEW_INODE.unsaved, NEW_TRACE, b);
  }

  // Events on one inode that do not come from a server.
  method PerformLocal(c: Client, e: Event)
    requires c.Valid() && Allowed(Now(c), Config(c), e)
    requires e.Use? || e.Drop? || e.Release? || e.Trim? || e.Kick? || e.SnapFlush?
    modifies c`s, c`traces
    ensures c.Valid() && c.OnlySends(e.i) && Changes(old(c.s.inodes)[e.i], e, c.s.inodes[e.i], Config(c))
  {
    if e.Use? || e.Drop? || e.SnapFlush? {
      PerformSet(c, e);
    } else if e.Kick? {
      PerformKick(c, e.i);
    } else {
      PerformGiveBack(c, e);
    }
  }

  method PerformSet(c: Client, e: Event)
    requires c.Valid() && (e.Use? || e.Drop? || e.SnapFlush?) && e.i in c.s.inodes
    modifies c`s, c`traces
    ensures c.Valid() && c.OnlySends(e.i) && Changes(old(c.s.inodes)[e.i], e, c.s.inodes[e.i], Config(c))
  {
    var o := c.s.inodes[e.i];
    match e
    case Use(i, used, wanted, room) =>
      c.Store(i, o.(used := used, wanted := wanted, room := room), c.traces[i], c.s.numFlushing);
    case Drop(i, m) =>
      c.Store(i, Without(o, m), c.traces[i], c.s.numFlushing);
    case SnapFlush(i) => c.SkipTid(i);
  }

  method PerformGiveBack(c: Client, e: Event)
    requires c.Valid() && (e.Release? || e.Trim?) && e.i in c.s.inodes
    modifies c`s, c`traces
    ensures c.Valid() && c.OnlySends(e.i) && Changes(old(c.s.inodes)[e.i], e, c.s.inodes[e.i], Config(c))
  {
    match e
    case Release(i, m, drop, unless) => var _ := c.EncodeRelease(i, m, drop, unless);
    case Trim(i, m) => if m in c.s.inodes[i].caps { var _ := c.TrimCap(i, m); }
  }

  method PerformKick(c: Client, i: nat)
    requires c.Valid() && i in c.s.inodes
    modifies c`s, c`traces
    ensures c.Valid() && c.OnlySends(i) && Changes(old(c.s.inodes)[i], Kick(i), c.s.inodes[i], Config(c))
  {
    if c.s.inodes[i].auth.Some? { c.Reflush(i); }
  }

  method PerformImport(c: Client, i: nat, m: nat, offer: Offer, peer: Option<Peer>, g: Grant, flushed: bool,
                       early: bool)
    requires c.Valid() && i in c.s.inodes && m < c.ranks && OfferOk(c.s.inodes[i], m, offer.(auth := true))
    modifies c`s, c`traces
    ensures c.Valid() && c.OnlySends(i)
    ensures ImportedAndGranted(old(c.s.inodes[i]), c.s.inodes[i], m, offer, peer, g, flushed, early, Config(c))
  {
    ghost var m0 := Now(c);
    c.HandleImport(i, m, offer, peer);
    ghost var m1 := Now(c);
    ResendAndGrant(c, i, m, g, flushed, early);
    SendsMore(m0, m1, Now(c), i);
    ImportsAndGrants(m0.s.inodes[i], m1.s.inodes[i], c.s.inodes[i], m, offer, peer, g, flushed, early, Config(c));
  }

  // Only one inode changed, and its history only by what was sent.
  ghost predicate SendsAt(m: Moment, u: Moment, i: nat) {
    && i in m.traces && i in u.traces && i in m.s.inodes && i in u.s.inodes
    && SameBut(m.s.inodes, u.s.inodes, i) && SameBut(m.traces, u.traces, i) && Extends(m.traces[i], u.traces[i])
  }

  lemma SendsMore(m: Moment, u: Moment, w: Moment, i: nat)
    requires SendsAt(m, u, i) && SendsAt(u, w, i)
    ensures SendsAt(m, w, i)
  {
  }

  lemma ImportsAndGrants(o: Inode, o1: Inode, o': Inode, m: nat, offer: Offer, peer: Option<Peer>, g: Grant,
                         flushed: bool, early: bool, cfg: Setting)
    requires Imported(o, o1, m, offer.(auth := true), peer, cfg.inject)
    requires Granted(ResentTo(o1, m, cfg.inject), o', m, g, flushed, early, cfg)
    ensures ImportedAndGranted(o, o', m, offer, peer, g, flushed, early, cfg)
  {
  }

  method ResendAndGrant(c: Client, i: nat, m: nat, g: Grant, flushed: bool, early: bool)
    requires c.Valid() && i in c.s.inodes
    modifies c`s, c`traces
    ensures c.Valid() && c.OnlySends(i)
    ensures Granted(ResentTo(old(c.s.inodes[i]), m, c.inject), c.s.inodes[i], m, g, flushed, early, Config(c))
  {
    ResendTo(c, i, m);
    GrantIfHeld(c, i, m, g, flushed, early);
  }

  method ResendTo(c: Client, i: nat, m: nat)
    requires c.Valid() && i in c.s.inodes
    modifies c`s, c`traces
    ensures c.Valid() && c.OnlySends(i) && c.s.inodes[i] == ResentTo(old(c.s.inodes[i]), m, c.inject)
  {
    if c.s.inodes[i].auth == Some(m) && c.s.inodes[i].unsaved.flushing != {} { c.Reflush(i); }
  }

  method GrantIfHeld(c: Client, i: nat, m: nat, g: Grant, flushed: bool, early: bool)
    requires c.Valid() && i in c.s.inodes
    modifies c`s, c`traces
    ensures c.Valid() && c.OnlySends(i) && Granted(old(c.s.inodes[i]), c.s.inodes[i], m, g, flushed, early, Config(c))
  {
    if m in c.s.inodes[i].caps { c.HandleGrant(i, m, g, flushed, early); }
  }

  // Messages and checks.
  method PerformMessage(c: Client, e: Event)
    requires c.Valid() && Allowed(Now(c), Config(c), e)
    requires e.Check? || e.GrantMsg? || e.Reply? || e.ImportMsg? || e.ExportMsg?
    modifies c`s, c`traces
    ensures c.Valid() && c.OnlySends(e.i) && Changes(old(c.s.inodes)[e.i], e, c.s.inodes[e.i], Config(c))
  {
    if e.GrantMsg? || e.ImportMsg? {
      PerformGrant(c, e);
    } else {
      match e
      case Check(i, delayed, early) => c.CheckCaps(i, delayed, early);
      case Reply(i, m, offer) => c.AddUpdateCap(i, m, offer);
      case ExportMsg(i, m, id, peer) => c.HandleExport(i, m, id, peer);
    }
  }

  method PerformGrant(c: Client, e: Event)
    requires c.Valid() && Allowed(Now(c), Config(c), e) && (e.GrantMsg? || e.ImportMsg?)
    modifies c`s, c`traces
    ensures c.Valid() && c.OnlySends(e.i) && Changes(old(c.s.inodes)[e.i], e, c.s.inodes[e.i], Config(c))
  {
    match e
    case GrantMsg(i, m, g, flushed, early) => GrantIfHeld(c, i, m, g, flushed, early);
    case ImportMsg(i, m, offer, peer, g, flushed, early) => PerformImport(c, i, m, offer, peer, g, flushed, early);
  }

  // Changes made here and acknowledgements of them.
  method PerformFlush(c: Client, e: Event)
    requires c.Valid() && Allowed(Now(c), Config(c), e) && (e.Write? || e.AckMsg?)
    modifies c`s, c`traces
    ensures c.Valid() && ChangesAt(old(Now(c)), e, Now(c), e.i, Config(c))
  {
    match e
    case Write(i, bits) => c.MarkCapsDirty(i, bits);
    case AckMsg(i, tid, bits) => c.HandleFlushAck(i, tid, bits);
  }

  method PerformOther(c: Client, e: Event)
    requires c.Valid() && Allowed(Now(c), Config(c), e) && !e.Write? && !e.AckMsg? && !e.Close? && !e.Learn?
    modifies c`s, c`traces
    ensures c.Valid() && ChangesAt(old(Now(c)), e, Now(c), e.i, Config(c))
  {
    if e.Check? || e.GrantMsg? || e.Reply? || e.ImportMsg? || e.ExportMsg? {
      PerformMessage(c, e);
    } else {
      PerformLocal(c, e);
    }
  }

  /** One event has its effect and keeps every inode's invariant; one that is not allowed is
      passed over. */
  method Perform(c: Client, e: Event)
    requires c.Valid()
    modifies c`s, c`traces
    ensures c.Valid() && Step(old(Now(c)), e, Now(c), Config(c))
  {
    if Allowed(Now(c), Config(c), e) { PerformAllowed(c, e); }
  }

  method PerformAllowed(c: Client, e: Event)
    requires c.Valid() && Allowed(Now(c), Config(c), e)
    modifies c`s, c`traces
    ensures c.Valid() && Effect(old(Now(c)), e, Now(c), Config(c))
  {
    if e.Learn? {
      LearnInode(c, e.i);
    } else if e.Close? {
      c.RemoveSessionCaps(e.m);
    } else if e.Write? || e.AckMsg? {
      PerformFlush(c, e);
    } else {
      PerformOther(c, e);
    }
  }

  // ---- runs

  ghost predicate IsRun(trace: seq<Moment>, es: seq<Event>, cfg: Setting) { Follows(StepOf(cfg), trace, es) }

  ghost function StepOf(cfg: Setting): (Moment, Event, Moment) -> bool { (m, e, u) => Step(m, e, u, cfg) }

  method PerformNext(c: Client, es: seq<Event>, k: nat, ghost trace: seq<Moment>)
    requires k < |es| && c.Valid() && IsRun(trace, es[..k], Config(c)) && trace[k] == Now(c)
    modifies c`s, c`traces
    ensures c.Valid() && IsRun(trace + [Now(c)], es[..k + 1], Config(c))
  {
    Perform(c, es[k]);
    FollowsMore(StepOf(Config(c)), trace, es[..k], es[k], Now(c));
    assert es[..k + 1] == es[..k] + [es[k]];
  }

  /** Any run: every event has its effect, and every state keeps the invariant of every inode. */
  method Run(c: Client, es: seq<Event>) returns (trace: seq<Moment>)
    requires c.Valid()
    modifies c`s, c`traces
    ensures c.Valid() && IsRun(trace, es, Config(c)) && trace[0] == old(Now(c)) && trace[|es|] == Now(c)
  {
    trace := [Now(c)];
    for k := 0 to |es|
      invariant c.Valid() && IsRun(trace, es[..k], Config(c)) && trace[0] == old(Now(c)) && trace[k] == Now(c)
    {
      PerformNext(c, es, k, trace);
      trace := trace + [Now(c)];
    }
    assert es[..|es|] == es;
  }

  // ---- nothing dirtied is lost

  // Closing the session of its auth server loses what an inode has not saved.
  predicate Forgets(m: Moment, e: Event, i: nat) {
    e.Close? && i in m.s.inodes && m.s.inodes[i].auth == Some(e.m)
  }

  // Every bit dirtied is remembered, with its last dirtying no earlier.
  ghost predicate Remembers(t: Trace, t': Trace) {
    forall b <- t.dirtied :: b in t'.dirtied && t.dirtied[b] <= t'.dirtied[b]
  }

  predicate Acks(t: Trace, n: nat, b: Bit) { n in t.acked && b in t.acked[n] }

  // The event acknowledges the bit in flush n.
  predicate IsAck(e: Event, i: nat, n: nat, b: Bit) { e.AckMsg? && e.i == i && e.tid == n && b in e.bits }

  // What an event does to the history of one inode.
  ghost predicate Recorded(o: Inode, t: Trace, e: Event, t': Trace, i: nat) {
    if e.Close? then t' == ClosedTrace(o, t, e.m)
    else if e.Learn? || e.i != i then t' == t
    else t' == t || Notes(o.unsaved, t, e, t')
  }

  lemma EffectIsRecorded(m: Moment, e: Event, u: Moment, cfg: Setting, i: nat)
    requires Step(m, e, u, cfg) && i in m.s.inodes
    ensures i in m.traces && i in u.s.inodes && i in u.traces && Good(m.s.inodes[i].unsaved, m.traces[i])
    ensures Recorded(m.s.inodes[i], m.traces[i], e, u.traces[i], i)
    ensures !Allowed(m, cfg, e) ==> u.traces[i] == m.traces[i]
  {
    assert InodeOk(m.s.inodes[i], m.traces[i], cfg.ranks);
  }

  // Whatever is acknowledged after an event was before, or the event is the acknowledgement.
  lemma AckedByEvent(o: Inode, t: Trace, e: Event, t': Trace, i: nat, n: nat, b: Bit)
    requires Recorded(o, t, e, t', i) && Acks(t', n, b)
    ensures Acks(t, n, b) || (t' != t && IsAck(e, i, n, b))
  {
  }

  lemma EventRemembers(o: Inode, t: Trace, e: Event, t': Trace, i: nat)
    requires Recorded(o, t, e, t', i) && Good(o.unsaved, t) && !(e.Close? && o.auth == Some(e.m))
    ensures Remembers(t, t')
  {
    if e.Write? { DirtyRemembers(o.unsaved, t, e.bits); }
  }

  lemma DirtyRemembers(o: Unsaved, t: Trace, bits: Bits)
    requires Good(o, t)
    ensures Remembers(t, TraceDirty(o, t, bits))
  {
    forall b <- t.dirtied ensures t.dirtied[b] <= TraceDirty(o, t, bits).dirtied[b] {
      assert Tracked(o, t, b);
    }
  }

  // What one event means for the history of one inode.
  ghost predicate LinksAt(m: Moment, e: Event, u: Moment, cfg: Setting, i: nat) {
    && i in u.s.inodes && i in m.traces && i in u.traces
    && (forall n, b :: Acks(u.traces[i], n, b) ==> Acks(m.traces[i], n, b) || (Allowed(m, cfg, e) && IsAck(e, i, n, b)))
    && (!Forgets(m, e, i) ==> Remembers(m.traces[i], u.traces[i]))
  }

  lemma StepLinks(m: Moment, e: Event, u: Moment, cfg: Setting, i: nat)
    requires Step(m, e, u, cfg) && i in m.s.inodes
    ensures LinksAt(m, e, u, cfg, i)
  {
    EffectIsRecorded(m, e, u, cfg, i);
    RecordedLinks(m, e, u, cfg, i);
  }

  lemma RecordedLinks(m: Moment, e: Event, u: Moment, cfg: Setting, i: nat)
    requires i in m.s.inodes && i in u.s.inodes && i in m.traces && i in u.traces
    requires Good(m.s.inodes[i].unsaved, m.traces[i]) && Recorded(m.s.inodes[i], m.traces[i], e, u.traces[i], i)
    requires !Allowed(m, cfg, e) ==> u.traces[i] == m.traces[i]
    ensures LinksAt(m, e, u, cfg, i)
  {
    forall n, b | Acks(u.traces[i], n, b)
      ensures Acks(m.traces[i], n, b) || (Allowed(m, cfg, e) && IsAck(e, i, n, b))
    {
      AckedByEvent(m.s.inodes[i], m.traces[i], e, u.traces[i], i, n, b);
    }
    if !Forgets(m, e, i) { EventRemembers(m.s.inodes[i], m.traces[i], e, u.traces[i], i); }
  }

  ghost predicate Links(m: Moment, e: Event, u: Moment, cfg: Setting) {
    forall i <- m.s.inodes :: LinksAt(m, e, u, cfg, i)
  }

  lemma RunStepLinks(trace: seq<Moment>, es: seq<Event>, cfg: Setting, k: nat)
    requires IsRun(trace, es, cfg) && k < |es|
    ensures Links(trace[k], es[k], trace[k + 1], cfg)
  {
    forall i <- trace[k].s.inodes ensures LinksAt(trace[k], es[k], trace[k + 1], cfg, i) {
      StepLinks(trace[k], es[k], trace[k + 1], cfg, i);
    }
  }

  // The history of one inode along a run.
  ghost predicate IsHistory(trace: seq<Moment>, es: seq<Event>, cfg: Setting, i: nat) {
    && |trace| == |es| + 1 && i in trace[0].s.inodes && i in trace[0].traces
    && forall k :: 0 <= k < |es| ==> LinksAt(trace[k], es[k], trace[k + 1], cfg, i)
  }

  lemma {:induction false} LinksStay(trace: seq<Moment>, es: seq<Event>, cfg: Setting, i: nat, k: nat)
    requires |trace| == |es| + 1 && k <= |es| && i in trace[0].s.inodes
    requires forall j :: 0 <= j < |es| ==> Links(trace[j], es[j], trace[j + 1], cfg)
    ensures i in trace[k].s.inodes && forall j :: 0 <= j < k ==> LinksAt(trace[j], es[j], trace[j + 1], cfg, i)
  {
    if k > 0 {
      LinksStay(trace, es, cfg, i, k - 1);
      assert Links(trace[k - 1], es[k - 1], trace[k], cfg);
    }
  }

  lemma RunLinks(trace: seq<Moment>, es: seq<Event>, cfg: Setting)
    requires IsRun(trace, es, cfg)
    ensures forall k :: 0 <= k < |es| ==> Links(trace[k], es[k], trace[k + 1], cfg)
  {
    forall k | 0 <= k < |es| ensures Links(trace[k], es[k], trace[k + 1], cfg) { RunStepLinks(trace, es, cfg, k); }
  }

  lemma {:induction false} HistoryRemembers(trace: seq<Moment>, es: seq<Event>, cfg: Setting, i: nat, k: nat)
    requires IsHistory(trace, es, cfg, i) && k <= |es|
    requires forall j :: 0 <= j < k ==> !Forgets(trace[j], es[j], i)
    ensures i in trace[k].traces && Remembers(trace[0].traces[i], trace[k].traces[i])
  {
    if k > 0 {
      HistoryRemembers(trace, es, cfg, i, k - 1);
      assert LinksAt(trace[k - 1], es[k - 1], trace[k], cfg, i);
    }
  }

  // Some event from here on, before the k-th, acknowledges the bit in flush n.
  ghost predicate AckedDuring(trace: seq<Moment>, es: seq<Event>, cfg: Setting, from: nat, k: nat, i: nat, n: nat,
                              b: Bit)
    requires k <= |es| < |trace|
  {
    exists j :: from <= j < k && Allowed(trace[j], cfg, es[j]) && IsAck(es[j], i, n, b)
  }

  // Whatever is acknowledged was so before the run, or an event of the run acknowledged it.
  lemma {:induction false} AckedByRun(trace: seq<Moment>, es: seq<Event>, cfg: Setting, i: nat, k: nat, n: nat, b: Bit)
    requires IsHistory(trace, es, cfg, i) && k <= |es| && i in trace[k].traces && Acks(trace[k].traces[i], n, b)
    ensures Acks(trace[0].traces[i], n, b) || AckedDuring(trace, es, cfg, 0, k, i, n, b)
  {
    if k > 0 {
      assert LinksAt(trace[k - 1], es[k - 1], trace[k], cfg, i);
      if Acks(trace[k - 1].traces[i], n, b) { AckedByRun(trace, es, cfg, i, k - 1, n, b); }
    }
  }

  // The bit is dirty or on its way.
  predicate Unsettled(m: Moment, i: nat, b: Bit) {
    i in m.s.inodes && b in m.s.inodes[i].unsaved.dirty + m.s.inodes[i].unsaved.flushing
  }

  // A state in which the inode's history is kept.
  ghost predicate Tracks(m: Moment, i: nat) {
    i in m.s.inodes && i in m.traces && Good(m.s.inodes[i].unsaved, m.traces[i])
  }

  lemma {:induction false} HistoryLosesNothing(trace: seq<Moment>, es: seq<Event>, cfg: Setting, i: nat, b: Bit)
    returns (n: nat)
    requires IsHistory(trace, es, cfg, i) && Tracks(trace[|es|], i) && b in trace[0].traces[i].dirtied
    requires forall j :: 0 <= j < |es| ==> !Forgets(trace[j], es[j], i)
    ensures Remembers(trace[0].traces[i], trace[|es|].traces[i])
    ensures !Unsettled(trace[|es|], i, b) ==> b in trace[|es|].traces[i].dirtied
    ensures !Unsettled(trace[|es|], i, b) ==> trace[|es|].traces[i].dirtied[b] < n
    ensures !Unsettled(trace[|es|], i, b) ==>
      Acks(trace[0].traces[i], n, b) || AckedDuring(trace, es, cfg, 0, |es|, i, n, b)
  {
    var k := |es|;
    var t := trace[k].traces;
    HistoryRemembers(trace, es, cfg, i, k);
    assert Tracked(trace[k].s.inodes[i].unsaved, t[i], b);
    n := 0;
    if !Unsettled(trace[k], i, b) {
      n :| t[i].dirtied[b] < n && t[i].Answers(n, b);
      AckedByRun(trace, es, cfg, i, k, n, b);
    }
  }

  lemma RunIsHistory(trace: seq<Moment>, es: seq<Event>, cfg: Setting, i: nat)
    requires IsRun(trace, es, cfg) && Tracks(trace[0], i)
    ensures IsHistory(trace, es, cfg, i) && Tracks(trace[|es|], i)
  {
    RunLinks(trace, es, cfg);
    LinksStay(trace, es, cfg, i, |es|);
    if |es| > 0 { StepTracks(trace[|es| - 1], es[|es| - 1], trace[|es|], cfg, i); }
  }

  lemma StepTracks(m: Moment, e: Event, u: Moment, cfg: Setting, i: nat)
    requires Step(m, e, u, cfg) && i in u.s.inodes
    ensures Tracks(u, i)
  {
    assert InodeOk(u.s.inodes[i], u.traces[i], cfg.ranks);
  }

  /** A bit dirtied before a run that never loses the inode's auth session is, at its end, dirty
      or flushing, unless a flush sent after it was last dirtied was acknowledged for it: by a
      message of the run, or before. */
  lemma NothingLost(trace: seq<Moment>, es: seq<Event>, cfg: Setting, i: nat, b: Bit) returns (n: nat)
    requires IsRun(trace, es, cfg) && Tracks(trace[0], i) && b in trace[0].traces[i].dirtied
    requires forall j :: 0 <= j < |es| ==> !Forgets(trace[j], es[j], i)
    ensures i in trace[|es|].traces && Remembers(trace[0].traces[i], trace[|es|].traces[i])
    ensures !Unsettled(trace[|es|], i, b) ==> trace[|es|].traces[i].dirtied[b] < n
    ensures !Unsettled(trace[|es|], i, b) ==>
      Acks(trace[0].traces[i], n, b) || AckedDuring(trace, es, cfg, 0, |es|, i, n, b)
  {
    RunIsHistory(trace, es, cfg, i);
    n := HistoryLosesNothing(trace, es, cfg, i, b);
  }

  // A flush later than all sent so far is not acknowledged yet.
  lemma NotYetAcked(m: Moment, i: nat, n: nat, b: Bit)
    requires Tracks(m, i) && n > m.s.inodes[i].unsaved.lastTid
    ensures !Acks(m.traces[i], n, b)
  {
  }

  // Right after a write its bits are dirtied, at the last flush sent so far.
  lemma WriteDirties(m: Moment, e: Event, u: Moment, cfg: Setting, b: Bit)
    requires Step(m, e, u, cfg) && e.Write? && Allowed(m, cfg, e) && b in e.bits
    ensures Tracks(u, e.i) && u.s.inodes[e.i].unsaved.lastTid == m.s.inodes[e.i].unsaved.lastTid
    ensures b in u.traces[e.i].dirtied && u.traces[e.i].dirtied[b] == m.s.inodes[e.i].unsaved.lastTid
  {
    StepTracks(m, e, u, cfg, e.i);
  }

  lemma DuringFrom(trace: seq<Moment>, es: seq<Event>, cfg: Setting, k: nat, i: nat, n: nat, b: Bit)
    requires |trace| == |es| + 1 && k <= |es| && AckedDuring(trace[k..], es[k..], cfg, 0, |es| - k, i, n, b)
    ensures AckedDuring(trace, es, cfg, k, |es|, i, n, b)
  {
    var j :| 0 <= j < |es| - k && Allowed(trace[k..][j], cfg, es[k..][j]) && IsAck(es[k..][j], i, n, b);
    assert Allowed(trace[k + j], cfg, es[k + j]) && IsAck(es[k + j], i, n, b);
  }

  // Nothing is lost from any state of a run on.
  lemma NothingLostFrom(trace: seq<Moment>, es: seq<Event>, cfg: Setting, k: nat, i: nat, b: Bit) returns (n: nat)
    requires IsRun(trace, es, cfg) && k <= |es| && Tracks(trace[k], i) && b in trace[k].traces[i].dirtied
    requires forall j :: k <= j < |es| ==> !Forgets(trace[j], es[j], i)
    ensures !Unsettled(trace[|es|], i, b) ==> trace[k].traces[i].dirtied[b] < n
    ensures !Unsettled(trace[|es|], i, b) ==>
      Acks(trace[k].traces[i], n, b) || AckedDuring(trace, es, cfg, k, |es|, i, n, b)
  {
    FollowsFrom(StepOf(cfg), trace, es, k);
    n := NothingLost(trace[k..], es[k..], cfg, i, b);
    if !Unsettled(trace[|es|], i, b) && !Acks(trace[k].traces[i], n, b) {
      DuringFrom(trace, es, cfg, k, i, n, b);
    }
  }

  /** What a write of the run dirties stays dirty or flushing until a later message of the run
      acknowledges it in a flush sent since. */
  lemma WrittenNotLost(trace: seq<Moment>, es: seq<Event>, cfg: Setting, k: nat, b: Bit) returns (n: nat)
    requires IsRun(trace, es, cfg) && k < |es| && es[k].Write? && Allowed(trace[k], cfg, es[k]) && b in es[k].bits
    requires forall j :: k < j < |es| ==> !Forgets(trace[j], es[j], es[k].i)
    ensures !Unsettled(trace[|es|], es[k].i, b) ==> n > trace[k].s.inodes[es[k].i].unsaved.lastTid
    ensures !Unsettled(trace[|es|], es[k].i, b) ==> AckedDuring(trace, es, cfg, k + 1, |es|, es[k].i, n, b)
  {
    WriteDirties(trace[k], es[k], trace[k + 1], cfg, b);
    n := NothingLostFrom(trace, es, cfg, k + 1, es[k].i, b);
    if !Unsettled(trace[|es|], es[k].i, b) {
      NotYetAcked(trace[k + 1], es[k].i, n, b);
    }
  }
}
