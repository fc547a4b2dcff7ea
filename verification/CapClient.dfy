/** The client: capabilities over several inodes and metadata servers. */
module CapClient {
  import opened Options
  import opened Caps

  datatype State = State(inodes: map<nat, Inode>, numFlushing: int)

  ghost predicate InodeOk(o: Inode, t: Trace, ranks: nat) {
    o.CapsOk() && (forall m <- o.caps :: m < ranks) && Good(o.unsaved, t)
  }

  function FlushingInodes(inodes: map<nat, Inode>): set<nat> {
    set i <- inodes | inodes[i].unsaved.flushing != {}
  }

  function One(b: bool): int { if b then 1 else 0 }

  ghost predicate StateOk(s: State, traces: map<nat, Trace>, ranks: nat) {
    && traces.Keys == s.inodes.Keys
    && s.numFlushing == |FlushingInodes(s.inodes)|
    && forall i <- s.inodes :: InodeOk(s.inodes[i], traces[i], ranks)
  }

  lemma CountFlushing(inodes: map<nat, Inode>, i: nat, o: Inode)
    requires i in inodes
    ensures |FlushingInodes(inodes[i := o])|
      == |FlushingInodes(inodes)| + One(o.unsaved.flushing != {}) - One(inodes[i].unsaved.flushing != {})
  {
    var before, after := FlushingInodes(inodes), FlushingInodes(inodes[i := o]);
    assert after == if o.unsaved.flushing != {} then before + {i} else before - {i};
  }

  lemma UpdateInode(s: State, traces: map<nat, Trace>, ranks: nat, i: nat, o: Inode, t: Trace, n: int)
    requires StateOk(s, traces, ranks) && i in s.inodes && InodeOk(o, t, ranks)
    requires n == s.numFlushing + One(o.unsaved.flushing != {}) - One(s.inodes[i].unsaved.flushing != {})
    ensures StateOk(State(s.inodes[i := o], n), traces[i := t], ranks)
    ensures SameBut(s.inodes, s.inodes[i := o], i) && SameBut(traces, traces[i := t], i)
  {
    CountFlushing(s.inodes, i, o);
  }

  // send_cap, apart from the message.
  function Sent(o: Inode, m: nat, used: Bits, want: Bits, retain: Bits, flush: Bits, inject: bool): Inode
    requires m in o.caps
  {
    var room := o.room.(reported := o.room.size);
    o.(caps := o.caps[m := Reduced(o.caps[m], used, retain, inject).(wanted := want)],
       room := if o.auth == Some(m) then room.(requestedMax := room.wantedMax) else room,
       unsaved := Stamp(o.unsaved, flush))
  }

  function Retained(o: Inode, unmounting: bool): Bits {
    o.wanted + o.used + {Pin} + if unmounting then {} else if o.wanted != {} then ANY else ANY_SHARED
  }

  // The tests of check_caps: must this server hear from us?
  predicate MustAck(o: Inode, m: nat, retain: Bits, unmounting: bool, hold: bool)
    requires m in o.caps
  {
    var cap := o.caps[m];
    var used := o.UsedBy(m);
    var room := o.room;
    || (room.wantedMax > room.max && room.wantedMax > room.requestedMax && o.auth == Some(m))
    || (FileWr in cap.issued && 2 * room.size >= room.max && 2 * room.reported < room.max && o.auth == Some(m))
    || (cap.Revoking() != {} && cap.Revoking() * used == {})
    || o.wanted - (cap.wanted + cap.issued) != {}
    || (cap.Revoking() == {} && unmounting && used == {})
    || (!(o.wanted == cap.wanted && cap.issued - retain == {} && o.unsaved.dirty == {}) && !hold)
  }

  // Nothing but capabilities, sizes and flushes changes.
  predicate SameUse(o: Inode, o': Inode) {
    o'.caps.Keys == o.caps.Keys && o'.auth == o.auth && o'.used == o.used && o'.wanted == o.wanted
  }

  /** No bit in use is given up on any server, except that a revoked one may be when the auth
      server's cap has it. */
  predicate KeepsUsed(o: Inode, o': Inode, inject: bool) {
    forall m <- o.caps :: m in o'.caps
      && KeepsCap(o.caps[m], o'.caps[m], o.used, o'.AuthIssued(), Exempt(inject, o.caps[m]))
  }

  predicate SameNumbers(c: Cap, c': Cap) {
    c'.id == c.id && c'.seqNo == c.seqNo && c'.issueSeq == c.issueSeq && c'.mseq == c.mseq
  }

  // No server's cap implements more than before.
  predicate AddsNone(o: Inode, o': Inode) {
    forall m <- o.caps :: m in o'.caps
      && o'.caps[m].implemented <= o.caps[m].implemented && SameNumbers(o.caps[m], o'.caps[m])
  }

  // Revocations of bits not in use are complete on the servers below n.
  predicate Completes(o: Inode, o': Inode, n: nat) {
    forall m <- o.caps :: m in o'.caps && m < n && o.caps[m].Revoking() * o.UsedBy(m) == {} ==>
      o'.caps[m].Revoking() == {}
  }

  predicate Later(o: Inode, o': Inode, n: nat) {
    forall m <- o.caps :: m in o'.caps && m >= n ==> o'.caps[m] == o.caps[m]
  }

  // One server's cap is sent; o0 is the inode as it was when the round began.
  lemma SentKeeps(o0: Inode, o: Inode, m: nat, want: Bits, retain: Bits, flush: Bits, inject: bool)
    requires o0.CapsOk() && o.CapsOk() && m in o.caps && SameUse(o0, o) && o.used <= retain
    requires KeepsUsed(o0, o, inject) && AddsNone(o0, o) && Later(o0, o, m)
    ensures var o' := Sent(o, m, o.UsedBy(m), want, retain, flush, inject);
      o'.CapsOk() && SameUse(o0, o') && KeepsUsed(o0, o', inject) && AddsNone(o0, o') && Later(o0, o', m + 1)
  {
    var o' := Sent(o, m, o.UsedBy(m), want, retain, flush, inject);
    ReducedKeeps(o.caps[m], o.used, o.UsedBy(m), retain, inject, o.AuthIssued());
    forall k <- o0.caps
      ensures k in o'.caps && KeepsCap(o0.caps[k], o'.caps[k], o0.used, o'.AuthIssued(), Exempt(inject, o0.caps[k]))
    {
      if k != m {
        CoverMore(o0.caps[k], o.caps[k], o.used, o.AuthIssued(), o'.AuthIssued(), Exempt(inject, o0.caps[k]));
      }
    }
  }

  lemma SentCompletes(o0: Inode, o: Inode, m: nat, want: Bits, retain: Bits, flush: Bits)
    requires o0.CapsOk() && o.CapsOk() && m in o.caps && SameUse(o0, o) && o.used <= retain
    requires Later(o0, o, m) && Completes(o0, o, m) && o.UsedBy(m) == o0.UsedBy(m)
    ensures Completes(o0, Sent(o, m, o.UsedBy(m), want, retain, flush, false), m + 1)
  {
    if o.caps[m].Revoking() * o.UsedBy(m) == {} {
      ReducedCompletes(o.caps[m], o.UsedBy(m), retain);
    }
  }

  // What the servers answer for does not change during a round.
  predicate SameCover(o: Inode, o': Inode) { forall b <- o.used :: b in o.AuthIssued() <==> b in o'.AuthIssued() }

  lemma SentCovers(o0: Inode, o: Inode, m: nat, want: Bits, retain: Bits, flush: Bits)
    requires o.CapsOk() && m in o.caps && SameUse(o0, o) && o.used <= retain && SameCover(o0, o)
    ensures SameCover(o0, Sent(o, m, o.UsedBy(m), want, retain, flush, false))
  {
    ReducedKeeps(o.caps[m], o.used, o.UsedBy(m), retain, false, o.AuthIssued());
  }

  lemma CoverIsUsed(o0: Inode, o: Inode, m: nat)
    requires SameUse(o0, o) && SameCover(o0, o)
    ensures o.UsedBy(m) == o0.UsedBy(m)
  {
  }

  ghost predicate SameBut<T>(m: map<nat, T>, m': map<nat, T>, i: nat) {
    m'.Keys == m.Keys && forall k <- m :: k != i ==> m'[k] == m[k]
  }

  class Client {
    const ranks: nat
    const inject: bool // client_inject_release_failure
    var unmounting: bool
    var s: State
    var traces: map<nat, Trace> // what was sent, so that a run knows which answers can arrive

    ghost predicate Valid() reads this { StateOk(s, traces, ranks) }

    constructor (ranks: nat, inject: bool)
      ensures Valid() && this.ranks == ranks && this.inject == inject && s.inodes == map[]
    {
      this.ranks, this.inject, unmounting := ranks, inject, false;
      s, traces := State(map[], 0), map[];
    }

    // Nothing but this inode changes.
    twostate predicate Only(i: nat) reads this {
      i in s.inodes && i in traces && SameBut(old(s.inodes), s.inodes, i) && SameBut(old(traces), traces, i) &&
        unmounting == old(unmounting)
    }

    // And nothing is acknowledged, dirtied or forgotten.
    twostate predicate OnlySends(i: nat) reads this {
      Only(i) && i in old(traces) && Extends(old(traces[i]), traces[i])
    }

    // Write one inode back.
    method Store(i: nat, o: Inode, t: Trace, n: int)
      requires Valid() && i in s.inodes && InodeOk(o, t, ranks)
      requires n == s.numFlushing + One(o.unsaved.flushing != {}) - One(s.inodes[i].unsaved.flushing != {})
      modifies this`s, this`traces
      ensures Valid() && Only(i) && s.inodes[i] == o && traces[i] == t
    {
      UpdateInode(s, traces, ranks, i, o, t, n);
      s := State(s.inodes[i := o], n);
      traces := traces[i := t];
    }

    method MarkCapsDirty(i: nat, bits: Bits)
      requires Valid() && i in s.inodes
      modifies this`s, this`traces
      ensures Valid() && Only(i) && s.inodes[i] == Dirtied(old(s.inodes[i]), bits)
      ensures traces[i] == TraceDirty(old(s.inodes[i]).unsaved, old(traces[i]), bits)
    {
      var o := s.inodes[i];
      var u := o.unsaved;
      if bits != {} && u.dirty + u.flushing == {} {
        u := u.(refs := u.refs + 1);
      }
      u := u.(dirty := u.dirty + bits);
      var t := TraceDirty(o.unsaved, traces[i], bits);
      DirtyIsGood(o.unsaved, traces[i], bits);
      Store(i, o.(unsaved := u), t, s.numFlushing);
    }

    /** check_caps: early says that the inode's hold time has not come yet. */
    method CheckCaps(i: nat, delayed: bool, early: bool)
      requires Valid() && i in s.inodes
      modifies this`s, this`traces
      ensures Valid() && OnlySends(i)
      ensures Checked(old(s.inodes[i]), s.inodes[i], Setting(ranks, inject, unmounting), delayed || !early)
    {
      var o, n, t := CheckInode(s.inodes[i], traces[i], s.numFlushing, Setting(ranks, inject, unmounting),
                               !delayed && early);
      Store(i, o, t, n);
    }

    /** flush_caps on one inode: send to the auth server again all that is flushing. */
    method Reflush(i: nat)
      requires Valid() && i in s.inodes && s.inodes[i].auth.Some?
      modifies this`s, this`traces
      ensures Valid() && OnlySends(i) && SameUse(old(s.inodes[i]), s.inodes[i])
      ensures KeepsUsed(old(s.inodes[i]), s.inodes[i], inject) && s.inodes[i] == Resent(old(s.inodes[i]), inject)
      ensures traces[i] == TraceSend(old(s.inodes[i]).unsaved, old(traces[i]), s.inodes[i].unsaved.flushing)
    {
      var o := s.inodes[i];
      var m := o.auth.value;
      var cap := o.caps[m];
      var o' := Sent(o, m, o.used, o.wanted, cap.issued + cap.implemented, o.unsaved.flushing, inject);
      ResentKeeps(o, m, inject);
      FlushIsGood(o.unsaved, traces[i], o.unsaved, o.unsaved.flushing);
      Store(i, o', TraceSend(o.unsaved, traces[i], o.unsaved.flushing), s.numFlushing);
    }

    /** handle_cap_flush_ack: counts and references are right however late it comes. */
    method HandleFlushAck(i: nat, tid: nat, bits: Bits)
      requires Valid() && i in s.inodes
      modifies this`s, this`traces
      ensures Only(i) && s.numFlushing == |FlushingInodes(s.inodes)| && s.inodes[i].unsaved.RefsOk()
      ensures s.inodes[i] == old(s.inodes[i]).(unsaved := FlushAck(old(s.inodes[i]).unsaved, tid, bits))
      ensures traces[i] == old(traces[i]).Acked(tid, bits)
      ensures AckOfFlush(old(traces[i]), tid, bits) && NoWrap(old(traces[i]), tid, bits) ==>
        Valid() && s.inodes[i].unsaved.flushing == old(s.inodes[i]).unsaved.flushing - Answered(old(traces[i]), tid,
                                                                                                bits)
    {
      var o, n := s.inodes[i], s.numFlushing;
      var u, t := o.unsaved, traces[i].Acked(tid, bits);
      var cleaned := Cleaned(u, tid, bits);
      if cleaned != {} && u.flushing != {} {
        u := u.(flushing := u.flushing - cleaned);
        if u.flushing == {} { n := n - 1; }
        if u.dirty + u.flushing == {} { u := u.(refs := u.refs - 1); }
      }
      AckStep(s, traces, ranks, i, tid, bits, n);
      s := State(s.inodes[i := o.(unsaved := u)], n);
      traces := traces[i := t];
    }

    // A flush number goes to a snapshot's flush.
    method SkipTid(i: nat)
      requires Valid() && i in s.inodes
      modifies this`s, this`traces
      ensures Valid() && OnlySends(i) && s.inodes[i] == Skipped(old(s.inodes[i]))
    {
      var o := s.inodes[i];
      SkipIsGood(o.unsaved, traces[i]);
      Store(i, o.(unsaved := o.unsaved.(lastTid := o.unsaved.lastTid + 1)), traces[i], s.numFlushing);
    }

    /** remove_session_caps: every cap of this server goes, and with an auth cap the dirty state
        of its inode. */
    method RemoveSessionCaps(m: nat)
      requires Valid()
      modifies this`s, this`traces
      ensures Valid() && ClosedSoFar(old(s.inodes), old(traces), s.inodes, traces, {}, m)
    {
      var todo := set i <- s.inodes | m in s.inodes[i].caps;
      ClosingStarts(s.inodes, m, traces, ranks);
      while todo != {}
        invariant Valid() && ClosedSoFar(old(s.inodes), old(traces), s.inodes, traces, todo, m)
      {
        var i :| i in todo;
        ghost var inodes, before := s.inodes, traces;
        CloseCap(i, m);
        ClosingMore(old(s.inodes), old(traces), inodes, before, s.inodes, traces, todo, i, m);
        todo := todo - {i};
      }
    }

    // One turn of the loop of remove_session_caps.
    method CloseCap(i: nat, m: nat)
      requires Valid() && i in s.inodes
      modifies this`s, this`traces
      ensures Valid() && Only(i) && s.inodes[i] == Closed(old(s.inodes[i]), m)
      ensures traces[i] == ClosedTrace(old(s.inodes[i]), old(traces[i]), m)
    {
      var o, n := s.inodes[i], s.numFlushing;
      var o', t' := Without(o, m), traces[i];
      if o.auth == Some(m) {
        var unsaved := o.unsaved;
        if unsaved.dirty + unsaved.flushing != {} {
          if unsaved.flushing != {} { n := n - 1; }
          unsaved := unsaved.(flushing := {}, dirty := {}, refs := unsaved.refs - 1);
        }
        o' := o'.(unsaved := unsaved, room := o.room.(wantedMax := 0, requestedMax := 0));
        ForgetIsGood(o.unsaved, traces[i]);
        t' := traces[i].(dirtied := map[]);
      }
      Store(i, o', t', n);
    }

    /** add_update_cap. */
    method AddUpdateCap(i: nat, m: nat, offer: Offer)
      requires Valid() && i in s.inodes && m < ranks && OfferOk(s.inodes[i], m, offer)
      modifies this`s, this`traces
      ensures Valid() && OnlySends(i) && Updated(old(s.inodes[i]), s.inodes[i], m, offer, inject)
      ensures UpdateDone(old(s.inodes[i]), s.inodes[i], m, offer, Setting(ranks, inject, unmounting))
    {
      var o, n, t := UpdateCap(s.inodes[i], traces[i], s.numFlushing, m, offer, Setting(ranks, inject, unmounting));
      Store(i, o, t, n);
    }

    /** handle_cap_export: what this server issued goes to its peer, unless the peer's cap is
        already up to date. */
    method HandleExport(i: nat, m: nat, id: nat, peer: Option<Peer>)
      requires Valid() && i in s.inodes && (peer.Some? ==> peer.value.mds < ranks)
      modifies this`s, this`traces
      ensures Valid() && OnlySends(i) && Exported(old(s.inodes[i]), s.inodes[i], m, id, peer, inject)
    {
      var o, n, t := Export(s.inodes[i], traces[i], s.numFlushing, m, id, peer, Setting(ranks, inject, unmounting));
      Store(i, o, t, n);
    }

    /** handle_cap_import, up to its fall through to handle_cap_grant. */
    method HandleImport(i: nat, m: nat, offer: Offer, peer: Option<Peer>)
      requires Valid() && i in s.inodes && m < ranks && OfferOk(s.inodes[i], m, offer.(auth := true))
      modifies this`s, this`traces
      ensures Valid() && OnlySends(i)
      ensures Imported(old(s.inodes[i]), s.inodes[i], m, offer.(auth := true), peer, inject)
    {
      var o, n, t := Import(s.inodes[i], traces[i], s.numFlushing, m, offer.(auth := true), peer,
                            Setting(ranks, inject, unmounting));
      Store(i, o, t, n);
    }

    /** handle_cap_grant, for GRANT, REVOKE and IMPORT; flushed says that no buffered data has
        to be waited for. */
    method HandleGrant(i: nat, m: nat, g: Grant, flushed: bool, early: bool)
      requires Valid() && i in s.inodes && m in s.inodes[i].caps
      modifies this`s, this`traces
      ensures Valid() && OnlySends(i)
      ensures HoldsUsed(old(s.inodes[i]), Given(old(s.inodes[i]), m, g, flushed), s.inodes[i], inject)
      ensures GrantDone(old(s.inodes[i]), s.inodes[i], m, g, flushed, early, Setting(ranks, inject, unmounting))
    {
      var o, n, t := GrantInode(s.inodes[i], traces[i], s.numFlushing, m, g, flushed, early,
                                Setting(ranks, inject, unmounting));
      Store(i, o, t, n);
    }

    /** encode_inode_release: a request gives back capabilities, but none that is used or
        dirty. */
    method EncodeRelease(i: nat, m: nat, drop: Bits, unless: Bits) returns (released: bool)
      requires Valid() && i in s.inodes
      modifies this`s, this`traces
      ensures Valid() && OnlySends(i) && SameUse(old(s.inodes[i]), s.inodes[i])
      ensures released == Gives(old(s.inodes[i]), m, drop, unless)
      ensures s.inodes[i] == if released then Dropped(old(s.inodes[i]), m, drop) else old(s.inodes[i])
      ensures KeepsUsed(old(s.inodes[i]), s.inodes[i], false)
      ensures forall b <- s.inodes[i].unsaved.dirty :: m in s.inodes[i].caps && b in old(s.inodes[i]).caps[m].issued ==>
        b in s.inodes[i].caps[m].issued
      ensures released ==>
        m in s.inodes[i].caps && drop * s.inodes[i].caps[m].implemented <= s.inodes[i].used + s.inodes[i].unsaved.dirty
    {
      var o := s.inodes[i];
      released := false;
      if m in o.caps {
        var c := o.caps[m];
        var dropping := drop - (o.unsaved.dirty + o.used);
        if dropping * c.issued != {} && unless * c.issued == {} {
          c := c.(issued := c.issued - dropping, implemented := c.implemented - dropping);
          released := true;
          Store(i, o.(caps := o.caps[m := c]), traces[i], s.numFlushing);
        }
      }
    }

    /** The part of trim_caps that removes a cap: no used bit is given up that the auth server
        has not issued. */
    method TrimCap(i: nat, m: nat) returns (trimmed: bool)
      requires Valid() && i in s.inodes && m in s.inodes[i].caps
      modifies this`s, this`traces
      ensures Valid() && OnlySends(i) && trimmed == Disposable(old(s.inodes[i]), m)
      ensures s.inodes[i] == if trimmed then Without(old(s.inodes[i]), m) else old(s.inodes[i])
      ensures trimmed ==> forall b <- s.inodes[i].used ::
        b in old(s.inodes[i]).caps[m].issued + old(s.inodes[i]).caps[m].implemented ==> b in s.inodes[i].AuthIssued()
    {
      var o := s.inodes[i];
      var cap := o.caps[m];
      trimmed := |o.caps| > 1 && o.auth != Some(m) && (o.used - o.AuthIssued()) * (cap.issued + cap.implemented) == {};
      if trimmed {
        assert forall b <- o.used :: b in cap.issued + cap.implemented && b !in o.AuthIssued() ==>
          b in (o.used - o.AuthIssued()) * (cap.issued + cap.implemented);
        Store(i, Without(o, m), traces[i], s.numFlushing);
      }
    }
  }

  // ---- one inode

  // mark_caps_dirty
  function Dirtied(o: Inode, bits: Bits): Inode { o.(unsaved := MarkDirty(o.unsaved, bits)) }

  function Skipped(o: Inode): Inode { o.(unsaved := o.unsaved.(lastTid := o.unsaved.lastTid + 1)) }

  // flush_caps on one inode
  function Resent(o: Inode, inject: bool): Inode
    requires o.auth.Some? && o.auth.value in o.caps
  {
    var c := o.caps[o.auth.value];
    Sent(o, o.auth.value, o.used, o.wanted, c.issued + c.implemented, o.unsaved.flushing, inject)
  }

  // Does encode_inode_release give anything back?
  predicate Gives(o: Inode, m: nat, drop: Bits, unless: Bits) {
    m in o.caps && (drop - (o.unsaved.dirty + o.used)) * o.caps[m].issued != {} && unless * o.caps[m].issued == {}
  }

  function Dropped(o: Inode, m: nat, drop: Bits): Inode
    requires m in o.caps
  {
    var c, dropping := o.caps[m], drop - (o.unsaved.dirty + o.used);
    o.(caps := o.caps[m := c.(issued := c.issued - dropping, implemented := c.implemented - dropping)])
  }

  // A cap that trim_caps removes: not the auth cap, and holding nothing used that that one has not.
  predicate Disposable(o: Inode, m: nat) {
    && m in o.caps && |o.caps| > 1 && o.auth != Some(m)
    && (o.used - o.AuthIssued()) * (o.caps[m].issued + o.caps[m].implemented) == {}
  }

  datatype Setting = Setting(ranks: nat, inject: bool, unmounting: bool)

  // n' counts what n did, this inode included.
  predicate Counts(o: Inode, n: int, o': Inode, n': int) {
    n' == n + One(o'.unsaved.flushing != {}) - One(o.unsaved.flushing != {})
  }

  method CheckIf(check: bool, o: Inode, t: Trace, n: int, cfg: Setting, hold: bool)
    returns (o': Inode, n': int, t': Trace)
    requires InodeOk(o, t, cfg.ranks)
    ensures InodeOk(o', t', cfg.ranks) && Extends(t, t') && Counts(o, n, o', n')
    ensures if check then Checked(o, o', cfg, !hold) else o' == o
  {
    o', n', t' := o, n, t;
    if check { o', n', t' := CheckInode(o, t, n, cfg, hold); }
  }

  method Update(o: Inode, t: Trace, n: int, m: nat, offer: Offer, cfg: Setting) returns (o': Inode, n': int, t': Trace)
    requires InodeOk(o, t, cfg.ranks) && m < cfg.ranks && OfferOk(o, m, offer)
    ensures InodeOk(o', t', cfg.ranks) && Extends(t, t') && Counts(o, n, o', n') && Updated(o, o', m, offer, cfg.inject)
  {
    o', n', t' := UpdateCap(o, t, n, m, offer, cfg);
  }

  method UpdateCap(o: Inode, t: Trace, n: int, m: nat, offer: Offer, cfg: Setting)
    returns (o': Inode, n': int, t': Trace)
    requires InodeOk(o, t, cfg.ranks) && m < cfg.ranks && OfferOk(o, m, offer)
    ensures InodeOk(o', t', cfg.ranks) && Extends(t, t') && Counts(o, n, o', n') && Updated(o, o', m, offer, cfg.inject)
    ensures UpdateDone(o, o', m, offer, cfg)
  {
    var o1 := Added(o, m, offer);
    var more := Effective(o, m, offer).issued;
    AddedKeeps(o, m, offer);
    var check := more - OldCap(o, m).issued != {} && o1.auth == Some(m) && OthersRevoke(o1, m, more);
    o', n', t' := CheckIf(check, o1, t, n, cfg, false);
    UpdateIsDone(o, o1, o', m, offer, cfg, check);
  }

  lemma UpdateIsDone(o: Inode, o1: Inode, o': Inode, m: nat, offer: Offer, cfg: Setting, check: bool)
    requires o.CapsOk() && OfferOk(o, m, offer) && o1 == Added(o, m, offer)
    requires check == (Effective(o, m, offer).issued - OldCap(o, m).issued != {} && o1.auth == Some(m) &&
                       OthersRevoke(o1, m, Effective(o, m, offer).issued))
    requires if check then Checked(o1, o', cfg, true) else o' == o1
    ensures Updated(o, o', m, offer, cfg.inject) && UpdateDone(o, o', m, offer, cfg)
  {
    UpdatedIs(o, o1, o', m, offer, cfg.inject);
    assert Effective(o, m, offer).issued == offer.issued + if Stale(o, m, offer) then o.caps[m].issued else {};
  }

  // A round is made exactly if the auth server offers bits that are new and another server revokes.
  predicate UpdateDone(o: Inode, o': Inode, m: nat, offer: Offer, cfg: Setting) {
    var o1, more := Added(o, m, offer), offer.issued + if Stale(o, m, offer) then o.caps[m].issued else {};
    if more - OldCap(o, m).issued != {} && o1.auth == Some(m) &&
       (exists k <- o1.caps :: k != m && o1.caps[k].Revoking() * more != {})
    then Checked(o1, o', cfg, true) else o' == o1
  }

  // What add_update_cap achieves, the check that it may make included.
  predicate Updated(o: Inode, o': Inode, m: nat, offer: Offer, inject: bool) {
    && SameUse(Added(o, m, offer), o') && KeepsUsed(o, o', inject)
    && Settles(Added(o, m, offer), o', m, inject) && Registers(o, o', m, offer)
    && forall b <- offer.issued :: b in o.used ==> b in o'.caps[m].issued
  }

  // The cap has the numbers of the offer unless that is stale, and is the auth cap if it was or if
  // the offer says so and is newer than the auth cap.
  predicate Registers(o: Inode, o': Inode, m: nat, offer: Offer) {
    && o'.used == o.used && o'.wanted == o.wanted && o'.caps.Keys == o.caps.Keys + {m}
    && o'.auth == (if o.auth != Some(m) && offer.auth &&
                      (o.auth.None? || (o.auth.value in o.caps && SeqCmp(o.caps[o.auth.value].mseq, offer.mseq) < 0))
                   then Some(m) else o.auth)
    && (if Stale(o, m, offer) then o'.caps[m].seqNo == o.caps[m].seqNo && o'.caps[m].mseq == o.caps[m].mseq
        else o'.caps[m].seqNo == offer.seqNo && o'.caps[m].mseq == offer.mseq)
    && o'.caps[m].id == offer.id && o'.caps[m].implemented <= OldCap(o, m).implemented + offer.issued
  }

  lemma AddedRegisters(o: Inode, o1: Inode, o': Inode, m: nat, offer: Offer)
    requires o.CapsOk() && o1 == Added(o, m, offer) && SameUse(o1, o') && OfferOk(o, m, offer)
    requires o' == o1 || AddsNone(o1, o')
    ensures Registers(o, o', m, offer)
  {
  }

  // Either nothing more was done, or a round was made with m as the auth server.
  predicate Settles(o: Inode, o': Inode, m: nat, inject: bool) {
    o' == o || (o.auth == Some(m) && SameUse(o, o') && KeepsUsed(o, o', inject) && AddsNone(o, o'))
  }

  lemma UpdatedIs(o: Inode, o1: Inode, o': Inode, m: nat, offer: Offer, inject: bool)
    requires o.CapsOk() && o1 == Added(o, m, offer) && SameUse(o1, o') && Settles(o1, o', m, inject)
    requires OfferOk(o, m, offer)
    ensures Updated(o, o', m, offer, inject)
  {
    AddedKeeps(o, m, offer);
    GrowThenKeep(o, o1, o', inject);
    AddedRegisters(o, o1, o', m, offer);
    assert offer.issued <= o1.caps[m].issued;
  }

  // ---- who has a bit

  // Some server's cap, apart from these, implements the bit.
  predicate HasBut(o: Inode, gone: set<nat>, b: Bit) { exists k <- o.caps :: k !in gone && b in o.caps[k].implemented }

  lemma SettlesHas(o: Inode, o': Inode, m: nat, gone: set<nat>, b: Bit)
    requires o.CapsOk() && o'.CapsOk() && Settles(o, o', m, false) && m !in gone && b in o.used
    ensures HasBut(o', gone, b) <==> HasBut(o, gone, b)
  {
    if HasBut(o, gone, b) {
      var k :| k in o.caps && k !in gone && b in o.caps[k].implemented;
      assert k in o'.caps && (b in o'.caps[k].implemented || b in o'.AuthIssued());
      if b !in o'.caps[k].implemented { assert b in o'.caps[m].implemented; }
    }
    if HasBut(o', gone, b) {
      var k :| k in o'.caps && k !in gone && b in o'.caps[k].implemented;
      assert b in o.caps[k].implemented;
    }
  }

  lemma AddedHas(o: Inode, m: nat, offer: Offer, gone: set<nat>, b: Bit)
    requires o.CapsOk() && m !in gone
    ensures HasBut(Added(o, m, offer), gone, b) <==> HasBut(o, gone, b) || b in offer.issued
  {
    var o' := Added(o, m, offer);
    assert m in o'.caps && o'.caps[m].implemented == OldCap(o, m).implemented + Effective(o, m, offer).issued;
    assert forall k <- o.caps :: k in o'.caps && o.caps[k].implemented <= o'.caps[k].implemented;
    if HasBut(o', gone, b) {
      var k :| k in o'.caps && k !in gone && b in o'.caps[k].implemented;
      assert (k in o.caps && b in o.caps[k].implemented) || b in offer.issued;
    }
  }

  lemma WithoutHas(o: Inode, k: nat, b: Bit)
    ensures HasBut(Without(o, k), {}, b) <==> HasBut(o, {k}, b)
  {
    if HasBut(o, {k}, b) {
      var j :| j in o.caps && j !in {k} && b in o.caps[j].implemented;
      assert j in Without(o, k).caps;
    }
  }

  // ---- imports

  // The cap of the peer goes if it is the one the message means.
  function Gone(o: Inode, peer: Option<Peer>): set<nat> {
    if peer.Some? && peer.value.mds in o.caps && o.caps[peer.value.mds].id == peer.value.id
    then {peer.value.mds}
    else {}
  }

  /** Exactly the peer's cap is gone. A bit in use is still there iff another server has it or
      the message grants it. */
  predicate Imported(o: Inode, o': Inode, m: nat, offer: Offer, peer: Option<Peer>, inject: bool) {
    var o1 := Added(o, m, offer);
    && o'.used == o.used && o'.caps.Keys == o.caps.Keys + {m} - Gone(o1, peer)
    && o'.auth == (if o1.auth.Some? && o1.auth.value in Gone(o1, peer) then None else o1.auth)
    && (m in o'.caps ==> forall b <- offer.issued :: b in o.used ==> b in o'.caps[m].issued)
    && (!inject && m !in Gone(o1, peer) ==>
          forall b <- o.used :: HasBut(o', {}, b) <==> HasBut(o, Gone(o1, peer), b) || b in offer.issued)
  }

  method Import(o: Inode, t: Trace, n: int, m: nat, offer: Offer, peer: Option<Peer>, cfg: Setting)
    returns (o': Inode, n': int, t': Trace)
    requires InodeOk(o, t, cfg.ranks) && m < cfg.ranks && OfferOk(o, m, offer)
    ensures InodeOk(o', t', cfg.ranks) && Extends(t, t') && Counts(o, n, o', n')
    ensures Imported(o, o', m, offer, peer, cfg.inject)
  {
    var o1, n1, t1 := Update(o, t, n, m, offer, cfg);
    o', n', t' := o1, n1, t1;
    UpdatedIds(o, o1, m, offer, cfg.inject, peer);
    if peer.Some? && peer.value.mds in o1.caps && o1.caps[peer.value.mds].id == peer.value.id {
      o' := Without(o1, peer.value.mds);
    }
    ImportedIs(o, o1, o', m, offer, peer, cfg.inject);
  }

  lemma UpdatedIds(o: Inode, o': Inode, m: nat, offer: Offer, inject: bool, peer: Option<Peer>)
    requires Updated(o, o', m, offer, inject)
    ensures Gone(o', peer) == Gone(Added(o, m, offer), peer)
  {
  }

  lemma ImportedIs(o: Inode, o1: Inode, o': Inode, m: nat, offer: Offer, peer: Option<Peer>, inject: bool)
    requires o.CapsOk() && o1.CapsOk() && Updated(o, o1, m, offer, inject)
    requires o' == if Gone(Added(o, m, offer), peer) == {} then o1 else Without(o1, peer.value.mds)
    ensures Imported(o, o', m, offer, peer, inject)
  {
    var gone := Gone(Added(o, m, offer), peer);
    AddedKeeps(o, m, offer);
    if !inject && m !in gone {
      forall b <- o.used ensures HasBut(o', {}, b) <==> HasBut(o, gone, b) || b in offer.issued {
        SettlesHas(Added(o, m, offer), o1, m, gone, b);
        AddedHas(o, m, offer, gone, b);
        if gone != {} { WithoutHas(o1, peer.value.mds, b); }
      }
    }
  }

  // ---- exports

  // Does the peer take over what this server issued?
  predicate TakesOver(o: Inode, m: nat, peer: Option<Peer>) {
    peer.Some? && peer.value.mds != m && Behind(o, peer.value)
  }

  /** The server's cap is gone. A bit in use that it issued is issued by the peer that takes
      over; one that it was revoking is still there iff another server has it. */
  predicate Exported(o: Inode, o': Inode, m: nat, id: nat, peer: Option<Peer>, inject: bool) {
    if m !in o.caps || o.caps[m].id != id then o' == o
    else
      && m !in o'.caps && (TakesOver(o, m, peer) ==> HandedOver(o, o', m, peer.value.mds))
      && (!inject ==> forall b <- o.used ::
            HasBut(o', {}, b) <==> HasBut(o, {m}, b) || (TakesOver(o, m, peer) && b in o.caps[m].issued))
  }

  method Export(o: Inode, t: Trace, n: int, m: nat, id: nat, peer: Option<Peer>, cfg: Setting)
    returns (o': Inode, n': int, t': Trace)
    requires InodeOk(o, t, cfg.ranks) && (peer.Some? ==> peer.value.mds < cfg.ranks)
    ensures InodeOk(o', t', cfg.ranks) && Extends(t, t') && Counts(o, n, o', n')
    ensures Exported(o, o', m, id, peer, cfg.inject)
  {
    o', n', t' := o, n, t;
    if m !in o.caps || o.caps[m].id != id { return; }
    ghost var o1 := o;
    if peer.Some? {
      var p := peer.value;
      if p.mds in o.caps {
        if Behind(o, p) { o' := PeerUpdated(o, m, p); }
      } else {
        o', n', t' := Update(o, t, n, p.mds, Passed(o, m, p), cfg);
      }
    }
    o1 := o';
    o' := Without(o', m);
    ExportedIs(o, o1, m, id, peer, cfg.inject);
  }

  // What is offered to the peer.
  function Passed(o: Inode, m: nat, p: Peer): Offer
    requires m in o.caps
  {
    Offer(p.id, o.caps[m].issued, Before(p.seqNo), p.mseq, o.auth == Some(m))
  }

  // o1 is the inode once the peer has taken over.
  lemma ExportedIs(o: Inode, o1: Inode, m: nat, id: nat, peer: Option<Peer>, inject: bool)
    requires o.CapsOk() && o1.CapsOk() && m in o.caps && o.caps[m].id == id
    requires if peer.None? || (peer.value.mds in o.caps && !Behind(o, peer.value)) then o1 == o
             else if peer.value.mds in o.caps then o1 == PeerUpdated(o, m, peer.value)
             else Updated(o, o1, peer.value.mds, Passed(o, m, peer.value), inject)
    ensures Exported(o, Without(o1, m), m, id, peer, inject)
  {
    if !inject {
      forall b <- o.used ensures HasBut(Without(o1, m), {}, b)
        <==> HasBut(o, {m}, b) || (TakesOver(o, m, peer) && b in o.caps[m].issued)
      {
        WithoutHas(o1, m, b);
        PassedHas(o, o1, m, peer, b);
      }
    }
  }

  lemma PassedHas(o: Inode, o1: Inode, m: nat, peer: Option<Peer>, b: Bit)
    requires o.CapsOk() && o1.CapsOk() && m in o.caps && b in o.used
    requires if peer.None? || (peer.value.mds in o.caps && !Behind(o, peer.value)) then o1 == o
             else if peer.value.mds in o.caps then o1 == PeerUpdated(o, m, peer.value)
             else Updated(o, o1, peer.value.mds, Passed(o, m, peer.value), false)
    ensures HasBut(o1, {m}, b) <==> HasBut(o, {m}, b) || (TakesOver(o, m, peer) && b in o.caps[m].issued)
  {
    if peer.Some? && peer.value.mds !in o.caps {
      var p := peer.value.mds;
      AddedKeeps(o, p, Passed(o, m, peer.value));
      SettlesHas(Added(o, p, Passed(o, m, peer.value)), o1, p, {m}, b);
      AddedHas(o, p, Passed(o, m, peer.value), {m}, b);
    } else if peer.Some? && Behind(o, peer.value) {
      PeerUpdatedHas(o, m, peer.value, b);
    }
  }

  lemma PeerUpdatedHas(o: Inode, m: nat, p: Peer, b: Bit)
    requires m in o.caps && p.mds in o.caps
    ensures HasBut(PeerUpdated(o, m, p), {m}, b) <==> HasBut(o, {m}, b) || (p.mds != m && b in o.caps[m].issued)
  {
    PutHas(o, PeerUpdated(o, m, p), p.mds, o.caps[m].issued, {m}, b);
  }

  // One server's cap gains some bits.
  lemma PutHas(o: Inode, o': Inode, p: nat, more: Bits, gone: set<nat>, b: Bit)
    requires p in o.caps && p in o'.caps && o'.caps == o.caps[p := o'.caps[p]]
    requires o'.caps[p].implemented == o.caps[p].implemented + more
    ensures HasBut(o', gone, b) <==> HasBut(o, gone, b) || (p !in gone && b in more)
  {
    if HasBut(o, gone, b) {
      var k :| k in o.caps && k !in gone && b in o.caps[k].implemented;
      assert k in o'.caps && b in o'.caps[k].implemented;
    }
  }

  /** An export can give up a bit in use: one that the exporting server alone was revoking. */
  lemma ExportGivesUp() returns (o: Inode, b: Bit)
    ensures o.CapsOk() && 0 in o.caps && b in o.used && HasBut(o, {}, b)
    ensures forall peer, o' :: Exported(o, o', 0, o.caps[0].id, peer, false) ==> !HasBut(o', {}, b)
  {
    b := FileWr;
    o := Inode(map[0 := Cap(1, {}, {b}, {}, 0, 0, 0)], Some(0), {b}, {}, Room(0, 0, 0, 0, 0),
               Unsaved({}, {}, 0, map[], 0));
    assert 0 in o.caps && 0 !in {} && b in o.caps[0].implemented;
    assert !HasBut(o, {0}, b);
  }

  method GrantInode(o: Inode, t: Trace, n: int, m: nat, g: Grant, flushed: bool, early: bool, cfg: Setting)
    returns (o': Inode, n': int, t': Trace)
    requires InodeOk(o, t, cfg.ranks) && m in o.caps
    ensures InodeOk(o', t', cfg.ranks) && Extends(t, t') && Counts(o, n, o', n')
    ensures HoldsUsed(o, Given(o, m, g, flushed), o', cfg.inject) && GrantDone(o, o', m, g, flushed, early, cfg)
  {
    GivenHolds(o, m, g, flushed);
    var o1 := Given(o, m, g, flushed);
    o', n', t' := CheckIf(GrantChecks(o, m, g, flushed), o1, t, n, cfg, early);
    HoldThenKeep(o, o1, o', cfg.inject);
    GivenObeys(o, o', m, g, flushed, early, cfg);
  }

  predicate GrantDone(o: Inode, o': Inode, m: nat, g: Grant, flushed: bool, early: bool, cfg: Setting)
    requires m in o.caps
  {
    var c, revoked := o.caps[m], o.caps[m].issued - g.bits;
    // a check follows an import that does not know what is wanted, a revocation that can be
    // answered at once, and a grant by the auth server of what another one revokes
    && (if || (g.isImport && g.wanted != o.wanted)
           || (revoked != {} && FileCache !in revoked && (flushed || FileBuffer !in o.used || FileBuffer in g.bits))
           || (c.issued < g.bits && o.auth == Some(m) &&
               exists k <- o.caps :: k != m && o.caps[k].Revoking() * g.bits != {})
        then Checked(Given(o, m, g, flushed), o', cfg, !early) else o' == Given(o, m, g, flushed))
    && m in o'.caps && Obeys(o, o', m, g, cfg) && (ReadyToAnswer(o, m, g, flushed, cfg) ==> o'.caps[m].Revoking() == {})
  }

  // Nothing is held beyond what is granted, what is worth keeping is held, and the auth server
  // sets the maximal size.
  predicate Obeys(o: Inode, o': Inode, m: nat, g: Grant, cfg: Setting)
    requires m in o.caps && m in o'.caps
  {
    && o'.caps[m].seqNo == g.seqNo && o'.caps[m].implemented <= o.caps[m].implemented + g.bits
    && (!cfg.inject ==> o'.caps[m].issued <= g.bits)
    && (forall b <- g.bits :: Worth(o, b, cfg.unmounting) ==> b in o'.caps[m].issued)
    && (o.auth == Some(m) ==> o'.room.max == g.maxSize) && (o.auth != Some(m) ==> o'.room.max == o.room.max)
  }

  // A revocation of bits that are not in use and hold no cached or unflushed data.
  predicate ReadyToAnswer(o: Inode, m: nat, g: Grant, flushed: bool, cfg: Setting)
    requires m in o.caps
  {
    && !cfg.inject && m < cfg.ranks && o.caps[m].issued - g.bits != {}
    && (FileCache in o.caps[m].issued ==> FileCache in g.bits)
    && (FileBuffer in o.used ==> FileBuffer in g.bits || flushed)
    && (o.caps[m].implemented - g.bits) * o.UsedBy(m) == {}
  }

  lemma GivenObeys(o: Inode, o': Inode, m: nat, g: Grant, flushed: bool, early: bool, cfg: Setting)
    requires m in o.caps && m in o'.caps
    requires if GrantChecks(o, m, g, flushed) then Checked(Given(o, m, g, flushed), o', cfg, !early)
             else o' == Given(o, m, g, flushed)
    ensures Obeys(o, o', m, g, cfg) && (ReadyToAnswer(o, m, g, flushed, cfg) ==> o'.caps[m].Revoking() == {})
  {
    var o1 := Given(o, m, g, flushed);
    assert o1.UsedBy(m) == o.UsedBy(m) && o1.caps[m].Revoking() == o.caps[m].implemented - g.bits;
    assert ReadyToAnswer(o, m, g, flushed, cfg) ==> AnswersNow(o, m, g, flushed);
  }

  // ---- messages

  // Sequence numbers are 32 bits wide and compare by their signed difference.
  function SeqCmp(a: nat, b: nat): int {
    var d := (a - b) % 0x1_0000_0000;
    if d >= 0x8000_0000 then d - 0x1_0000_0000 else d
  }

  /** Numbers less than half the range apart compare as they were counted, across the wrap. */
  lemma SeqCmpCounts(a: nat, b: nat)
    requires -0x8000_0000 <= a - b < 0x8000_0000
    ensures SeqCmp(a % 0x1_0000_0000, b % 0x1_0000_0000) == a - b
  {
    var d := (a % 0x1_0000_0000 - b % 0x1_0000_0000) % 0x1_0000_0000;
    var k := a / 0x1_0000_0000 - b / 0x1_0000_0000;
    assert a - b == k * 0x1_0000_0000 + (a % 0x1_0000_0000 - b % 0x1_0000_0000);
    assert d == if a >= b then a - b else a - b + 0x1_0000_0000;
  }

  function Before(seqNo: nat): nat { (seqNo + 0xFFFF_FFFF) % 0x1_0000_0000 }

  // The arguments of add_update_cap.
  datatype Offer = Offer(id: nat, issued: Bits, seqNo: nat, mseq: nat, auth: bool)

  datatype Peer = Peer(mds: nat, id: nat, seqNo: nat, mseq: nat)

  datatype Grant = Grant(bits: Bits, seqNo: nat, maxSize: nat, isImport: bool, wanted: Bits)

  function OldCap(o: Inode, m: nat): Cap { if m in o.caps then o.caps[m] else Cap(0, {}, {}, {}, 0, 0, 0) }

  predicate Stale(o: Inode, m: nat, offer: Offer) { m in o.caps && SeqCmp(offer.seqNo, o.caps[m].seqNo) <= 0 }

  // What add_update_cap asserts.
  predicate OfferOk(o: Inode, m: nat, offer: Offer) {
    Stale(o, m, offer) ==> o.auth == Some(m) && o.caps[m].id == offer.id
  }

  // A message older than the cap must not take anything away.
  function Effective(o: Inode, m: nat, offer: Offer): Offer {
    if Stale(o, m, offer)
    then Offer(offer.id, offer.issued + o.caps[m].issued, o.caps[m].seqNo, o.caps[m].mseq, true)
    else offer
  }

  function Added(o: Inode, m: nat, offer: Offer): Inode {
    var e, c := Effective(o, m, offer), OldCap(o, m);
    var newer := o.auth.None? || (o.auth.value in o.caps && SeqCmp(o.caps[o.auth.value].mseq, e.mseq) < 0);
    o.(caps := o.caps[m := Cap(e.id, c.issued + e.issued, c.implemented + e.issued, c.wanted, e.seqNo, e.seqNo,
                               e.mseq)],
       auth := if e.auth && o.auth != Some(m) && newer then Some(m) else o.auth)
  }

  // Is another server revoking some of these bits?
  predicate OthersRevoke(o: Inode, m: nat, bits: Bits) {
    exists k <- o.caps :: k != m && o.caps[k].Revoking() * bits != {}
  }

  predicate Grows(o: Inode, o': Inode) {
    && o'.used == o.used
    && (forall m <- o.caps :: m in o'.caps && o.caps[m].issued <= o'.caps[m].issued)
    && (forall m <- o.caps :: m in o'.caps && o.caps[m].implemented <= o'.caps[m].implemented)
  }

  lemma AddedKeeps(o: Inode, m: nat, offer: Offer)
    requires o.CapsOk()
    ensures Added(o, m, offer).CapsOk() && Grows(o, Added(o, m, offer))
  {
  }

  lemma GrowThenKeep(o: Inode, o1: Inode, o2: Inode, inject: bool)
    requires Grows(o, o1) && (o2 == o1 || KeepsUsed(o1, o2, inject))
    ensures KeepsUsed(o, o2, inject)
  {
  }

  // The peer's cap has not caught up with the export.
  predicate Behind(o: Inode, p: Peer) {
    p.mds !in o.caps || o.caps[p.mds].id != p.id || SeqCmp(o.caps[p.mds].seqNo, p.seqNo) < 0
  }

  function PeerUpdated(o: Inode, m: nat, p: Peer): Inode
    requires m in o.caps && p.mds in o.caps
  {
    var c, t := o.caps[m], o.caps[p.mds];
    o.(caps := o.caps[p.mds := Cap(p.id, t.issued + c.issued, t.implemented + c.issued, t.wanted, Before(p.seqNo),
                                   Before(p.seqNo), p.mseq)],
       auth := if o.auth == Some(m) then Some(p.mds) else o.auth)
  }

  // Every bit in use that one server had issued is now issued by the other.
  predicate HandedOver(o: Inode, o': Inode, m: nat, to: nat) {
    forall b <- o.used :: m in o.caps && b in o.caps[m].issued ==> to in o'.caps && b in o'.caps[to].issued
  }

  // handle_cap_grant without its final check.
  function Given(o: Inode, m: nat, g: Grant, flushed: bool): Inode
    requires m in o.caps
  {
    var c := o.caps[m];
    var room := if o.auth == Some(m) && g.maxSize != o.room.max then
                  if g.maxSize > o.room.wantedMax then o.room.(max := g.maxSize, wantedMax := 0, requestedMax := 0)
                  else o.room.(max := g.maxSize)
                else o.room;
    o.(caps := o.caps[m := Cap(c.id, g.bits, c.implemented + g.bits,
                               if AnswersNow(o, m, g, flushed) then {} else c.wanted, g.seqNo, c.issueSeq, c.mseq)],
       room := room)
  }

  // A revocation that does not have to wait for cached or buffered data.
  predicate AnswersNow(o: Inode, m: nat, g: Grant, flushed: bool)
    requires m in o.caps
  {
    var revoked := o.caps[m].issued - g.bits;
    revoked != {} && !(FileBuffer in o.used - g.bits && !flushed) && FileCache !in revoked
  }

  predicate GrantChecks(o: Inode, m: nat, g: Grant, flushed: bool)
    requires m in o.caps
  {
    var c := o.caps[m];
    || (g.isImport && g.wanted != o.wanted)
    || AnswersNow(o, m, g, flushed)
    || (c.issued < g.bits && o.auth == Some(m) && OthersRevoke(o, m, g.bits))
  }

  /** No bit in use that some server's cap implements is given up there, unless the auth
      server's cap has it. */
  predicate HoldsUsed(o: Inode, o1: Inode, o': Inode, inject: bool) {
    forall m <- o.caps, b <- o.used :: b in o.caps[m].implemented ==>
      && m in o1.caps && m in o'.caps
      && (b in o'.caps[m].implemented || b in o'.AuthIssued() || b in Exempt(inject, o1.caps[m]))
  }

  predicate Implements(o: Inode, o': Inode) {
    o'.used == o.used && forall m <- o.caps :: m in o'.caps && o.caps[m].implemented <= o'.caps[m].implemented
  }

  lemma GivenHolds(o: Inode, m: nat, g: Grant, flushed: bool)
    requires o.CapsOk() && m in o.caps
    ensures Given(o, m, g, flushed).CapsOk() && Implements(o, Given(o, m, g, flushed))
  {
  }

  lemma HoldThenKeep(o: Inode, o1: Inode, o2: Inode, inject: bool)
    requires Implements(o, o1) && (o2 == o1 || KeepsUsed(o1, o2, inject))
    ensures HoldsUsed(o, o1, o2, inject)
  {
    forall m <- o.caps, b <- o.used | b in o.caps[m].implemented
      ensures m in o1.caps && m in o2.caps
      ensures b in o2.caps[m].implemented || b in o2.AuthIssued() || b in Exempt(inject, o1.caps[m])
    {
      assert m in o1.caps && b in o1.caps[m].implemented;
    }
  }

  lemma AckStep(s: State, traces: map<nat, Trace>, ranks: nat, i: nat, tid: nat, bits: Bits, n: int)
    requires StateOk(s, traces, ranks) && i in s.inodes
    requires n == s.numFlushing + One(FlushAck(s.inodes[i].unsaved, tid,
                                               bits).flushing != {}) - One(s.inodes[i].unsaved.flushing != {})
    ensures var o, t := s.inodes[i], traces[i].Acked(tid, bits);
      var inodes := s.inodes[i := o.(unsaved := FlushAck(o.unsaved, tid, bits))];
      && n == |FlushingInodes(inodes)| && FlushAck(o.unsaved, tid, bits).RefsOk()
      && (AckOfFlush(traces[i], tid, bits) && NoWrap(traces[i], tid, bits) ==>
        StateOk(State(inodes, n), traces[i := t], ranks)
        && FlushAck(o.unsaved, tid, bits).flushing == o.unsaved.flushing - Answered(traces[i], tid, bits))
  {
    var o := s.inodes[i];
    var o' := o.(unsaved := FlushAck(o.unsaved, tid, bits));
    assert InodeOk(o, traces[i], ranks);
    AckRefs(o.unsaved, tid, bits);
    CountFlushing(s.inodes, i, o');
    if AckOfFlush(traces[i], tid, bits) && NoWrap(traces[i], tid, bits) {
      AckIsGood(o.unsaved, traces[i], tid, bits);
      AckTakesLast(o.unsaved, traces[i], tid, bits);
      UpdateInode(s, traces, ranks, i, o', traces[i].Acked(tid, bits), n);
    }
  }

  // remove_cap.
  function Without(o: Inode, m: nat): Inode {
    o.(caps := o.caps - {m}, auth := if o.auth == Some(m) then None else o.auth)
  }

  function Closed(o: Inode, m: nat): Inode {
    if o.auth == Some(m)
    then Without(o, m).(unsaved := Forget(o.unsaved), room := o.room.(wantedMax := 0, requestedMax := 0))
    else Without(o, m)
  }

  // Only the inodes to do still have this server's cap; the others are as closing leaves them.
  ghost predicate Closing(before: map<nat, Inode>, after: map<nat, Inode>, todo: set<nat>, m: nat) {
    && after.Keys == before.Keys
    && forall i <- after :: after[i] == if i in todo then before[i] else Closed(before[i], m)
  }

  // Only where this server had the auth cap is anything dirtied forgotten.
  function ClosedTrace(o: Inode, t: Trace, m: nat): Trace { if o.auth == Some(m) then t.(dirtied := map[]) else t }

  ghost predicate ClosedSoFar(inodes: map<nat, Inode>, traces: map<nat, Trace>,
                              inodes': map<nat, Inode>, traces': map<nat, Trace>, todo: set<nat>, m: nat) {
    && todo <= inodes.Keys && Closing(inodes, inodes', todo, m) && traces.Keys == inodes.Keys == traces'.Keys
    && forall i <- inodes :: traces'[i] == if i in todo then traces[i] else ClosedTrace(inodes[i], traces[i], m)
  }

  lemma ClosingStarts(inodes: map<nat, Inode>, m: nat, traces: map<nat, Trace>, ranks: nat)
    requires traces.Keys == inodes.Keys && forall i <- inodes :: InodeOk(inodes[i], traces[i], ranks)
    ensures ClosedSoFar(inodes, traces, inodes, traces, (set i <- inodes | m in inodes[i].caps), m)
  {
    forall i <- inodes | m !in inodes[i].caps
      ensures Closed(inodes[i], m) == inodes[i] && ClosedTrace(inodes[i], traces[i], m) == traces[i]
    {
      assert InodeOk(inodes[i], traces[i], ranks);
      assert inodes[i].caps - {m} == inodes[i].caps;
    }
  }

  lemma ClosingMore(inodes: map<nat, Inode>, traces: map<nat, Trace>, inodes': map<nat, Inode>,
                    traces': map<nat, Trace>, inodes'': map<nat, Inode>, traces'': map<nat, Trace>,
                    todo: set<nat>, i: nat, m: nat)
    requires ClosedSoFar(inodes, traces, inodes', traces', todo, m) && i in todo
    requires SameBut(inodes', inodes'', i) && inodes''[i] == Closed(inodes'[i], m)
    requires SameBut(traces', traces'', i) && traces''[i] == ClosedTrace(inodes'[i], traces'[i], m)
    ensures ClosedSoFar(inodes, traces, inodes'', traces'', todo - {i}, m)
  {
  }

  lemma ResentKeeps(o: Inode, m: nat, inject: bool)
    requires o.CapsOk() && o.auth == Some(m)
    ensures var o' := Sent(o, m, o.used, o.wanted, o.caps[m].issued + o.caps[m].implemented, o.unsaved.flushing,
                           inject);
      o'.CapsOk() && SameUse(o, o') && KeepsUsed(o, o', inject)
  {
  }

  // What a round of check_caps achieves.
  predicate Checked(o: Inode, o': Inode, cfg: Setting, delayed: bool) {
    && SameUse(o, o') && KeepsUsed(o, o', cfg.inject) && AddsNone(o, o')
    && (!cfg.inject ==> Completes(o, o', cfg.ranks))
    && (delayed && o'.auth.Some? ==> o'.unsaved.dirty == {}) && RoomOf(o, o') && Asks(o, o')
    && Retains(o, o', cfg.unmounting) && (!cfg.inject ==> IssuesNone(o, o'))
    && Releases(o, o', cfg.ranks, cfg, !delayed) && Spares(o, o', cfg, !delayed)
  }

  // Bits worth keeping: those wanted or used, and until we unmount all shared ones, or everything
  // that can be cached if something is wanted.
  predicate Worth(o: Inode, b: Bit, unmounting: bool) {
    || b in o.wanted || b in o.used || b == Pin
    || (!unmounting && (b in ANY_SHARED || (o.wanted != {} && b in ANY)))
  }

  // Issued bits worth keeping stay issued.
  predicate Retains(o: Inode, o': Inode, unmounting: bool) {
    forall m <- o.caps :: m in o'.caps && RetainsCap(o, o.caps[m], o'.caps[m], unmounting)
  }

  predicate IssuesNone(o: Inode, o': Inode) {
    forall m <- o.caps :: m in o'.caps && o'.caps[m].issued <= o.caps[m].issued
  }

  predicate RetainsCap(o: Inode, c: Cap, c': Cap, unmounting: bool) {
    forall b <- c.issued :: Worth(o, b, unmounting) ==> b in c'.issued
  }

  // The servers below n know what is wanted, and nothing else is kept from them; while releases are
  // put off, this goes for those that it cannot be put off for.
  predicate Releases(o: Inode, o': Inode, n: nat, cfg: Setting, hold: bool) {
    forall m <- o.caps :: m in o'.caps && m < n && (!hold || Urgent(o, m, cfg)) ==>
      ReleasesCap(o, o.caps[m], o'.caps[m], cfg)
  }

  // More is wanted than the server knows, or everything is to be given back.
  predicate Urgent(o: Inode, m: nat, cfg: Setting)
    requires m in o.caps
  {
    || o.wanted - (o.caps[m].wanted + o.caps[m].issued) != {}
    || (cfg.unmounting && !cfg.inject && o.caps[m].Revoking() == {} && o.UsedBy(m) == {})
  }

  predicate NeedsMax(r: Room) { r.wantedMax > r.max && r.wantedMax > r.requestedMax }

  predicate NeedsReport(o: Inode) {
    FileWr in o.AuthIssued() && 2 * o.room.size >= o.room.max && 2 * o.room.reported < o.room.max
  }

  // The auth server has been asked for a greater maximal size, and told the size.
  predicate Asks(o: Inode, o': Inode) {
    && (o.auth.Some? && NeedsMax(o.room) ==> o'.room.requestedMax == o.room.wantedMax)
    && (o.auth.Some? && NeedsReport(o) ==> o'.room.reported == o.room.size)
  }

  // The same in a round that has come to server m.
  predicate RoomRound(o0: Inode, o: Inode, m: nat) {
    && RoomOf(o0, o) && (o.room.reported == o0.room.reported || o.room.reported == o0.room.size)
    && (o0.auth.Some? && m <= o0.auth.value ==> o.room.requestedMax == o0.room.requestedMax)
    && (o0.auth.Some? && m > o0.auth.value ==> Asks(o0, o))
  }

  lemma RoomAcked(o0: Inode, o: Inode, o': Inode, m: nat)
    requires o'.room == SentRoom(o, m) && o.auth == o0.auth && RoomRound(o0, o, m)
    ensures RoomRound(o0, o', m + 1)
  {
  }

  lemma RoomSkips(o0: Inode, o: Inode, m: nat, retain: Bits, unmounting: bool, hold: bool)
    requires o0.CapsOk() && SameUse(o0, o) && RoomRound(o0, o, m) && (m in o.caps ==> o.caps[m] == o0.caps[m])
    requires m in o.caps ==> !MustAck(o, m, retain, unmounting, hold)
    ensures RoomRound(o0, o, m + 1)
  {
  }

  function SentRoom(o: Inode, m: nat): Room {
    var room := o.room.(reported := o.room.size);
    if o.auth == Some(m) then room.(requestedMax := room.wantedMax) else room
  }

  predicate ReleasesCap(o: Inode, c: Cap, c': Cap, cfg: Setting) {
    && c'.wanted == o.wanted
    && ((cfg.inject && c.Revoking() != {}) || forall b <- c'.issued :: Worth(o, b, cfg.unmounting))
  }

  // There is nothing to tell this server.
  predicate Quiet(o: Inode, m: nat, cfg: Setting, hold: bool)
    requires m in o.caps
  {
    var c := o.caps[m];
    && c.Revoking() == {} && o.wanted <= c.wanted + c.issued && !cfg.unmounting
    && o.room.wantedMax <= o.room.max && 2 * o.room.size < o.room.max
    && (hold || (c.wanted == o.wanted && o.unsaved.dirty == {} && forall b <- c.issued :: Worth(o, b, cfg.unmounting)))
  }

  // It is left in peace then.
  predicate Spares(o: Inode, o': Inode, cfg: Setting, hold: bool) {
    forall m <- o.caps :: m in o'.caps && (Quiet(o, m, cfg, hold) ==> o'.caps[m] == o.caps[m])
  }

  lemma RetainedIsWorth(o: Inode, unmounting: bool)
    ensures forall b :: b in Retained(o, unmounting) <==> Worth(o, b, unmounting)
  {
  }

  lemma ReducedIsMasked(o: Inode, c: Cap, used: Bits, cfg: Setting)
    requires c.Ok()
    ensures var c' := Reduced(c, used, Retained(o, cfg.unmounting), cfg.inject).(wanted := o.wanted);
      && RetainsCap(o, c, c', cfg.unmounting) && ReleasesCap(o, c, c', cfg)
      && (!cfg.inject ==> c'.issued <= c.issued)
  {
    RetainedIsWorth(o, cfg.unmounting);
  }

  // What a round that has come to server m has kept and given back.
  predicate Masked(o0: Inode, o: Inode, m: nat, cfg: Setting, hold: bool) {
    && Retains(o0, o, cfg.unmounting) && (!cfg.inject ==> IssuesNone(o0, o))
    && Releases(o0, o, m, cfg, hold) && Spares(o0, o, cfg, hold)
  }

  // A server that must hear from us, at any time in the round, is not one with nothing to hear.
  lemma AckedNotQuiet(o0: Inode, o: Inode, m: nat, cfg: Setting, hold: bool)
    requires SameUse(o0, o) && RoomOf(o0, o) && m in o.caps && o.caps[m] == o0.caps[m]
    requires o0.unsaved.dirty == {} ==> o.unsaved.dirty == {}
    requires MustAck(o, m, Retained(o0, cfg.unmounting), cfg.unmounting, hold)
    ensures !Quiet(o0, m, cfg, hold)
  {
    RetainedIsWorth(o0, cfg.unmounting);
  }

  // Only what was reported and requested may have changed.
  predicate RoomOf(o0: Inode, o: Inode) {
    o.room.size == o0.room.size && o.room.max == o0.room.max && o.room.wantedMax == o0.room.wantedMax
  }

  lemma MaskSent(o0: Inode, o: Inode, o': Inode, m: nat, cfg: Setting, hold: bool)
    requires o0.CapsOk() && SameUse(o0, o) && Masked(o0, o, m, cfg, hold) && m in o.caps && o.caps[m] == o0.caps[m]
    requires !Quiet(o0, m, cfg, hold) && SentCaps(o, o', m, Retained(o0, cfg.unmounting), cfg.inject)
    ensures Masked(o0, o', m + 1, cfg, hold)
  {
    var c' := Reduced(o0.caps[m], o.UsedBy(m), Retained(o0, cfg.unmounting), cfg.inject).(wanted := o0.wanted);
    ReducedIsMasked(o0, o0.caps[m], o.UsedBy(m), cfg);
    forall k <- o0.caps ensures o'.caps[k] == if k == m then c' else o.caps[k] {
    }
    MaskPut(o0, o, o', m, c', cfg, hold);
  }

  lemma MaskPut(o0: Inode, o: Inode, o': Inode, m: nat, c': Cap, cfg: Setting, hold: bool)
    requires m in o0.caps && o.caps.Keys == o0.caps.Keys == o'.caps.Keys && Masked(o0, o, m, cfg, hold)
    requires forall k <- o0.caps :: o'.caps[k] == if k == m then c' else o.caps[k]
    requires RetainsCap(o0, o0.caps[m], c', cfg.unmounting) && ReleasesCap(o0, o0.caps[m], c', cfg)
    requires !Quiet(o0, m, cfg, hold) && (!cfg.inject ==> c'.issued <= o0.caps[m].issued)
    ensures Masked(o0, o', m + 1, cfg, hold)
  {
  }

  lemma MaskSkips(o0: Inode, o: Inode, m: nat, cfg: Setting, hold: bool)
    requires SameUse(o0, o) && Masked(o0, o, m, cfg, hold)
    requires m in o.caps ==> o.caps[m] == o0.caps[m]
    requires m in o.caps ==> !MustAck(o, m, Retained(o0, cfg.unmounting), cfg.unmounting, hold)
    requires !cfg.inject ==> o.UsedBy(m) == o0.UsedBy(m)
    ensures Masked(o0, o, m + 1, cfg, hold)
  {
    RetainedIsWorth(o0, cfg.unmounting);
  }

  // The loop of check_caps; n is num_flushing_caps.
  method CheckInode(o0: Inode, t0: Trace, n0: int, cfg: Setting, hold: bool) returns (o: Inode, n: int, t: Trace)
    requires InodeOk(o0, t0, cfg.ranks)
    ensures InodeOk(o, t, cfg.ranks) && Extends(t0, t) && Checked(o0, o, cfg, !hold) && Counts(o0, n0, o, n)
  {
    o, n, t := o0, n0, t0;
    var retain := Retained(o, cfg.unmounting);
    RoundStarts(o0, cfg.inject);
    for m := 0 to cfg.ranks
      invariant RoundOk(o0, n0, o, t, n, m, cfg, hold) && MaskRound(o0, o, m, cfg, hold) && Extends(t0, t)
    {
      o, n, t := CheckServer(o0, n0, o, t, n, m, cfg, hold, retain);
    }
    RoundEnds(o0, n0, o, t, n, cfg, hold);
  }

  lemma RoundEnds(o0: Inode, n0: int, o: Inode, t: Trace, n: int, cfg: Setting, hold: bool)
    requires RoundOk(o0, n0, o, t, n, cfg.ranks, cfg, hold) && MaskRound(o0, o, cfg.ranks, cfg, hold)
    ensures Checked(o0, o, cfg, !hold)
  {
  }

  ghost predicate RoundOk(o0: Inode, n0: int, o: Inode, t: Trace, n: int, m: nat, cfg: Setting, hold: bool) {
    InodeOk(o, t, cfg.ranks) && InRound(o0, o, m, cfg.inject) && Counts(o0, n0, o, n) && (hold || AuthFlushed(o, m))
  }

  ghost predicate MaskRound(o0: Inode, o: Inode, m: nat, cfg: Setting, hold: bool) {
    Masked(o0, o, m, cfg, hold) && RoomRound(o0, o, m) && (o0.unsaved.dirty == {} ==> o.unsaved.dirty == {})
  }

  // Once the auth server has had its turn nothing is dirty.
  predicate AuthFlushed(o: Inode, m: nat) { o.unsaved.dirty == {} || o.auth.None? || m <= o.auth.value }

  lemma RoundStarts(o: Inode, inject: bool)
    requires o.CapsOk()
    ensures InRound(o, o, 0, inject)
  {
  }

  method CheckServer(ghost o0: Inode, ghost n0: int, o: Inode, t: Trace, n: int, m: nat, cfg: Setting, hold: bool,
                     retain: Bits)
    returns (o': Inode, n': int, t': Trace)
    requires RoundOk(o0, n0, o, t, n, m, cfg, hold) && MaskRound(o0, o, m, cfg, hold)
    requires retain == Retained(o0, cfg.unmounting)
    ensures RoundOk(o0, n0, o', t', n', m + 1, cfg, hold) && MaskRound(o0, o', m + 1, cfg, hold) && Extends(t, t')
  {
    if m in o.caps && MustAck(o, m, retain, cfg.unmounting, hold) {
      RetainsUsed(o0, o, cfg.unmounting);
      o', n', t' := AckCap(o0, o, t, n, m, cfg.ranks, cfg.inject, retain);
      AckedIsRound(o0, n0, o, n, o', t', n', m, cfg, hold);
      MaskAcked(o0, o, o', m, cfg, hold);
    } else {
      o', n', t' := o, n, t;
      RoundSkips(o0, n0, o, t, n, m, retain, cfg, hold);
      if !cfg.inject { CoverIsUsed(o0, o, m); }
      MaskSkips(o0, o, m, cfg, hold);
      RoomSkips(o0, o, m, retain, cfg.unmounting, hold);
    }
  }

  // What sending a cap leaves of the inode's caps and sizes.
  predicate SentCaps(o: Inode, o': Inode, m: nat, retain: Bits, inject: bool)
    requires m in o.caps
  {
    o'.caps == o.caps[m := Reduced(o.caps[m], o.UsedBy(m), retain, inject).(wanted := o.wanted)] &&
      o'.room == SentRoom(o, m)
  }

  lemma MaskAcked(o0: Inode, o: Inode, o': Inode, m: nat, cfg: Setting, hold: bool)
    requires InRound(o0, o, m, cfg.inject) && MaskRound(o0, o, m, cfg, hold) && m in o.caps
    requires MustAck(o, m, Retained(o0, cfg.unmounting), cfg.unmounting, hold)
    requires SentCaps(o, o', m, Retained(o0, cfg.unmounting), cfg.inject)
    requires AckedUnsaved(o, o', m)
    ensures MaskRound(o0, o', m + 1, cfg, hold)
  {
    AckedNotQuiet(o0, o, m, cfg, hold);
    MaskSent(o0, o, o', m, cfg, hold);
    RoomAcked(o0, o, o', m);
  }

  lemma RetainsUsed(o0: Inode, o: Inode, unmounting: bool)
    requires SameUse(o0, o)
    ensures o.used <= Retained(o0, unmounting)
  {
  }

  // From the label ack in check_caps: flush if this is the auth cap, and send.
  method AckCap(ghost o0: Inode, o: Inode, t: Trace, n: int, m: nat, ghost ranks: nat, inject: bool, retain: Bits)
    returns (o': Inode, n': int, t': Trace)
    requires InodeOk(o, t, ranks) && InRound(o0, o, m, inject) && m in o.caps && o.used <= retain
    ensures InodeOk(o', t', ranks) && Extends(t, t') && InRound(o0, o', m + 1, inject)
    ensures Counts(o, n, o', n') && AckedUnsaved(o, o', m) && SentCaps(o, o', m, retain, inject)
  {
    var o1, flush, n1 := FlushIfAuth(o, n, m);
    FlushIsGood(o.unsaved, t, o1.unsaved, flush);
    RoundSent(o0, o, o1, m, retain, flush, inject);
    o' := Sent(o1, m, o.UsedBy(m), o.wanted, retain, flush, inject);
    n' := n1;
    t' := TraceSend(o.unsaved, t, flush);
  }

  // mark_caps_flushing, if this is the auth cap and something is dirty.
  method FlushIfAuth(o: Inode, n: int, m: nat) returns (o': Inode, flush: Bits, n': int)
    ensures o' == o.(unsaved := o'.unsaved) && Flushable(o.unsaved, o'.unsaved, flush)
    ensures Counts(o, n, Stamped(o', flush), n') && AckedUnsaved(o, Stamped(o', flush), m)
  {
    o', flush, n' := o, {}, n;
    if o.auth == Some(m) && o.unsaved.dirty != {} {
      flush := o.unsaved.dirty;
      if o.unsaved.flushing == {} { n' := n' + 1; }
      o' := o.(unsaved := MarkFlushing(o.unsaved));
    }
  }

  ghost function Stamped(o: Inode, flush: Bits): Inode { o.(unsaved := Stamp(o.unsaved, flush)) }

  // All that was dirty goes to the auth server.
  predicate AckedUnsaved(o: Inode, o': Inode, m: nat) {
    if o.auth == Some(m) then
      o'.unsaved.dirty == {} && o'.unsaved.flushing == o.unsaved.flushing + o.unsaved.dirty
    else
      o'.unsaved.dirty == o.unsaved.dirty && o'.unsaved.flushing == o.unsaved.flushing
  }

  lemma AckedIsRound(o0: Inode, n0: int, o: Inode, n: int, o': Inode, t': Trace, n': int, m: nat, cfg: Setting,
                     hold: bool)
    requires Counts(o0, n0, o, n) && (hold || AuthFlushed(o, m)) && Counts(o, n, o', n') && AckedUnsaved(o, o', m)
    requires InodeOk(o', t', cfg.ranks) && InRound(o0, o', m + 1, cfg.inject) && o'.auth == o.auth
    ensures RoundOk(o0, n0, o', t', n', m + 1, cfg, hold)
  {
  }

  // A round of check_caps that began at o0 has come to server m.
  ghost predicate InRound(o0: Inode, o: Inode, m: nat, inject: bool) {
    && o0.CapsOk() && SameUse(o0, o) && KeepsUsed(o0, o, inject) && AddsNone(o0, o) && Later(o0, o, m)
    && (!inject ==> SameCover(o0, o) && Completes(o0, o, m))
  }

  // o1 is the inode with its dirty bits already flushing.
  lemma RoundSent(o0: Inode, o: Inode, o1: Inode, m: nat, retain: Bits, flush: Bits, inject: bool)
    requires o.CapsOk() && InRound(o0, o, m, inject) && m in o.caps && o.used <= retain
    requires o1 == o.(unsaved := o1.unsaved)
    ensures var o' := Sent(o1, m, o.UsedBy(m), o.wanted, retain, flush, inject);
      o'.CapsOk() && InRound(o0, o', m + 1, inject) && o'.unsaved == Stamp(o1.unsaved, flush)
  {
    SentKeeps(o0, o1, m, o.wanted, retain, flush, inject);
    if !inject {
      CoverIsUsed(o0, o1, m);
      SentCompletes(o0, o1, m, o.wanted, retain, flush);
      SentCovers(o0, o1, m, o.wanted, retain, flush);
    }
  }

  lemma RoundSkips(o0: Inode, n0: int, o: Inode, t: Trace, n: int, m: nat, retain: Bits, cfg: Setting, hold: bool)
    requires RoundOk(o0, n0, o, t, n, m, cfg, hold)
    requires m in o.caps ==> !MustAck(o, m, retain, cfg.unmounting, hold)
    ensures RoundOk(o0, n0, o, t, n, m + 1, cfg, hold)
  {
    SkipKeepsRound(o0, o, m, cfg.inject, retain, cfg.unmounting, hold);
  }

  lemma SkipKeepsRound(o0: Inode, o: Inode, m: nat, inject: bool, retain: Bits, unmounting: bool, hold: bool)
    requires InRound(o0, o, m, inject) && (m in o.caps ==> !MustAck(o, m, retain, unmounting, hold))
    ensures InRound(o0, o, m + 1, inject)
  {
    if !inject { CoverIsUsed(o0, o, m); }
  }
}
