/** The client's capabilities on one inode: what each metadata server has issued, what is
    still in use, and which changes are dirty or being flushed. */
module Caps {
  import opened Options

  datatype Bit =
    | Pin | AuthShared | AuthExcl | LinkShared | LinkExcl | XattrShared | XattrExcl
    | FileShared | FileExcl | FileCache | FileRd | FileWr | FileBuffer | FileExtend | FileLazyIo

  type Bits = set<Bit>

  const ANY_SHARED: Bits := {AuthShared, LinkShared, XattrShared, FileShared}
  const ANY: Bits := ANY_SHARED + {FileRd, FileCache, AuthExcl, LinkExcl, XattrExcl, FileExcl, FileWr, FileBuffer, Pin}
  const XATTR: Bits := {XattrShared, XattrExcl}

  function Xor(a: Bits, b: Bits): Bits { (a - b) + (b - a) }

  // One server's capability. Bits that are implemented but not issued are being revoked.
  datatype Cap = Cap(id: nat, issued: Bits, implemented: Bits, wanted: Bits, seqNo: nat, issueSeq: nat, mseq: nat)
  {
    function Revoking(): Bits { implemented - issued }
    predicate Ok() { issued <= implemented }
  }

  // File size bookkeeping that decides whether the auth server must hear from us.
  datatype Room = Room(size: nat, max: nat, wantedMax: nat, requestedMax: nat, reported: nat)

  // The changes not yet acknowledged. refs counts the references that dirty state holds on the
  // inode; tids are the low 16 bits of the flush in which each bit was last sent.
  datatype Unsaved = Unsaved(dirty: Bits, flushing: Bits, lastTid: nat, tids: map<Bit, nat>, refs: int)
  {
    predicate RefsOk() { refs == if dirty + flushing == {} then 0 else 1 }
  }

  datatype Inode = Inode(caps: map<nat, Cap>, auth: Option<nat>, used: Bits, wanted: Bits, room: Room, unsaved: Unsaved)
  {
    function AuthIssued(): Bits { if auth.Some? && auth.value in caps then caps[auth.value].issued else {} }
    // The bits in use that a server's cap has to answer for.
    function UsedBy(m: nat): Bits { if auth.Some? && auth.value != m then used - AuthIssued() else used }
    predicate CapsOk() {
      (forall m <- caps :: caps[m].Ok()) && (auth.Some? ==> auth.value in caps)
    }
  }

  // The flush history of an inode, which no operation looks at: what each flush carried, the
  // last flush of each bit, the bits of it that were acknowledged, and for each bit dirtied the
  // last flush before that. Closing the auth session forgets what was dirtied.
  datatype Trace = Trace(sent: map<nat, Bits>, last: map<Bit, nat>, acked: map<nat, Bits>, dirtied: map<Bit, nat>)
  {
    // The bit was acknowledged in flush t, which carried it.
    predicate Answers(t: nat, b: Bit) { t in acked && b in acked[t] && t in sent && b in sent[t] }
    // A flush sent after the bit was last dirtied has been acknowledged for it.
    ghost predicate Settled(b: Bit) requires b in dirtied {
      exists t :: dirtied[b] < t && Answers(t, b)
    }
    function Acked(t: nat, bits: Bits): Trace {
      this.(acked := acked[t := bits + if t in acked then acked[t] else {}])
    }
    ghost predicate SentOk(lastTid: nat) {
      && (forall t <- sent :: 0 < t <= lastTid && (forall b <- sent[t] :: b in last && t <= last[b]))
      && (forall b <- last :: last[b] in sent && b in sent[last[b]])
      && (forall t <- acked :: t in sent)
    }
    ghost predicate TidsOk(tids: map<Bit, nat>) { forall b <- last :: b in tids && tids[b] == last[b] % 0x1_0000 }
  }

  // Flushes may have been sent, but nothing was acknowledged, dirtied or forgotten.
  ghost predicate Extends(t: Trace, t': Trace) {
    t'.dirtied == t.dirtied && t'.acked == t.acked && forall n <- t.sent :: n in t'.sent && t'.sent[n] == t.sent[n]
  }

  // Nothing dirtied is forgotten: it is dirty, or on its way, or settled.
  ghost predicate Tracked(o: Unsaved, t: Trace, b: Bit) {
    && (b in o.flushing ==> b in t.last && (b in t.dirtied && b !in o.dirty ==> t.dirtied[b] < t.last[b]))
    && (b in t.dirtied ==> t.dirtied[b] <= o.lastTid && (b in o.dirty || b in o.flushing || t.Settled(b)))
  }

  ghost predicate FlushOk(o: Unsaved, t: Trace) {
    t.SentOk(o.lastTid) && t.TidsOk(o.tids) && forall b: Bit :: Tracked(o, t, b)
  }

  /** What every operation keeps. */
  ghost predicate Good(o: Unsaved, t: Trace) { o.RefsOk() && FlushOk(o, t) }

  // ---- dirty, flushing, acknowledged

  function MarkDirty(o: Unsaved, bits: Bits): Unsaved {
    o.(refs := if bits != {} && o.dirty + o.flushing == {} then o.refs + 1 else o.refs, dirty := o.dirty + bits)
  }

  function TraceDirty(o: Unsaved, t: Trace, bits: Bits): Trace {
    t.(dirtied := map b | b in t.dirtied.Keys + bits :: if b in bits then o.lastTid else t.dirtied[b])
  }

  lemma DirtyIsGood(o: Unsaved, t: Trace, bits: Bits)
    requires Good(o, t)
    ensures Good(MarkDirty(o, bits), TraceDirty(o, t, bits))
  {
    var o', t' := MarkDirty(o, bits), TraceDirty(o, t, bits);
    forall b: Bit ensures Tracked(o', t', b) {
      assert Tracked(o, t, b);
      if b in t.dirtied && b !in bits && t.Settled(b) {
        var n :| t.dirtied[b] < n && t.Answers(n, b);
        assert t'.dirtied[b] < n && t'.Answers(n, b);
      }
    }
  }

  function MarkFlushing(o: Unsaved): Unsaved { o.(flushing := o.flushing + o.dirty, dirty := {}) }

  // The part of send_cap that numbers a flush.
  function Stamp(o: Unsaved, flush: Bits): Unsaved {
    if flush == {} then o
    else o.(lastTid := o.lastTid + 1,
            tids := map b | b in o.tids.Keys + flush :: if b in flush then (o.lastTid + 1) % 0x1_0000 else o.tids[b])
  }

  function TraceSend(o: Unsaved, t: Trace, flush: Bits): Trace {
    if flush == {} then t
    else t.(sent := t.sent[o.lastTid + 1 := flush],
            last := map b | b in t.last.Keys + flush :: if b in flush then o.lastTid + 1 else t.last[b])
  }

  lemma SentMore(o: Unsaved, t: Trace, flush: Bits)
    requires t.SentOk(o.lastTid) && t.TidsOk(o.tids)
    ensures TraceSend(o, t, flush).SentOk(Stamp(o, flush).lastTid)
    ensures TraceSend(o, t, flush).TidsOk(Stamp(o, flush).tids)
  {
  }

  // What may be sent: all that was dirty for the first time, or what is flushing again.
  predicate Flushable(o: Unsaved, o1: Unsaved, flush: Bits) {
    (o1 == MarkFlushing(o) && flush == o.dirty) || (o1 == o && flush <= o.flushing)
  }

  lemma FlushTracks(o: Unsaved, t: Trace, o1: Unsaved, flush: Bits, b: Bit)
    requires Tracked(o, t, b) && o.lastTid + 1 !in t.sent && Flushable(o, o1, flush)
    ensures Tracked(Stamp(o1, flush), TraceSend(o, t, flush), b)
  {
    SettledStays(o, t, flush, b);
  }

  lemma SettledStays(o: Unsaved, t: Trace, flush: Bits, b: Bit)
    requires o.lastTid + 1 !in t.sent
    ensures b in t.dirtied && t.Settled(b) ==> TraceSend(o, t, flush).Settled(b)
  {
    var t' := TraceSend(o, t, flush);
    if b in t.dirtied && t.Settled(b) {
      var n :| t.dirtied[b] < n && t.Answers(n, b);
      assert t'.dirtied[b] < n && t'.Answers(n, b);
    }
  }

  lemma FlushRefs(o: Unsaved, o1: Unsaved, flush: Bits)
    requires o.RefsOk() && Flushable(o, o1, flush)
    ensures Stamp(o1, flush).RefsOk() && o1.lastTid == o.lastTid && o1.tids == o.tids
  {
  }

  lemma SendExtends(o: Unsaved, t: Trace, flush: Bits)
    requires t.SentOk(o.lastTid)
    ensures Extends(t, TraceSend(o, t, flush)) && o.lastTid + 1 !in t.sent
  {
  }

  lemma FlushOkAfter(o: Unsaved, t: Trace, o1: Unsaved, flush: Bits)
    requires FlushOk(o, t) && Flushable(o, o1, flush) && o1.lastTid == o.lastTid && o1.tids == o.tids
    requires o.lastTid + 1 !in t.sent
    ensures FlushOk(Stamp(o1, flush), TraceSend(o, t, flush))
  {
    SentMore(o, t, flush);
    var o', t' := Stamp(o1, flush), TraceSend(o, t, flush);
    forall b: Bit ensures Tracked(o', t', b) {
      FlushTracks(o, t, o1, flush, b);
    }
  }

  lemma FlushIsGood(o: Unsaved, t: Trace, o1: Unsaved, flush: Bits)
    requires Good(o, t) && Flushable(o, o1, flush)
    ensures Good(Stamp(o1, flush), TraceSend(o, t, flush)) && Extends(t, TraceSend(o, t, flush))
  {
    FlushRefs(o, o1, flush);
    SendExtends(o, t, flush);
    FlushOkAfter(o, t, o1, flush);
  }

  function Cleaned(o: Unsaved, tid: nat, bits: Bits): Bits {
    set b <- bits | (if b in o.tids then o.tids[b] else 0) == tid % 0x1_0000
  }

  // handle_cap_flush_ack.
  function FlushAck(o: Unsaved, tid: nat, bits: Bits): Unsaved {
    var cleaned := Cleaned(o, tid, bits);
    if cleaned == {} || o.flushing == {} then o
    else
      var left := o.flushing - cleaned;
      o.(flushing := left, refs := if o.dirty + left == {} then o.refs - 1 else o.refs)
  }

  // An acknowledgement names a flush that was sent, and bits of it.
  predicate AckOfFlush(t: Trace, tid: nat, bits: Bits) { tid in t.sent && bits <= t.sent[tid] }

  // None of these bits was sent again a multiple of 2^16 flushes later.
  predicate NoWrap(t: Trace, tid: nat, bits: Bits) {
    forall b <- bits :: b in t.last ==> t.last[b] == tid || (t.last[b] - tid) % 0x1_0000 != 0
  }

  // The bits whose last flush is this one.
  function Answered(t: Trace, tid: nat, bits: Bits): Bits { set b <- bits | b in t.last && t.last[b] == tid }

  lemma SameLowBits(a: nat, b: nat)
    ensures a % 0x1_0000 == b % 0x1_0000 <==> (a - b) % 0x1_0000 == 0
  {
  }

  /** The 16-bit comparison cleans exactly the bits that no later flush carried, if and only if
      none of them was sent again a multiple of 2^16 flushes later. */
  lemma CleanedIsLast(o: Unsaved, t: Trace, tid: nat, bits: Bits)
    requires t.SentOk(o.lastTid) && t.TidsOk(o.tids) && AckOfFlush(t, tid, bits)
    ensures Cleaned(o, tid, bits) == Answered(t, tid, bits) <==> NoWrap(t, tid, bits)
  {
    forall b <- bits ensures b in t.last && (b in Cleaned(o, tid, bits) <==> (t.last[b] - tid) % 0x1_0000 == 0) {
      assert tid <= t.last[b];
      SameLowBits(t.last[b], tid);
    }
    if Cleaned(o, tid, bits) == Answered(t, tid, bits) {
      forall b <- bits ensures t.last[b] == tid || (t.last[b] - tid) % 0x1_0000 != 0 {
        assert b in Cleaned(o, tid, bits) <==> b in Answered(t, tid, bits);
      }
    }
  }

  /** That is so whenever fewer than 2^16 flushes were sent since. */
  lemma RecentDoesNotWrap(lastTid: nat, t: Trace, tid: nat, bits: Bits)
    requires t.SentOk(lastTid) && AckOfFlush(t, tid, bits) && lastTid < tid + 0x1_0000
    ensures NoWrap(t, tid, bits)
  {
    forall b <- bits ensures t.last[b] == tid || (t.last[b] - tid) % 0x1_0000 != 0 {
      assert tid <= t.last[b] <= lastTid;
    }
  }

  // However late it is, the references stay right.
  lemma AckRefs(o: Unsaved, tid: nat, bits: Bits)
    requires o.RefsOk()
    ensures FlushAck(o, tid, bits).RefsOk()
  {
  }

  lemma AckIsGood(o: Unsaved, t: Trace, tid: nat, bits: Bits)
    requires Good(o, t) && AckOfFlush(t, tid, bits) && NoWrap(t, tid, bits)
    ensures Good(FlushAck(o, tid, bits), t.Acked(tid, bits))
  {
    CleanedIsLast(o, t, tid, bits);
    var o', t' := FlushAck(o, tid, bits), t.Acked(tid, bits);
    forall b: Bit ensures Tracked(o', t', b) {
      assert Tracked(o, t, b);
      if b in t.dirtied && b !in o'.dirty && b !in o'.flushing {
        if b in o.flushing {
          assert t'.dirtied[b] < tid && t'.Answers(tid, b);
        } else {
          var n :| t.dirtied[b] < n && t.Answers(n, b);
          assert t'.dirtied[b] < n && t'.Answers(n, b);
        }
      }
    }
  }

  /** Exactly what an acknowledgement takes off: the bits whose last flush it answers. A bit
      that is dirty again stays dirty. */
  lemma AckTakesLast(o: Unsaved, t: Trace, tid: nat, bits: Bits)
    requires Good(o, t) && AckOfFlush(t, tid, bits) && NoWrap(t, tid, bits)
    ensures FlushAck(o, tid, bits).dirty == o.dirty
    ensures FlushAck(o, tid, bits).flushing == o.flushing - Answered(t, tid, bits)
  {
    CleanedIsLast(o, t, tid, bits);
  }

  /** When it wraps a dirtied bit can be lost: the answer to flush 1 is taken for the answer to
      flush 65537. */
  lemma WrapLosesBit() returns (o: Unsaved, t: Trace, b: Bit)
    ensures Good(o, t) && AckOfFlush(t, 1, {b}) && !NoWrap(t, 1, {b})
    ensures b in o.flushing && b in t.dirtied && !t.Settled(b)
    ensures b !in FlushAck(o, 1, {b}).flushing && b !in FlushAck(o, 1, {b}).dirty
    ensures !t.Acked(1, {b}).Settled(b)
  {
    b := FileWr;
    o := Unsaved({}, {b}, 0x1_0001, map[b := 1], 1);
    t := Trace(map[1 := {b}, 0x1_0001 := {b}], map[b := 0x1_0001], map[], map[b := 1]);
    assert forall c: Bit :: Tracked(o, t, c);
    assert Cleaned(o, 1, {b}) == {b};
  }

  // Closing the auth session: the dirty state is thrown away.
  function Forget(o: Unsaved): Unsaved {
    if o.dirty + o.flushing == {} then o else o.(dirty := {}, flushing := {}, refs := o.refs - 1)
  }

  lemma ForgetIsGood(o: Unsaved, t: Trace)
    requires Good(o, t)
    ensures Good(Forget(o), t.(dirtied := map[]))
  {
    assert forall b: Bit :: Tracked(o, t, b) ==> Tracked(Forget(o), t.(dirtied := map[]), b);
  }

  // A flush number used for something else.
  lemma SkipIsGood(o: Unsaved, t: Trace)
    requires Good(o, t)
    ensures Good(o.(lastTid := o.lastTid + 1), t)
  {
    var o' := o.(lastTid := o.lastTid + 1);
    forall b: Bit ensures Tracked(o', t, b) {
      assert Tracked(o, t, b);
    }
  }

  // ---- what send_cap leaves of a cap

  function Reduced(c: Cap, used: Bits, retain: Bits, inject: bool): Cap {
    var revoking := c.implemented - c.issued;
    var retain := retain - revoking;
    if inject && revoking != {} then
      var issued := c.issued + c.implemented;
      c.(issued := Xor(issued, XATTR * revoking), implemented := Xor(c.implemented, XATTR * revoking))
    else
      var issued := c.issued * retain;
      c.(issued := issued, implemented := c.implemented * (issued + used))
  }

  /** A bit in use that is issued stays issued; one being revoked stays implemented, unless it
      is covered elsewhere or is exempt. */
  predicate KeepsCap(c: Cap, c': Cap, used: Bits, cover: Bits, exempt: Bits) {
    && (forall b <- used :: b in c.issued ==> b in c'.issued)
    && (forall b <- used :: b in c.implemented ==> b in c'.implemented || b in cover || b in exempt)
  }

  // With release failures injected, xattr bits being revoked are given up even so.
  function Exempt(inject: bool, c: Cap): Bits { if inject then XATTR * c.Revoking() else {} }

  lemma ReducedKeeps(c: Cap, all: Bits, used: Bits, retain: Bits, inject: bool, cover: Bits)
    requires c.Ok() && all <= retain && all - cover <= used
    ensures Reduced(c, used, retain, inject).Ok()
    ensures KeepsCap(c, Reduced(c, used, retain, inject), all, cover, Exempt(inject, c))
    ensures Reduced(c, used, retain, inject).implemented <= c.implemented
    ensures !inject ==> Reduced(c, used, retain, inject).issued <= c.issued
  {
  }

  /** Exactly when sending a cap gives up a used bit that nothing else covers. */
  lemma GivesUpExactly(c: Cap, all: Bits, used: Bits, retain: Bits, inject: bool, cover: Bits, b: Bit)
    requires c.Ok() && all <= retain && all - cover <= used <= all && b in all && b !in cover && b in c.implemented
    ensures b !in Reduced(c, used, retain, inject).implemented <==> inject && b in XATTR && b in c.Revoking()
  {
  }

  /** With injection a used bit is lost: an xattr bit that is being revoked. */
  lemma InjectionGivesUp() returns (c: Cap, b: Bit)
    ensures c.Ok() && b in c.implemented && b !in Reduced(c, {b}, {b}, true).implemented
    ensures b in Reduced(c, {b}, {b}, false).implemented
  {
    b := XattrShared;
    c := Cap(1, {}, {b}, {}, 0, 0, 0);
  }

  // A revocation goes on exactly for the bits still in use.
  lemma ReducedCompletes(c: Cap, used: Bits, retain: Bits)
    requires c.Ok() && used <= retain
    ensures Reduced(c, used, retain, false).Revoking() == c.Revoking() * used
  {
  }

  lemma CoverMore(c: Cap, c': Cap, used: Bits, cover: Bits, cover': Bits, exempt: Bits)
    requires KeepsCap(c, c', used, cover, exempt) && forall b <- used :: b in cover ==> b in cover'
    ensures KeepsCap(c, c', used, cover', exempt)
  {
  }
}
