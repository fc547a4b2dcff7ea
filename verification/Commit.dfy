/** The write-back protocol of one directory fragment: versions, dirty dentries, the
    batched write of a commit, its completion, and the waiters. */
module Commit {
  import opened Options

  type Key = string    // dentry_key_t, encoded
  type Blob = seq<int> // an encoded dentry
  type Context = nat   // a completion to be called
  type Disk = map<Key, Option<Blob>> // an absent or removed key has no blob

  // What a dentry links. A primary link carries its inode's version and dirty flag.
  datatype Linkage = Null | Remote(blob: Blob) | Primary(blob: Blob, inodeVersion: nat, inodeDirty: bool)

  datatype Dentry = Dentry(version: nat, dirty: bool, fragmenting: bool, head: bool, link: Linkage)
  {
    // What the dentry should look like on disk.
    function OnDisk(): Option<Blob> { if link.Null? then None else Some(link.blob) }
  }

  // One mutation of the fragment's object: a header, keys set (to_set) and keys removed
  // (to_remove, here with no blob).
  datatype Write = Write(header: Option<nat>, updates: map<Key, Option<Blob>>)

  function At(m: Disk, k: Key): Option<Blob> { if k in m then m[k] else None }

  function Apply(m: Disk, w: Write): Disk { m + w.updates }

  function ApplyAll(m: Disk, ws: seq<Write>): Disk {
    if ws == [] then m else Apply(ApplyAll(m, ws[..|ws| - 1]), ws[|ws| - 1])
  }

  function HeaderAfter(h: nat, ws: seq<Write>): nat {
    if ws == [] then h
    else if ws[|ws| - 1].header.Some? then ws[|ws| - 1].header.value
    else HeaderAfter(h, ws[..|ws| - 1])
  }

  // A key that no write touches keeps what it has.
  lemma {:induction false} Untouched(m: Disk, ws: seq<Write>, k: Key)
    requires forall w <- ws :: k !in w.updates
    ensures At(ApplyAll(m, ws), k) == At(m, k)
  {
    if ws != [] { Untouched(m, ws[..|ws| - 1], k); }
  }

  lemma {:induction false} ApplyFirst(m: Disk, ws: seq<Write>)
    requires ws != []
    ensures ApplyAll(m, ws) == ApplyAll(Apply(m, ws[0]), ws[1..])
  {
    if |ws| > 1 {
      ApplyFirst(m, ws[..|ws| - 1]);
      assert ws[..|ws| - 1][1..] == ws[1..][..|ws| - 2];
    } else {
      assert ws[..0] == [];
    }
  }

  // Only the last write of a batch carries the header.
  predicate HeaderLast(ws: seq<Write>, v: nat) {
    && ws != [] && ws[|ws| - 1].header == Some(v)
    && (forall j :: 0 <= j < |ws| - 1 ==> ws[j].header == None)
  }

  /** After any number of writes of a batch, the new header is on disk only if every
      update of the batch is. */
  lemma {:induction false} HeaderImpliesAll(m: Disk, h: nat, ws: seq<Write>, v: nat, n: nat)
    requires HeaderLast(ws, v) && n <= |ws| && h != v
    ensures HeaderAfter(h, ws[..n]) == v <==> n == |ws|
    ensures HeaderAfter(h, ws[..n]) == v ==> ApplyAll(m, ws[..n]) == ApplyAll(m, ws)
  {
    if n == |ws| {
      assert ws[..n] == ws;
    } else {
      NoHeaderYet(h, ws[..n]);
    }
  }

  lemma {:induction false} NoHeaderYet(h: nat, ws: seq<Write>)
    requires forall j :: 0 <= j < |ws| ==> ws[j].header == None
    ensures HeaderAfter(h, ws) == h
  {
    if ws != [] { NoHeaderYet(h, ws[..|ws| - 1]); }
  }

  // Every update of a batch is final: no later write of it changes the key again.
  ghost predicate Coherent(ws: seq<Write>, final: Disk) {
    forall j, k :: 0 <= j < |ws| && k in ws[j].updates ==> ws[j].updates[k] == At(final, k)
  }

  // What the batch of a commit leaves at key k, given what was there.
  function Committed(items: map<Key, Dentry>, trim: set<Key>, before: Option<Blob>, k: Key): Option<Blob> {
    if k !in items then before
    else if k in trim then None
    else if items[k].dirty || (items[k].fragmenting && !items[k].link.Null?) then items[k].OnDisk()
    else before
  }

  // commit(): version zero asks for the current version.
  function Wanted(want: nat, version: nat): nat { if want == 0 then version else want }

  // A dentry that needs no write any more.
  predicate Clean(dn: Dentry) { !dn.dirty && !dn.fragmenting }

  // A commit leaves out only the clean null dentries of a new fragment.
  predicate Covered(dn: Dentry) { !dn.fragmenting || dn.dirty || !dn.link.Null? }

  // After a commit: what was dirty or is part of a new fragment has its blob on disk, removed and
  // stale names have none, and nothing else has changed.
  ghost predicate Saved(all: map<Key, Dentry>, trim: set<Key>, before: Disk, after: Disk) {
    && (forall k <- all :: k !in trim && (all[k].dirty || all[k].fragmenting) && !all[k].link.Null? ==>
          At(after, k) == Some(all[k].link.blob))
    && (forall k <- all :: k !in trim && all[k].dirty && all[k].link.Null? ==> At(after, k) == None)
    && (forall k <- all :: k !in trim && !all[k].dirty && (!all[k].fragmenting || all[k].link.Null?) ==>
          At(after, k) == At(before, k))
    && (forall k <- trim :: At(after, k) == None)
    && (forall k :: k !in all && k !in trim ==> At(after, k) == At(before, k))
  }

  // _committed on one dentry: the inode and the dentry are clean up to version v.
  function Settled(dn: Dentry, v: nat): Dentry {
    var link := if dn.link.Primary? && dn.link.inodeVersion <= v then dn.link.(inodeDirty := false) else dn.link;
    dn.(link := link, dirty := dn.dirty && v < dn.version)
  }

  // The new state of a dentry changed at version pv: its inode, if any, is dirtied with it.
  function Changed(dn: Dentry, pv: nat, link: Linkage): Dentry {
    dn.(version := pv, dirty := true,
        link := if link.Primary? then link.(inodeVersion := pv, inodeDirty := true) else link)
  }

  function SettledAll(items: map<Key, Dentry>, v: nat): map<Key, Dentry> {
    map k | k in items :: Settled(items[k], v)
  }

  method Smallest(ws: set<nat>) returns (w: nat)
    requires ws != {}
    ensures w in ws && forall x <- ws :: w <= x
  {
    w :| w in ws;
    var rest := ws - {w};
    while rest != {}
      invariant w in ws && rest <= ws
      invariant forall x <- ws :: x in rest || w <= x
    {
      var x :| x in rest;
      rest := rest - {x};
      if x < w { w := x; }
    }
  }

  // The keys not in rest have been visited: now is what the writes so far make of the disk.
  ghost predicate Progress(disk: Disk, all: map<Key, Dentry>, trim: set<Key>, rest: set<Key>, now: Disk) {
    forall k :: At(now, k) == if k in rest then At(disk, k) else Committed(all, trim, At(disk, k), k)
  }

  lemma Visited(disk: Disk, all: map<Key, Dentry>, trim: set<Key>, rest: set<Key>,
                m: Disk, updates: map<Key, Option<Blob>>, k: Key, v: Option<Blob>)
    requires k in rest && k in all && Progress(disk, all, trim, rest, m + updates)
    requires v == Committed(all, trim, At(disk, k), k)
    ensures Progress(disk, all, trim, rest - {k}, m + updates[k := v])
    ensures v == At(disk, k) ==> Progress(disk, all, trim, rest - {k}, m + updates)
  {
    assert forall x :: At(m + updates[k := v], x) == if x == k then v else At(m + updates, x);
  }

  lemma SendOne(m: Disk, ws: seq<Write>, w: Write)
    ensures ApplyAll(m, ws + [w]) == ApplyAll(m, ws) + w.updates
    ensures ApplyAll(m, ws + [w]) + map[] == ApplyAll(m, ws + [w])
  {
    assert (ws + [w])[..|ws|] == ws;
  }

  // A commit being put together: the writes sent so far, the one being filled and its size,
  // the dentries still to visit and those removed from the cache.
  datatype Batch = Batch(sent: seq<Write>, updates: map<Key, Option<Blob>>, size: nat, rest: set<Key>, gone: set<Key>)

  // These updates are what the commit is to leave.
  ghost predicate Final(disk: Disk, all: map<Key, Dentry>, trim: set<Key>, updates: map<Key, Option<Blob>>) {
    forall k <- updates :: updates[k] == Committed(all, trim, At(disk, k), k)
  }

  ghost predicate Batching(disk: Disk, all: map<Key, Dentry>, trim: set<Key>, b: Batch) {
    && b.rest <= all.Keys && b.gone <= trim && (forall k <- trim :: k in b.rest || k in b.gone)
    && (forall j :: 0 <= j < |b.sent| ==> b.sent[j].header == None && Final(disk, all, trim, b.sent[j].updates))
    && Final(disk, all, trim, b.updates)
    && Progress(disk, all, trim, b.rest, ApplyAll(disk, b.sent) + b.updates)
  }

  lemma BatchSets(disk: Disk, all: map<Key, Dentry>, trim: set<Key>, b: Batch, k: Key, v: Option<Blob>, size: nat,
                  gone: set<Key>)
    requires Batching(disk, all, trim, b) && k in b.rest && v == Committed(all, trim, At(disk, k), k)
    requires gone == if k in trim then {k} else {}
    ensures Batching(disk, all, trim, Batch(b.sent, b.updates[k := v], size, b.rest - {k}, b.gone + gone))
  {
    Visited(disk, all, trim, b.rest, ApplyAll(disk, b.sent), b.updates, k, v);
  }

  lemma BatchSkips(disk: Disk, all: map<Key, Dentry>, trim: set<Key>, b: Batch, k: Key)
    requires Batching(disk, all, trim, b) && k in b.rest && k !in trim
    requires Committed(all, trim, At(disk, k), k) == At(disk, k)
    ensures Batching(disk, all, trim, b.(rest := b.rest - {k}))
  {
    Visited(disk, all, trim, b.rest, ApplyAll(disk, b.sent), b.updates, k, At(disk, k));
  }

  lemma BatchSends(disk: Disk, all: map<Key, Dentry>, trim: set<Key>, b: Batch)
    requires Batching(disk, all, trim, b)
    ensures Batching(disk, all, trim, b.(sent := b.sent + [Write(None, b.updates)], updates := map[], size := 0))
  {
    SendOne(disk, b.sent, Write(None, b.updates));
  }

  // ---- the sizes of the writes

  function EntrySize(k: Key, v: Option<Blob>): nat { |k| + if v.Some? then |v.value| else 0 }

  ghost function AnyKey(m: map<Key, Option<Blob>>): (k: Key)
    requires m.Keys != {}
    ensures k in m
  {
    var k :| k in m;
    k
  }

  // The bytes of all keys and blobs.
  ghost function SizeOf(m: map<Key, Option<Blob>>): nat
    decreases m.Keys
  {
    if m.Keys == {} then 0 else SizeOf(m - {AnyKey(m)}) + EntrySize(AnyKey(m), m[AnyKey(m)])
  }

  lemma {:induction false} SizeWithout(m: map<Key, Option<Blob>>, k: Key)
    requires k in m
    ensures SizeOf(m) == SizeOf(m - {k}) + EntrySize(k, m[k])
    decreases m.Keys
  {
    var a := AnyKey(m);
    if a != k {
      SizeWithout(m - {a}, k);
      SizeWithout(m - {k}, a);
      assert m - {a} - {k} == m - {k} - {a};
    }
  }

  // A write big enough to be sent, and not before: without its last entry it was not.
  ghost predicate Full(m: map<Key, Option<Blob>>, maxWrite: nat, trims: bool) {
    && maxWrite <= SizeOf(m)
    && (!trims ==> exists k <- m :: SizeOf(m - {k}) < maxWrite || m.Keys == {k})
  }

  // Everything sent was full, and what is left is not. Stale dentries do not count as a reason
  // to send.
  ghost predicate Sized(b: Batch, maxWrite: nat, trims: bool) {
    && (forall w <- b.sent :: Full(w.updates, maxWrite, trims))
    && b.size == SizeOf(b.updates) && b.updates.Keys !! b.rest
    && (!trims ==> b.size < maxWrite || b.updates == map[])
  }

  lemma SizedMore(b: Batch, k: Key, v: Option<Blob>, maxWrite: nat, trims: bool)
    requires Sized(b, maxWrite, trims) && k in b.rest
    ensures var more := b.updates[k := v];
      && SizeOf(more) == b.size + EntrySize(k, v) && more.Keys !! b.rest - {k}
      && (SizeOf(more) >= maxWrite ==> Full(more, maxWrite, trims))
  {
    var more := b.updates[k := v];
    SizeWithout(more, k);
    assert more - {k} == b.updates;
    assert b.updates == map[] ==> more.Keys == {k};
  }

  lemma SizedTrim(b: Batch, k: Key, maxWrite: nat)
    requires Sized(b, maxWrite, true) && k in b.rest
    ensures Sized(Batch(b.sent, b.updates[k := None], b.size + |k|, b.rest - {k}, b.gone + {k}), maxWrite, true)
  {
    SizedMore(b, k, None, maxWrite, true);
  }

  lemma SizedSet(b: Batch, k: Key, v: Option<Blob>, size: nat, maxWrite: nat, trims: bool)
    requires Sized(b, maxWrite, trims) && k in b.rest && size == b.size + EntrySize(k, v)
    ensures var more := b.updates[k := v];
      if size >= maxWrite
      then Sized(Batch(b.sent + [Write(None, more)], map[], 0, b.rest - {k}, b.gone + {}), maxWrite, trims)
      else Sized(Batch(b.sent, more, size, b.rest - {k}, b.gone + {}), maxWrite, trims)
  {
    SizedMore(b, k, v, maxWrite, trims);
  }

  // The writes of a commit: all but the last were full.
  ghost predicate SizedWrites(sent: seq<Write>, maxWrite: nat, trims: bool) {
    && sent != [] && (forall j :: 0 <= j < |sent| - 1 ==> Full(sent[j].updates, maxWrite, trims))
    && (!trims ==> SizeOf(sent[|sent| - 1].updates) < maxWrite || sent[|sent| - 1].updates == map[])
  }

  // One turn of the loop of _omap_commit.
  method VisitDentry(all: map<Key, Dentry>, trim: set<Key>, maxWrite: nat, b: Batch, k: Key, ghost disk: Disk)
    returns (b': Batch)
    requires (forall x <- trim :: x in all && !all[x].head) && Batching(disk, all, trim, b) && k in b.rest
    requires Sized(b, maxWrite, trim != {})
    ensures Batching(disk, all, trim, b') && b'.rest == b.rest - {k} && Sized(b', maxWrite, trim != {})
  {
    var dn := all[k];
    if !dn.head && k in trim {
      SizedTrim(b, k, maxWrite);
      BatchSets(disk, all, trim, b, k, None, b.size + |k|, {k});
      return Batch(b.sent, b.updates[k := None], b.size + |k|, b.rest - {k}, b.gone + {k});
    }
    if !dn.dirty && (!dn.fragmenting || dn.link.Null?) {
      BatchSkips(disk, all, trim, b, k);
      return b.(rest := b.rest - {k});
    }
    var v := if dn.link.Null? then None else Some(dn.link.blob);
    var size := b.size + |k| + if dn.link.Null? then 0 else |dn.link.blob|;
    SizedSet(b, k, v, size, maxWrite, trim != {});
    BatchSets(disk, all, trim, b, k, v, size, {});
    b' := Batch(b.sent, b.updates[k := v], size, b.rest - {k}, b.gone + {});
    if b'.size >= maxWrite {
      BatchSends(disk, all, trim, b');
      b' := b'.(sent := b'.sent + [Write(None, b'.updates)], updates := map[], size := 0);
    }
  }

  lemma BatchEnds(disk: Disk, all: map<Key, Dentry>, trim: set<Key>, b: Batch, version: nat)
    requires Batching(disk, all, trim, b) && b.rest == {}
    ensures var sent := b.sent + [Write(Some(version), b.updates)];
      && b.gone == trim && HeaderLast(sent, version) && Coherent(sent, ApplyAll(disk, sent))
      && forall k :: At(ApplyAll(disk, sent), k) == Committed(all, trim, At(disk, k), k)
  {
    var sent := b.sent + [Write(Some(version), b.updates)];
    SendOne(disk, b.sent, Write(Some(version), b.updates));
    assert Progress(disk, all, trim, {}, ApplyAll(disk, sent));
  }

  /** CDir::_omap_commit: the writes of one commit. Dentries are visited in any order; a
      batch is sent whenever it has grown past maxWrite, the header goes with the last
      one. The snapped dentries in trim are stale and leave the cache and the disk. */
  method OmapCommit(all: map<Key, Dentry>, trim: set<Key>, version: nat, maxWrite: nat, ghost disk: Disk)
    returns (items: map<Key, Dentry>, sent: seq<Write>)
    requires forall k <- trim :: k in all && !all[k].head
    ensures items == all - trim && HeaderLast(sent, version)
    ensures forall k :: At(ApplyAll(disk, sent), k) == Committed(all, trim, At(disk, k), k)
    ensures SizedWrites(sent, maxWrite, trim != {})
    ensures Saved(all, trim, disk, ApplyAll(disk, sent)) && Coherent(sent, ApplyAll(disk, sent))
  {
    var b := Batch([], map[], 0, all.Keys, {});
    while b.rest != {}
      invariant Batching(disk, all, trim, b) && Sized(b, maxWrite, trim != {})
      decreases b.rest
    {
      var k :| k in b.rest;
      b := VisitDentry(all, trim, maxWrite, b, k, disk);
    }
    BatchEnds(disk, all, trim, b, version);
    assert forall j :: 0 <= j < |b.sent| ==> b.sent[j] in b.sent;
    sent := b.sent + [Write(Some(version), b.updates)];
    items := all - b.gone;
  }

  // The four versions of a fragment; a commit is in flight while committed < committing.
  datatype Versions = Versions(current: nat, projected: nat, committing: nat, committed: nat)
  {
    predicate Ordered() { committed <= committing <= current <= projected }
    predicate InCommit() { committed < committing }
  }

  // The dentry and the disk (now, and once the writes sent are applied) agree as far
  // as the dentry's version says they must.
  predicate DentryOk(dn: Dentry, v: Versions, now: Option<Blob>, landed: Option<Blob>, header: nat) {
    && dn.version <= v.projected
    && (dn.dirty ==> v.committed < dn.version <= v.current)
    && (Clean(dn) || (v.InCommit() && Covered(dn) && dn.version <= v.committing) ==> landed == dn.OnDisk())
    && (!dn.fragmenting && dn.version <= header ==> now == dn.OnDisk())
    && (dn.link.Primary? ==>
          && dn.link.inodeVersion <= dn.version
          && (dn.link.inodeDirty ==> dn.dirty)
          && (dn.head && v.committed < dn.link.inodeVersion ==> dn.link.inodeDirty))
  }

  ghost predicate AllDentriesOk(items: map<Key, Dentry>, v: Versions, disk: Disk, landed: Disk, header: nat) {
    forall k <- items :: DentryOk(items[k], v, At(disk, k), At(landed, k), header)
  }

  // Nothing is on disk that a complete fragment does not know of.
  ghost predicate KnowsAll(items: map<Key, Dentry>, landed: Disk) {
    forall k :: At(landed, k).Some? ==> k in items
  }

  // Waiters wait for versions not committed yet, and no waiter sees two completions:
  // one that has seen a completion waits for the commit in flight.
  ghost predicate WaitersOk(waiting: map<nat, seq<Context>>, seen: map<nat, nat>, pins: nat, v: Versions) {
    && (forall w <- waiting :: waiting[w] != [] && v.committed < w <= v.current)
    && (waiting != map[] ==> v.InCommit())
    && pins == (if waiting == map[] then 0 else 1)
    && seen.Keys == waiting.Keys
    && (forall w <- seen :: seen[w] <= 1 && (seen[w] == 1 ==> w <= v.committing))
  }

  // waiting_for_commit[w].push_back(c)
  function Queued(waiting: map<nat, seq<Context>>, w: nat, c: Context): map<nat, seq<Context>> {
    waiting[w := (if w in waiting then waiting[w] else []) + [c]]
  }

  lemma QueueStep(waiting: map<nat, seq<Context>>, seen: map<nat, nat>, pins: nat, v: Versions, w: nat, c: Context,
                  u: Versions)
    requires WaitersOk(waiting, seen, pins, v) && v.Ordered() && v.committed < w <= v.current
    requires u == v.(committing := u.committing) && v.committing <= u.committing && u.InCommit()
    ensures WaitersOk(Queued(waiting, w, c), seen[w := if w in waiting then seen[w] else 0],
                      if waiting == map[] then pins + 1 else pins, u)
  {
  }

  // What fires: exactly the versions up to committed, oldest first.
  ghost predicate Fires(waiting: map<nat, seq<Context>>, committed: nat, fired: seq<nat>) {
    && (forall w <- fired :: w in waiting && w <= committed)
    && (forall i, j :: 0 <= i < j < |fired| ==> fired[i] < fired[j])
    && (forall w <- waiting :: w <= committed ==> w in fired)
  }

  // The contexts waiting for the given versions, in order.
  function Gather(waiting: map<nat, seq<Context>>, ws: seq<nat>): seq<Context>
    requires forall w <- ws :: w in waiting
  {
    if ws == [] then [] else Gather(waiting, ws[..|ws| - 1]) + waiting[ws[|ws| - 1]]
  }

  // The loop of _committed over the waiters: take those whose version is committed.
  method TakeWaiters(waiting: map<nat, seq<Context>>, committed: nat)
    returns (left: map<nat, seq<Context>>, fired: seq<nat>, queue: seq<Context>)
    ensures Fires(waiting, committed, fired) && queue == Gather(waiting, fired)
    ensures left == map w | w in waiting && w > committed :: waiting[w]
  {
    fired, queue := [], [];
    var keys := waiting.Keys;
    while keys != {}
      invariant keys <= waiting.Keys
      invariant forall w <- waiting :: w in keys || w in fired
      invariant forall w <- fired :: w in waiting && w <= committed
      invariant forall i, x :: 0 <= i < |fired| && x in keys ==> fired[i] < x
      invariant forall i, j :: 0 <= i < j < |fired| ==> fired[i] < fired[j]
      invariant queue == Gather(waiting, fired)
    {
      var w := Smallest(keys);
      if w > committed {
        break;
      }
      GatherOne(waiting, fired, w);
      queue := queue + waiting[w];
      fired := fired + [w];
      keys := keys - {w};
    }
    left := map w | w in keys :: waiting[w];
  }

  lemma GatherOne(waiting: map<nat, seq<Context>>, ws: seq<nat>, w: nat)
    requires (forall x <- ws :: x in waiting) && w in waiting
    ensures Gather(waiting, ws + [w]) == Gather(waiting, ws) + waiting[w]
  {
    assert (ws + [w])[..|ws|] == ws;
  }

  // Everyone waiting for one of these versions is called.
  lemma {:induction false} GatherHas(waiting: map<nat, seq<Context>>, ws: seq<nat>, w: nat, c: Context)
    requires (forall x <- ws :: x in waiting) && w in ws && c in waiting[w]
    ensures c in Gather(waiting, ws)
  {
    if w != ws[|ws| - 1] { GatherHas(waiting, ws[..|ws| - 1], w, c); }
  }

  // The versions left have seen one more completion.
  ghost function SeenAgain(seen: map<nat, nat>, left: map<nat, seq<Context>>): map<nat, nat>
    requires left.Keys <= seen.Keys
  {
    map w | w in left :: seen[w] + 1
  }

  // After a completion the waiters left have seen one completion, and a commit of a
  // version none of them is beyond is in flight.
  lemma WaitersStep(waiting: map<nat, seq<Context>>, seen: map<nat, nat>, pins: nat, v: Versions,
                    left: map<nat, seq<Context>>, u: Versions)
    requires WaitersOk(waiting, seen, pins, v) && v.InCommit()
    requires left == map w | w in waiting && w > v.committing :: waiting[w]
    requires u == v.(committed := v.committing, committing := if left == map[] then v.committing else v.current)
    requires v.committing <= v.current
    ensures left.Keys <= seen.Keys && WaitersOk(left, SeenAgain(seen, left),
                      if waiting != map[] && left == map[] then pins - 1 else pins, u)
    ensures forall w <- left :: v.committing < w <= u.committing
  {
    assert waiting == map[] ==> left == map[];
    if left != map[] { var w :| w in left; assert u.committed < w <= u.current; }
  }

  lemma SettleStep(items: map<Key, Dentry>, v: Versions, disk: Disk, header: nat)
    requires v.InCommit() && v.Ordered() && header == v.committing && AllDentriesOk(items, v, disk, disk, header)
    ensures AllDentriesOk(map k | k in items :: Settled(items[k], v.committing), v.(committed := v.committing), disk,
                          disk, header)
  {
    var after := map k | k in items :: Settled(items[k], v.committing);
    forall k | k in after ensures DentryOk(after[k], v.(committed := v.committing), At(disk, k), At(disk, k), header) {
      assert DentryOk(items[k], v, At(disk, k), At(disk, k), header);
    }
  }

  // The loop of _committed over the dentries.
  method SettleDentries(all: map<Key, Dentry>, committed: nat) returns (items: map<Key, Dentry>)
    requires forall k <- all :: all[k].link.Primary? && all[k].head && committed < all[k].link.inodeVersion ==>
      all[k].link.inodeDirty
    ensures items == SettledAll(all, committed)
  {
    items := all;
    var rest := all.Keys;
    while rest != {}
      invariant rest <= items.Keys == all.Keys
      invariant forall k <- items :: items[k] == if k in rest then all[k] else Settled(all[k], committed)
    {
      var k :| k in rest;
      rest := rest - {k};
      var dn := items[k];
      var link := dn.link;
      if link.Primary? {
        if committed >= link.inodeVersion {
          if link.inodeDirty { link := link.(inodeDirty := false); }
        } else {
          assert link.inodeDirty || !dn.head;
        }
      }
      var dirt := dn.dirty;
      if committed >= dn.version {
        if dirt { dirt := false; }
      }
      items := items[k := dn.(link := link, dirty := dirt)];
    }
  }

  // Sending the batch of a commit keeps the dentries in step with what will land.
  lemma CommitStep(before: map<Key, Dentry>, trim: set<Key>, v: Versions, disk: Disk, landed: Disk, header: nat)
    requires v.Ordered() && !v.InCommit() && AllDentriesOk(before, v, disk, disk, header)
    requires forall k :: At(landed, k) == Committed(before, trim, At(disk, k), k)
    ensures AllDentriesOk(before - trim, v.(committing := v.current), disk, landed, header)
    ensures KnowsAll(before, disk) ==> KnowsAll(before - trim, landed)
  {
    forall k | k in before - trim
      ensures DentryOk(before[k], v.(committing := v.current), At(disk, k), At(landed, k), header)
    { assert DentryOk(before[k], v, At(disk, k), At(disk, k), header); }
  }

  // The fragment's object in the store: what is on disk, the header there, the writes
  // sent but not applied yet, and the version the outstanding completion will report.
  // Writes to one object are applied in the order they are sent.
  datatype Store = Store(disk: Disk, header: nat, sent: seq<Write>, inFlight: Option<nat>)
  {
    // The disk once every write sent so far is applied.
    function Landed(): Disk { ApplyAll(disk, sent) }
  }

  // Versions, flags and the store.
  predicate StoreOk(v: Versions, inCommit: bool, dirty: bool, store: Store) {
    && v.Ordered()
    && (inCommit <==> v.InCommit())
    && store.inFlight == (if inCommit then Some(v.committing) else None)
    && (store.sent != [] ==> inCommit && HeaderLast(store.sent, v.committing) && store.header <= v.committed)
    && (store.sent == [] && inCommit ==> store.header == v.committing)
    && (!inCommit ==> store.header <= v.committed)
    && (!dirty ==> v.committed == v.current)
  }

  ghost predicate ItemsOk(items: map<Key, Dentry>, v: Versions, complete: bool, store: Store) {
    && AllDentriesOk(items, v, store.disk, store.Landed(), store.header)
    && (complete ==> KnowsAll(items, store.Landed()))
    && Coherent(store.sent, store.Landed())
  }

  // A commit may begin: its writes are under way, and will leave on disk what they should.
  ghost predicate Begins(begin: bool, items: map<Key, Dentry>, v: Versions, store: Store, trim: set<Key>,
                         items': map<Key, Dentry>, v': Versions, store': Store) {
    if !begin then items' == items && v' == v && store' == store
    else
      && items' == items - trim && v' == v.(committing := v.current)
      && store' == Store(store.disk, store.header, store'.sent, Some(v.current)) && HeaderLast(store'.sent, v.current)
      && forall k :: At(store'.Landed(), k) == Committed(items, trim, At(store.disk, k), k)
  }

  // Snapped dentries of the fragment.
  predicate Snapped(items: map<Key, Dentry>, trim: set<Key>) {
    forall k <- trim :: k in items && !items[k].head
  }

  lemma ChangeStep(items: map<Key, Dentry>, v: Versions, complete: bool, store: Store, k: Key, pv: nat, link: Linkage)
    requires ItemsOk(items, v, complete, store) && k in items
    requires v.Ordered() && v.current < pv <= v.projected && store.header <= v.committing
    ensures ItemsOk(items[k := Changed(items[k], pv, link)], v.(current := pv), complete, store)
  {
    forall x | x in items && x != k
      ensures DentryOk(items[x], v.(current := pv), At(store.disk, x), At(store.Landed(), x), store.header)
    { assert DentryOk(items[x], v, At(store.disk, x), At(store.Landed(), x), store.header); }
  }

  lemma PinStep(items: map<Key, Dentry>, v: Versions, store: Store)
    requires AllDentriesOk(items, v, store.disk, store.Landed(), store.header)
    ensures AllDentriesOk(map k | k in items :: items[k].(fragmenting := true), v, store.disk, store.Landed(),
                          store.header)
  {
    var after := map k | k in items :: items[k].(fragmenting := true);
    forall k | k in after ensures DentryOk(after[k], v, At(store.disk, k), At(store.Landed(), k), store.header) {
      assert DentryOk(items[k], v, At(store.disk, k), At(store.Landed(), k), store.header);
    }
  }

  lemma ApplyStep(items: map<Key, Dentry>, v: Versions, complete: bool, store: Store)
    requires ItemsOk(items, v, complete, store) && store.sent != []
    requires v.Ordered() && v.InCommit() && HeaderLast(store.sent, v.committing) && store.header <= v.committed
    ensures var w := store.sent[0];
      ItemsOk(items, v, complete, Store(Apply(store.disk, w), if w.header.Some? then w.header.value else store.header,
                                        store.sent[1..], store.inFlight))
  {
    var w, before, final := store.sent[0], store.disk, store.Landed();
    ApplyFirst(before, store.sent);
    var now, header := Apply(before, w), if w.header.Some? then w.header.value else store.header;
    forall k | k in items ensures DentryOk(items[k], v, At(now, k), At(final, k), header) {
      assert DentryOk(items[k], v, At(before, k), At(final, k), store.header);
      assert At(now, k) == if k in w.updates then At(final, k) else At(before, k);
    }
  }

  class Fragment {
    var v: Versions      // fnode.version, projected_version, committing_version, committed_version
    var inCommit: bool   // STATE_COMMITTING
    var dirty: bool      // STATE_DIRTY
    var complete: bool   // STATE_COMPLETE
    var items: map<Key, Dentry>
    var store: Store
    var waiting: map<nat, seq<Context>> // waiting_for_commit
    var commitPins: nat  // auth pins taken by commit()

    // How many completions each waiting version has seen go by.
    ghost var seen: map<nat, nat>

    ghost predicate Valid()
      reads this
    {
      && StoreOk(v, inCommit, dirty, store)
      && ItemsOk(items, v, complete, store)
      && WaitersOk(waiting, seen, commitPins, v)
    }

    // A fragment read from disk, with some or all of its dentries in cache.
    constructor FromDisk(disk: Disk, header: nat, cached: set<Key>)
      ensures Valid() && store == Store(disk, header, [], None) && v == Versions(header, header, header, header)
      ensures !dirty && waiting == map[] && items.Keys == cached
      ensures complete <==> forall k <- disk :: disk[k].Some? ==> k in cached
    {
      v := Versions(header, header, header, header);
      inCommit, dirty, complete := false, false, forall k <- disk :: disk[k].Some? ==> k in cached;
      items := map k | k in cached ::
        Dentry(header, false, false, true, if At(disk, k).Some? then Remote(At(disk, k).value) else Null);
      waiting, commitPins, seen := map[], 0, map[];
      store := Store(disk, header, [], None);
    }

    // CDir::pre_dirty
    method PreDirty(min: nat) returns (pv: nat)
      requires Valid()
      modifies `v
      ensures Valid() && v == old(v).(projected := pv)
      ensures pv == if min > old(v).projected then min + 1 else old(v).projected + 1
    {
      pv := v.projected;
      if min > pv { pv := min; }
      pv := pv + 1;
      v := v.(projected := pv);
    }

    // CDir::mark_dirty
    method MarkDirty(pv: nat)
      requires Valid() && v.current < pv <= v.projected
      modifies `v, `dirty
      ensures Valid() && v == old(v).(current := pv) && dirty
    {
      v := v.(current := pv);
      dirty := true;
    }

    // A dentry gets a new linkage at a version handed out by pre_dirty; the fragment is
    // dirtied with it.
    method ChangeDentry(k: Key, pv: nat, link: Linkage)
      requires Valid() && k in items && v.current < pv <= v.projected
      modifies `v, `dirty, `items
      ensures Valid() && v == old(v).(current := pv) && dirty
      ensures items == old(items)[k := Changed(old(items)[k], pv, link)]
    {
      ChangeStep(items, v, complete, store, k, pv, link);
      items := items[k := Changed(items[k], pv, link)];
      v := v.(current := pv);
      dirty := true;
    }

    // CDir::add_null_dentry for a name known not to exist; pinned is STATE_DNPINNEDFRAG
    method AddNull(k: Key, head: bool, pinned: bool)
      requires Valid() && complete && k !in items
      modifies `items
      ensures Valid() && items == old(items)[k := Dentry(v.projected, false, pinned, head, Null)]
    {
      items := items[k := Dentry(v.projected, false, pinned, head, Null)];
    }

    // MDCache::fragment_mark_and_complete: the fragment is about to be split or merged.
    method PinDentries()
      requires Valid()
      modifies `items
      ensures Valid() && items == map k | k in old(items) :: old(items)[k].(fragmenting := true)
    {
      PinStep(items, v, store);
      items := map k | k in items :: items[k].(fragmenting := true);
    }

    // CDir::remove_dentry for a clean dentry; forgetting an existing name makes the
    // fragment incomplete.
    method DropDentry(k: Key)
      requires Valid() && k in items && Clean(items[k])
      modifies `items, `complete
      ensures Valid() && items == old(items) - {k}
      ensures complete == (old(complete) && old(items)[k].link.Null?)
    {
      if !items[k].link.Null? { complete := false; }
      items := items - {k};
    }

    // CDir::_commit
    method CommitUpTo(want: nat, trim: set<Key>, maxWrite: nat)
      requires StoreOk(v, inCommit, dirty, store) && ItemsOk(items, v, complete, store)
      requires want <= v.current && Snapped(items, trim)
      modifies `v, `inCommit, `items, `store
      ensures StoreOk(v, inCommit, dirty, store) && ItemsOk(items, v, complete, store)
      ensures Begins(old(v).committing < want && !old(inCommit), old(items), old(v), old(store), trim, items, v, store)
      ensures v.committed < want ==> inCommit
    {
      // the version is on disk
      if v.committed >= want {
        return;
      }
      // it is on its way
      if v.committing >= want {
        assert inCommit;
        return;
      }
      // the commit in flight comes first
      if v.committing > v.committed {
        return;
      }
      ghost var before := items;
      var sent;
      items, sent := OmapCommit(items, trim, v.current, maxWrite, store.disk);
      CommitStep(before, trim, v, store.disk, ApplyAll(store.disk, sent), store.header);
      store := store.(sent := sent, inFlight := Some(v.current));
      v := v.(committing := v.current);
      if !inCommit { inCommit := true; }
    }

    // CDir::commit
    method CommitWith(want: nat, c: Context, trim: set<Key>, maxWrite: nat)
      requires Valid() && v.committed < Wanted(want, v.current) <= v.current && Snapped(items, trim)
      modifies `v, `inCommit, `items, `store, `waiting, `commitPins, `seen
      ensures Valid() && inCommit && commitPins == 1
      ensures waiting == Queued(old(waiting), Wanted(want, v.current), c)
      ensures Begins(!old(inCommit), old(items), old(v), old(store), trim, items, v, store)
    {
      var w := if want == 0 then v.current else want;
      QueueStep(waiting, seen, commitPins, v, w, c, v.(committing := if inCommit then v.committing else v.current));
      if waiting == map[] { commitPins := commitPins + 1; }
      seen := seen[w := if w in waiting then seen[w] else 0];
      waiting := Queued(waiting, w, c);
      CommitUpTo(w, trim, maxWrite);
    }

    // The object store applies the next write.
    method ApplyNext()
      requires Valid() && store.sent != []
      modifies `store
      ensures Valid() && store.sent == old(store).sent[1..] && store.inFlight == old(store).inFlight
      ensures store.disk == Apply(old(store).disk, old(store).sent[0])
      ensures store.header == HeaderAfter(old(store).header, old(store).sent[..1])
    {
      ApplyStep(items, v, complete, store);
      var w := store.sent[0];
      store := Store(Apply(store.disk, w), if w.header.Some? then w.header.value else store.header,
                     store.sent[1..], store.inFlight);
      assert old(store).sent[..1][..0] == [];
    }

    // CDir::_committed, without the write errors: every write of the batch is applied.
    method Completed(trim: set<Key>, maxWrite: nat) returns (fired: seq<nat>, queue: seq<Context>)
      requires Valid() && inCommit && store.sent == [] && Snapped(items, trim)
      modifies this
      ensures Valid() && Begins(waiting != map[], SettledAll(old(items), old(v).committing),
        old(v).(committed := old(v).committing), old(store).(inFlight := None), trim, items, v, store)
      ensures complete == old(complete) && dirty == (old(dirty) && v.committed != v.current)
      ensures Fires(old(waiting), v.committed, fired) && queue == Gather(old(waiting), fired)
      ensures waiting == map w | w in old(waiting) && w > v.committed :: old(waiting)[w]
      // what is still awaited is covered by the commit just started
      ensures forall w <- waiting :: w <= v.committing
    {
      NoteCommitted();
      fired, queue := FireWaiters(trim, maxWrite, old(v));
    }

    // The first half of _committed: take note of the version, and of what it makes clean.
    method NoteCommitted()
      requires StoreOk(v, inCommit, dirty, store) && ItemsOk(items, v, complete, store) && inCommit && store.sent == []
      modifies `v, `inCommit, `store, `dirty, `items
      ensures StoreOk(v, inCommit, dirty, store) && ItemsOk(items, v, complete, store)
      ensures !inCommit && v == old(v).(committed := old(v).committing) && store == old(store).(inFlight := None)
      ensures dirty == (old(dirty) && v.committed != v.current)
      ensures items == SettledAll(old(items), v.committed)
    {
      var done := store.inFlight.value;
      assert done > v.committed;
      assert done <= v.committing;
      SettleStep(items, v, store.disk, store.header);
      v := v.(committed := done);
      if v.committing == v.committed { inCommit := false; }
      store := store.(inFlight := None);
      if v.committed == v.current { dirty := false; }
      items := SettleDentries(items, v.committed);
    }

    // Start the next commit if anyone still waits.
    method CommitFor(versions: set<nat>, trim: set<Key>, maxWrite: nat)
      requires StoreOk(v, inCommit, dirty, store) && ItemsOk(items, v, complete, store) && !inCommit
      requires (forall w <- versions :: v.committed < w <= v.current) && Snapped(items, trim)
      modifies `v, `inCommit, `items, `store
      ensures StoreOk(v, inCommit, dirty, store) && ItemsOk(items, v, complete, store)
      ensures Begins(versions != {}, old(items), old(v), old(store), trim, items, v, store)
    {
      if versions != {} {
        var w := Smallest(versions);
        CommitUpTo(w, trim, maxWrite);
      }
    }

    // The second half of _committed: call the waiters, start the next commit for the
    // rest, and unpin with the last waiter.
    method FireWaiters(trim: set<Key>, maxWrite: nat, ghost was: Versions)
      returns (fired: seq<nat>, queue: seq<Context>)
      requires StoreOk(v, inCommit, dirty, store) && ItemsOk(items, v, complete, store) && !inCommit
      requires was.InCommit() && v == was.(committed := was.committing) && WaitersOk(waiting, seen, commitPins, was)
      requires Snapped(items, trim)
      modifies `v, `inCommit, `items, `store, `waiting, `commitPins, `seen
      ensures Valid() && Begins(waiting != map[], old(items), old(v), old(store), trim, items, v, store)
      ensures Fires(old(waiting), v.committed, fired) && queue == Gather(old(waiting), fired)
      ensures waiting == map w | w in old(waiting) && w > v.committed :: old(waiting)[w]
      ensures forall w <- waiting :: w <= v.committing
    {
      var left, pins;
      left, fired, queue, pins := ServeWaiters(waiting, seen, commitPins, v.committed, was);
      ghost var again := SeenAgain(seen, left);
      CommitFor(left.Keys, trim, maxWrite);
      waiting, commitPins, seen := left, pins, again;
    }
  }

  // The waiters of _committed, and the pin that the last of them gives back.
  method ServeWaiters(waiting: map<nat, seq<Context>>, ghost seen: map<nat, nat>, pins: nat, committed: nat,
                      ghost was: Versions)
    returns (left: map<nat, seq<Context>>, fired: seq<nat>, queue: seq<Context>, pins': nat)
    requires WaitersOk(waiting, seen, pins, was) && was.InCommit() && committed == was.committing <= was.current
    ensures Fires(waiting, was.committing, fired) && queue == Gather(waiting, fired)
    ensures left == map w | w in waiting && w > was.committing :: waiting[w]
    ensures left.Keys <= seen.Keys && WaitersOk(left, SeenAgain(seen, left), pins', Next(was, left.Keys))
    ensures forall w <- left :: was.committing < w <= was.current
  {
    left, fired, queue := TakeWaiters(waiting, committed);
    WaitersStep(waiting, seen, pins, was, left, Next(was, left.Keys));
    pins' := if waiting != map[] && left == map[] then pins - 1 else pins;
  }

  // The versions once a commit is complete and the next one, if anyone waits, has begun.
  function Next(was: Versions, waiting: set<nat>): Versions {
    was.(committed := was.committing, committing := if waiting == {} then was.committing else was.current)
  }

  /** A fragment that is clean and complete, and not being refragmented, is on disk as it is. */
  lemma CleanIsOnDisk(f: Fragment)
    requires f.Valid() && !f.dirty && f.complete && (forall k <- f.items :: !f.items[k].fragmenting)
    ensures forall k :: At(f.store.disk, k) == if k in f.items then f.items[k].OnDisk() else None
  {
    var disk := f.store.disk;
    assert f.store.Landed() == disk;
    forall k ensures At(disk, k) == if k in f.items then f.items[k].OnDisk() else None {
      if k in f.items { assert DentryOk(f.items[k], f.v, At(disk, k), At(disk, k), f.store.header); }
    }
  }

  /** Whatever header is on disk at any moment, every dentry as of that version is on disk. */
  lemma HeaderCoversDentries(f: Fragment, k: Key)
    requires f.Valid() && k in f.items && !f.items[k].fragmenting && f.items[k].version <= f.store.header
    ensures At(f.store.disk, k) == f.items[k].OnDisk()
  {
    assert DentryOk(f.items[k], f.v, At(f.store.disk, k), At(f.store.Landed(), k), f.store.header);
  }
}
