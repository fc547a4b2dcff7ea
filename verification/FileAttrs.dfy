/** How the client merges the file attributes that metadata servers send it, in whatever order
    and however often. */
module FileAttrs {
  // A value and the number that says which of two values is newer; within one number the
  // greater value counts.
  datatype Stamp = Stamp(number: nat, value: nat)

  predicate AtMost(a: Stamp, b: Stamp) { a.number < b.number || (a.number == b.number && a.value <= b.value) }

  function Max(a: Stamp, b: Stamp): (m: Stamp)
    ensures (m == a || m == b) && AtMost(a, m) && AtMost(b, m)
  {
    if AtMost(a, b) then b else a
  }

  function MaxOver(a: Stamp, bs: seq<Stamp>): Stamp {
    if bs == [] then a else Max(MaxOver(a, bs[..|bs| - 1]), bs[|bs| - 1])
  }

  lemma {:induction false} MaxOverIsGreatest(a: Stamp, bs: seq<Stamp>)
    ensures var m := MaxOver(a, bs); (m == a || m in bs) && AtMost(a, m) && forall b <- bs :: AtMost(b, m)
  {
    if bs != [] {
      MaxOverIsGreatest(a, bs[..|bs| - 1]);
      assert bs == bs[..|bs| - 1] + [bs[|bs| - 1]];
    }
  }

  /** The order of updates does not matter, nor how often one comes. */
  lemma OrderDoesNotMatter(a: Stamp, bs: seq<Stamp>, cs: seq<Stamp>)
    requires forall x :: x in bs <==> x in cs
    ensures MaxOver(a, bs) == MaxOver(a, cs)
  {
    MaxOverIsGreatest(a, bs);
    MaxOverIsGreatest(a, cs);
  }

  datatype Attrs = Attrs(truncateSeq: nat, size: nat, reported: nat, truncateSize: nat,
                         warpSeq: nat, mtime: nat, atime: nat, ctime: nat)
  {
    function Size(): Stamp { Stamp(truncateSeq, size) }
    function Mtime(): Stamp { Stamp(warpSeq, mtime) }
    function Atime(): Stamp { Stamp(warpSeq, atime) }
    function Ctime(): Stamp { Stamp(0, ctime) }
    function Times(): (nat, nat, nat, nat) { (warpSeq, mtime, atime, ctime) }
  }

  datatype Update = Update(truncateSeq: nat, size: nat, truncateSize: nat, warpSeq: nat, mtime: nat, atime: nat,
                           ctime: nat)
  {
    function Size(): Stamp { Stamp(truncateSeq, size) }
    function Mtime(): Stamp { Stamp(warpSeq, mtime) }
    function Atime(): Stamp { Stamp(warpSeq, atime) }
    function Ctime(): Stamp { Stamp(0, ctime) }
    function Times(): (nat, nat, nat, nat) { (warpSeq, mtime, atime, ctime) }
  }

  class File {
    const isFile: bool
    var a: Attrs

    constructor (isFile: bool, a: Attrs)
      ensures this.isFile == isFile && this.a == a
    {
      this.isFile, this.a := isFile, a;
    }

    /** update_inode_file_bits; held says that a write or exclusive capability is held. */
    method UpdateFileBits(u: Update, held: bool)
      modifies this
      ensures a.Size() == Max(old(a).Size(), u.Size())
      ensures a.reported == if a.Size() == old(a).Size() then old(a.reported) else u.size
      ensures a.truncateSize == if isFile && u.truncateSeq >= old(a.truncateSeq) then u.truncateSize
        else old(a.truncateSize)
      ensures held ==> a.Mtime() == Max(old(a).Mtime(), u.Mtime()) && a.Atime() == Max(old(a).Atime(), u.Atime())
      ensures held ==> a.ctime == if u.ctime > old(a.ctime) then u.ctime else old(a.ctime)
      ensures !held ==> a.Times() == if u.warpSeq >= old(a.warpSeq) then u.Times() else old(a).Times()
    {
      if u.truncateSeq > a.truncateSeq || (u.truncateSeq == a.truncateSeq && u.size > a.size) {
        a := a.(size := u.size, reported := u.size);
        if u.truncateSeq != a.truncateSeq {
          a := a.(truncateSeq := u.truncateSeq);
        }
      }
      if u.truncateSeq >= a.truncateSeq && a.truncateSize != u.truncateSize {
        if isFile { a := a.(truncateSize := u.truncateSize); }
      }
      if held {
        if u.ctime > a.ctime { a := a.(ctime := u.ctime); }
        if u.warpSeq > a.warpSeq {
          a := a.(mtime := u.mtime, atime := u.atime, warpSeq := u.warpSeq);
        } else if u.warpSeq == a.warpSeq {
          if u.mtime > a.mtime { a := a.(mtime := u.mtime); }
          if u.atime > a.atime { a := a.(atime := u.atime); }
        }
      } else if u.warpSeq >= a.warpSeq {
        a := a.(ctime := u.ctime, mtime := u.mtime, atime := u.atime, warpSeq := u.warpSeq);
      }
    }

    /** Any updates, while capabilities are held all along or not at all. */
    method UpdateAll(us: seq<Update>, held: bool)
      modifies this
      ensures a.Size() == MaxOver(old(a).Size(), Sizes(us))
      ensures held ==>
        a.Mtime() == MaxOver(old(a).Mtime(), Mtimes(us)) && a.Atime() == MaxOver(old(a).Atime(), Atimes(us))
      ensures held ==> a.Ctime() == MaxOver(old(a).Ctime(), Ctimes(us))
    {
      for i := 0 to |us|
        invariant a.Size() == MaxOver(old(a).Size(), Sizes(us)[..i])
        invariant held ==>
          a.Mtime() == MaxOver(old(a).Mtime(), Mtimes(us)[..i]) && a.Atime() == MaxOver(old(a).Atime(), Atimes(us)[..i])
        invariant held ==> a.Ctime() == MaxOver(old(a).Ctime(), Ctimes(us)[..i])
      {
        assert Sizes(us)[..i + 1][..i] == Sizes(us)[..i];
        assert Mtimes(us)[..i + 1][..i] == Mtimes(us)[..i];
        assert Atimes(us)[..i + 1][..i] == Atimes(us)[..i] && Ctimes(us)[..i + 1][..i] == Ctimes(us)[..i];
        UpdateFileBits(us[i], held);
      }
      assert Sizes(us)[..|us|] == Sizes(us) && Mtimes(us)[..|us|] == Mtimes(us) && Atimes(us)[..|us|] == Atimes(us);
      assert Ctimes(us)[..|us|] == Ctimes(us);
    }
  }

  function Sizes(us: seq<Update>): (s: seq<Stamp>)
    ensures |s| == |us|
  {
    seq(|us|, i requires 0 <= i < |us| => us[i].Size())
  }

  function Mtimes(us: seq<Update>): (s: seq<Stamp>)
    ensures |s| == |us|
  {
    seq(|us|, i requires 0 <= i < |us| => us[i].Mtime())
  }

  function Atimes(us: seq<Update>): (s: seq<Stamp>)
    ensures |s| == |us|
  {
    seq(|us|, i requires 0 <= i < |us| => us[i].Atime())
  }

  function Ctimes(us: seq<Update>): (s: seq<Stamp>)
    ensures |s| == |us|
  {
    seq(|us|, i requires 0 <= i < |us| => us[i].Ctime())
  }

  /** Two clients that hear the same updates, each in its own order and with its own repeats,
      agree on size and times. */
  method TwoListeners(f: File, g: File, us: seq<Update>, ws: seq<Update>)
    requires f != g && f.a == g.a && forall u :: u in us <==> u in ws
    modifies f, g
    ensures f.a.Size() == g.a.Size() && f.a.Mtime() == g.a.Mtime() && f.a.Atime() == g.a.Atime()
    ensures f.a.ctime == g.a.ctime
  {
    SameStamps(us, ws);
    SameStamps(ws, us);
    OrderDoesNotMatter(f.a.Size(), Sizes(us), Sizes(ws));
    OrderDoesNotMatter(f.a.Mtime(), Mtimes(us), Mtimes(ws));
    OrderDoesNotMatter(f.a.Atime(), Atimes(us), Atimes(ws));
    OrderDoesNotMatter(f.a.Ctime(), Ctimes(us), Ctimes(ws));
    f.UpdateAll(us, true);
    g.UpdateAll(ws, true);
  }

  lemma SameStamps(us: seq<Update>, ws: seq<Update>)
    requires forall u <- us :: u in ws
    ensures (forall s <- Sizes(us) :: s in Sizes(ws)) && (forall s <- Mtimes(us) :: s in Mtimes(ws))
    ensures (forall s <- Atimes(us) :: s in Atimes(ws)) && (forall s <- Ctimes(us) :: s in Ctimes(ws))
  {
    forall i | 0 <= i < |us|
      ensures Sizes(us)[i] in Sizes(ws) && Mtimes(us)[i] in Mtimes(ws)
      ensures Atimes(us)[i] in Atimes(ws) && Ctimes(us)[i] in Ctimes(ws)
    {
      assert us[i] in ws;
      var j :| 0 <= j < |ws| && ws[j] == us[i];
      assert Sizes(ws)[j] == Sizes(us)[i] && Mtimes(ws)[j] == Mtimes(us)[i] && Atimes(ws)[j] == Atimes(us)[i];
      assert Ctimes(ws)[j] == Ctimes(us)[i];
    }
  }
}
