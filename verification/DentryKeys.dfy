/** The keys of directory entries: their text form on disk, their order, and how lookup uses
    it. */
module DentryKeys {
  import opened Options

  type Snap = x: nat | x < 0x1_0000_0000_0000_0000

  const NO_SNAP: Snap := 0xFFFF_FFFF_FFFF_FFFE

  datatype Key = Key(name: string, snap: Snap)

  // ---- text form

  function Digit(d: nat): (c: char)
    requires d < 16
    ensures IsHex(c) && Value(c) == d
  {
    if d < 10 then '0' + d as char else 'a' + (d - 10) as char
  }

  predicate IsHex(c: char) { '0' <= c <= '9' || 'a' <= c <= 'f' }

  function Value(c: char): nat
    requires IsHex(c)
  {
    if c <= '9' then (c - '0') as nat else (c - 'a') as nat + 10
  }

  function Hex(n: nat): string {
    if n < 16 then [Digit(n)] else Hex(n / 16) + [Digit(n % 16)]
  }

  // How many hexadecimal digits a text begins with.
  function HexLength(s: string): (n: nat)
    ensures n <= |s| && (forall i :: 0 <= i < n ==> IsHex(s[i])) && (n < |s| ==> !IsHex(s[n]))
  {
    if s != "" && IsHex(s[0]) then 1 + HexLength(s[1..]) else 0
  }

  function Number(s: string): nat
    requires forall i :: 0 <= i < |s| ==> IsHex(s[i])
  {
    if s == "" then 0 else Number(s[..|s| - 1]) * 16 + Value(s[|s| - 1])
  }

  lemma {:induction false} HexRoundTrip(n: nat)
    ensures Hex(n) != "" && (forall i :: 0 <= i < |Hex(n)| ==> IsHex(Hex(n)[i])) && Number(Hex(n)) == n
  {
    if n >= 16 {
      HexRoundTrip(n / 16);
      assert Hex(n)[..|Hex(n)| - 1] == Hex(n / 16);
    } else {
      assert Hex(n)[..0] == "";
    }
  }

  // What follows the underscore.
  function Suffix(snap: Snap): string { if snap == NO_SNAP then "head" else Hex(snap) }

  function SnapOf(suffix: string): Snap {
    if suffix == "head" then NO_SNAP
    else
      var x := Number(suffix[..HexLength(suffix)]);
      if x < 0x1_0000_0000_0000_0000 then x else 0xFFFF_FFFF_FFFF_FFFF
  }

  lemma SuffixRoundTrip(snap: Snap)
    ensures SnapOf(Suffix(snap)) == snap && forall i :: 0 <= i < |Suffix(snap)| ==> Suffix(snap)[i] != '_'
  {
    HexRoundTrip(snap);
    if snap != NO_SNAP {
      var s := Suffix(snap);
      assert IsHex(s[0]) && !IsHex("head"[0]);
      assert s[..HexLength(s)] == s;
    }
  }

  function Encode(k: Key): string { k.name + "_" + Suffix(k.snap) }

  // The last underscore in a text, if there is one.
  function LastUnderscore(s: string): (r: Option<nat>)
    ensures match r
      case None => forall i :: 0 <= i < |s| ==> s[i] != '_'
      case Some(p) => p < |s| && s[p] == '_' && forall i :: p < i < |s| ==> s[i] != '_'
  {
    if s == "" then None
    else if s[|s| - 1] == '_' then Some(|s| - 1)
    else LastUnderscore(s[..|s| - 1])
  }

  // decode_helper; a key without an underscore fails its assert.
  function Decode(key: string): Option<Key> {
    var i := LastUnderscore(key);
    if i.None? then None else Some(Key(key[..i.value], SnapOf(key[i.value + 1..])))
  }

  lemma {:induction false} SplitAtLast(name: string, suffix: string)
    requires forall i :: 0 <= i < |suffix| ==> suffix[i] != '_'
    ensures LastUnderscore(name + "_" + suffix) == Some(|name|)
  {
    var key := name + "_" + suffix;
    if suffix != "" {
      SplitAtLast(name, suffix[..|suffix| - 1]);
      assert key[..|key| - 1] == name + "_" + suffix[..|suffix| - 1];
    }
  }

  /** Whatever the name, underscores included, a key comes back from its text. */
  lemma KeyRoundTrip(k: Key)
    ensures Decode(Encode(k)) == Some(k)
  {
    var key := Encode(k);
    SuffixRoundTrip(k.snap);
    SplitAtLast(k.name, Suffix(k.snap));
    assert key[..|k.name|] == k.name && key[|k.name| + 1..] == Suffix(k.snap);
  }

  /** Different keys have different texts. */
  lemma KeysDiffer(a: Key, b: Key)
    requires Encode(a) == Encode(b)
    ensures a == b
  {
    KeyRoundTrip(a);
    KeyRoundTrip(b);
  }

  // ---- order

  // strcmp(a, b) < 0
  predicate Before(a: string, b: string) {
    b != "" && (a == "" || a[0] < b[0] || (a[0] == b[0] && Before(a[1..], b[1..])))
  }

  lemma {:induction false} BeforeTransitive(a: string, b: string, c: string)
    requires Before(a, b) && Before(b, c)
    ensures Before(a, c)
  {
    if a != "" && a[0] == b[0] == c[0] { BeforeTransitive(a[1..], b[1..], c[1..]); }
  }

  lemma {:induction false} BeforeTotal(a: string, b: string)
    ensures (Before(a, b) ==> a != b && !Before(b, a)) && (Before(a, b) || a == b || Before(b, a))
  {
    if a != "" && b != "" {
      BeforeTotal(a[1..], b[1..]);
      assert a == [a[0]] + a[1..] && b == [b[0]] + b[1..];
    }
  }

  // By name, then by snapshot.
  predicate Less(a: Key, b: Key) { Before(a.name, b.name) || (a.name == b.name && a.snap < b.snap) }

  /** The keys are totally ordered. */
  lemma LessTotal(a: Key, b: Key, c: Key)
    ensures (Less(a, b) ==> a != b && !Less(b, a)) && (Less(a, b) || a == b || Less(b, a))
    ensures Less(a, b) && Less(b, c) ==> Less(a, c)
  {
    BeforeTotal(a.name, b.name);
    BeforeTotal(b.name, c.name);
    if Before(a.name, b.name) && Before(b.name, c.name) { BeforeTransitive(a.name, b.name, c.name); }
  }

  // ---- lookup

  // An entry is there for the snapshots from first to last.
  datatype Dentry = Dentry(name: string, first: Snap, last: Snap)
  {
    function At(): Key { Key(name, last) }
    predicate Covers(n: string, s: Snap) { name == n && first <= s <= last }
  }

  // The items of a directory: in the order of their keys, and no two with the same name are
  // there for the same snapshot.
  ghost predicate Directory(items: seq<Dentry>) {
    && (forall i :: 0 <= i < |items| ==> items[i].first <= items[i].last)
    && (forall i, j :: 0 <= i < j < |items| ==> Less(items[i].At(), items[j].At()))
    && (forall i, j :: 0 <= i < j < |items| ==> Disjoint(items[i], items[j]))
  }

  predicate Disjoint(a: Dentry, b: Dentry) { a.name == b.name ==> a.last < b.first || b.last < a.first }

  // items.lower_bound
  function LowerBound(items: seq<Dentry>, k: Key): (i: nat)
    ensures i <= |items| && (forall j :: 0 <= j < i ==> Less(items[j].At(), k))
    ensures (i < |items| ==> !Less(items[i].At(), k))
  {
    if items == [] || !Less(items[0].At(), k) then 0 else 1 + LowerBound(items[1..], k)
  }

  // CDir::lookup
  function Lookup(items: seq<Dentry>, name: string, snap: Snap): Option<Dentry> {
    var i := LowerBound(items, Key(name, snap));
    if i < |items| && items[i].name == name && items[i].first <= snap then Some(items[i]) else None
  }

  // Looking at every item.
  function Scan(items: seq<Dentry>, name: string, snap: Snap): Option<Dentry> {
    if items == [] then None else if items[0].Covers(name, snap) then Some(items[0]) else Scan(items[1..], name, snap)
  }

  lemma {:induction false} ScanFinds(items: seq<Dentry>, name: string, snap: Snap)
    ensures match Scan(items, name, snap)
      case None => forall i :: 0 <= i < |items| ==> !items[i].Covers(name, snap)
      case Some(d) => d in items && d.Covers(name, snap)
  {
    if items != [] && !items[0].Covers(name, snap) { ScanFinds(items[1..], name, snap); }
  }

  // No item beyond the bound covers it if the item at the bound does not.
  lemma CoveredAtBound(items: seq<Dentry>, name: string, snap: Snap, j: nat)
    requires Directory(items) && j < |items| && items[j].Covers(name, snap)
    ensures LowerBound(items, Key(name, snap)) == j
  {
    var k, i := Key(name, snap), LowerBound(items, Key(name, snap));
    if j < i {
      LessTotal(items[j].At(), k, k);
    } else if i < j {
      var a, c := items[i].At(), items[j].At();
      BeforeTotal(name, a.name);
      LessTotal(a, c, k);
      LessTotal(k, a, c);
    }
  }

  /** One probe finds exactly what a scan of the whole directory finds. */
  lemma LookupIsScan(items: seq<Dentry>, name: string, snap: Snap)
    requires Directory(items)
    ensures Lookup(items, name, snap) == Scan(items, name, snap)
  {
    ScanFinds(items, name, snap);
    var i := LowerBound(items, Key(name, snap));
    match Scan(items, name, snap) {
      case Some(d) =>
        var j :| 0 <= j < |items| && items[j] == d;
        CoveredAtBound(items, name, snap, j);
      case None =>
        assert i < |items| ==> !items[i].Covers(name, snap);
    }
  }
}
