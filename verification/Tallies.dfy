/** What a directory fragment counts about its dentries. */
module Tallies {
  datatype Key = Key(name: string, last: nat)

  // nest_info_t and frag_info_t, without their times (which are maxima, not sums)
  datatype Nest = Nest(rbytes: int, rfiles: int, rsubdirs: int, rsnaprealms: int)
  {
    function Plus(o: Nest): Nest {
      Nest(rbytes + o.rbytes, rfiles + o.rfiles, rsubdirs + o.rsubdirs, rsnaprealms + o.rsnaprealms)
    }
    function Minus(o: Nest): Nest {
      Nest(rbytes - o.rbytes, rfiles - o.rfiles, rsubdirs - o.rsubdirs, rsnaprealms - o.rsnaprealms)
    }
  }

  datatype Counts = Counts(nfiles: int, nsubdirs: int)
  {
    function Plus(o: Counts): Counts { Counts(nfiles + o.nfiles, nsubdirs + o.nsubdirs) }
    function Minus(o: Counts): Counts { Counts(nfiles - o.nfiles, nsubdirs - o.nsubdirs) }
  }

  // num_head_items, num_head_null, num_snap_items, num_snap_null, num_dirty
  datatype Numbers = Numbers(headItems: int, headNull: int, snapItems: int, snapNull: int, dirty: int)
  {
    function Plus(o: Numbers): Numbers {
      Numbers(headItems + o.headItems, headNull + o.headNull, snapItems + o.snapItems, snapNull + o.snapNull,
              dirty + o.dirty)
    }
  }

  // nested_auth_pins and dir_auth_pins
  datatype Pins = Pins(nested: int, dir: int)
  {
    function Plus(o: Pins): Pins { Pins(nested + o.nested, dir + o.dir) }
    function Minus(o: Pins): Pins { Pins(nested - o.nested, dir - o.dir) }
  }

  // Everything a fragment counts about its dentries.
  datatype Tally = Tally(numbers: Numbers, fragstat: Counts, rstat: Nest, pins: Pins)
  {
    function Plus(o: Tally): Tally {
      Tally(numbers.Plus(o.numbers), fragstat.Plus(o.fragstat), rstat.Plus(o.rstat), pins.Plus(o.pins))
    }
  }

  const NEST0 := Nest(0, 0, 0, 0)
  const COUNTS0 := Counts(0, 0)
  const NUMBERS0 := Numbers(0, 0, 0, 0, 0)
  const PINS0 := Pins(0, 0)
  const TALLY0 := Tally(NUMBERS0, COUNTS0, NEST0, PINS0)

  datatype Linkage = Null | Remote(isDir: bool) | Primary(isDir: bool, accounted: Nest)

  datatype Dentry = Dentry(hash: nat, head: bool, link: Linkage, dirty: bool, pins: Pins)

  // What steal_dentry adds to the fragment that takes the dentry.
  function Weigh(dn: Dentry): Tally { Tally(NumbersOf(dn), FragstatOf(dn), RstatOf(dn), dn.pins) }

  function NumbersOf(dn: Dentry): Numbers {
    var d := if dn.dirty then 1 else 0;
    if dn.link.Null? then (if dn.head then Numbers(0, 1, 0, 0, d) else Numbers(0, 0, 0, 1, d))
    else if dn.head then Numbers(1, 0, 0, 0, d)
    else Numbers(0, 0, 1, 0, d)
  }

  function FragstatOf(dn: Dentry): Counts {
    if dn.head && !dn.link.Null? then (if dn.link.isDir then Counts(0, 1) else Counts(1, 0)) else COUNTS0
  }

  function RstatOf(dn: Dentry): Nest {
    if dn.head && dn.link.Primary? then dn.link.accounted else NEST0
  }

  // The sum of the weights of all values of a map.
  ghost function Sum(m: map<Key, Dentry>, w: Dentry -> Tally): Tally {
    if m.Keys == {} then TALLY0 else Sum(m - {Any(m)}, w).Plus(w(m[Any(m)]))
  }

  ghost function Any(m: map<Key, Dentry>): (k: Key)
    requires m.Keys != {}
    ensures k in m
  {
    var k :| k in m;
    k
  }

  lemma {:induction false} PlusRotates(a: Tally, b: Tally, c: Tally)
    ensures a.Plus(b).Plus(c) == a.Plus(c).Plus(b)
  {
  }

  // Any entry can be counted last.
  lemma {:induction false} SumWithout(m: map<Key, Dentry>, w: Dentry -> Tally, k: Key)
    requires k in m
    ensures Sum(m, w) == Sum(m - {k}, w).Plus(w(m[k]))
    decreases m.Keys
  {
    var x := Any(m);
    if x != k {
      var both := m - {x, k};
      SumWithout(m - {x}, w, k);
      SumWithout(m - {k}, w, x);
      assert (m - {x}) - {k} == both && (m - {k}) - {x} == both;
      PlusRotates(Sum(both, w), w(m[k]), w(m[x]));
    }
  }

  lemma {:induction false} SumWith(m: map<Key, Dentry>, w: Dentry -> Tally, k: Key, dn: Dentry)
    requires k !in m
    ensures Sum(m[k := dn], w) == Sum(m, w).Plus(w(dn))
  {
    var n := m[k := dn];
    assert n - {k} == m;
    SumWithout(n, w, k);
  }

  lemma {:induction false} PlusAssociates(a: Tally, b: Tally, c: Tally)
    ensures a.Plus(b).Plus(c) == a.Plus(b.Plus(c)) && a.Plus(TALLY0) == a
  {
  }

  lemma {:induction false} SumOfUnion(a: map<Key, Dentry>, b: map<Key, Dentry>, w: Dentry -> Tally)
    requires a.Keys !! b.Keys
    ensures Sum(a + b, w) == Sum(a, w).Plus(Sum(b, w))
    decreases b.Keys
  {
    if b.Keys == {} {
      assert a + b == a;
      PlusAssociates(Sum(a, w), TALLY0, TALLY0);
    } else {
      var k := Any(b);
      UnionMinus(a, b, k);
      SumOfUnion(a, b - {k}, w);
      SumWithout(a + b, w, k);
      PlusAssociates(Sum(a, w), Sum(b - {k}, w), w(b[k]));
    }
  }

  lemma {:induction false} UnionMinus(a: map<Key, Dentry>, b: map<Key, Dentry>, k: Key)
    requires a.Keys !! b.Keys && k in b
    ensures k in a + b && (a + b)[k] == b[k] && (a + b) - {k} == a + (b - {k})
    ensures a.Keys !! (b - {k}).Keys && (b - {k}).Keys < b.Keys
  {
  }

  // The exact tally of a set of dentries.
  ghost function Total(m: map<Key, Dentry>): Tally { Sum(m, Weigh) }

  lemma {:induction false} TotalWith(m: map<Key, Dentry>, k: Key, dn: Dentry)
    requires k !in m
    ensures Total(m[k := dn]) == Total(m).Plus(Weigh(dn))
  {
    SumWith(m, Weigh, k, dn);
  }

  lemma {:induction false} TotalWithout(m: map<Key, Dentry>, k: Key)
    requires k in m
    ensures Total(m) == Total(m - {k}).Plus(Weigh(m[k]))
  {
    SumWithout(m, Weigh, k);
  }

  lemma {:induction false} TotalOfUnion(a: map<Key, Dentry>, b: map<Key, Dentry>)
    requires a.Keys !! b.Keys
    ensures Total(a + b) == Total(a).Plus(Total(b))
  {
    SumOfUnion(a, b, Weigh);
  }

  // The dentries of a fragment and what it counts about them.
  datatype Body = Body(items: map<Key, Dentry>, tally: Tally)

  const EMPTY := Body(map[], TALLY0)

  // The fragment that steals a dentry counts everything; the one robbed of it keeps only
  // its pin counters right.
  function Stolen(b: Body, k: Key, dn: Dentry): Body {
    Body(b.items[k := dn], b.tally.Plus(Weigh(dn)))
  }

  function Robbed(b: Body, k: Key): Body
    requires k in b.items
  {
    Body(b.items - {k}, b.tally.(pins := b.tally.pins.Minus(b.items[k].pins)))
  }

  lemma {:induction false} StolenIsExact(b: Body, k: Key, dn: Dentry)
    requires Exact(b) && k !in b.items
    ensures Exact(Stolen(b, k, dn))
  {
    TotalWith(b.items, k, dn);
  }

  lemma {:induction false} RobbedKeepsPins(b: Body, k: Key)
    requires b.tally.pins == Total(b.items).pins && k in b.items
    ensures Robbed(b, k).tally.pins == Total(Robbed(b, k).items).pins
  {
    TotalWithout(b.items, k);
    PinsCarry(b, k, Total(b.items), Total(b.items - {k}));
  }

  lemma {:induction false} PinsCarry(b: Body, k: Key, t: Tally, u: Tally)
    requires k in b.items && t == u.Plus(Weigh(b.items[k])) && b.tally.pins == t.pins
    ensures Robbed(b, k).tally.pins == u.pins
  {
  }

  // What the fragment counts is exactly what it holds.
  ghost predicate Exact(b: Body) { b.tally == Total(b.items) }

  // A property of fragments that stealing a new dentry keeps.
  ghost predicate KeptByStealing(good: Body -> bool) {
    forall b: Body, k: Key, dn: Dentry :: good(b) && k !in b.items ==> good(Stolen(b, k, dn))
  }

  lemma {:induction false} StealingKeepsExact(good: Body -> bool)
    requires forall b :: good(b) == Exact(b)
    ensures KeptByStealing(good) && good(EMPTY)
  {
    forall b: Body, k: Key, dn: Dentry | good(b) && k !in b.items ensures good(Stolen(b, k, dn)) {
      StolenIsExact(b, k, dn);
    }
  }

  // The pin counters are exact, whatever else the fragment counts.
  ghost predicate PinsExact(b: Body) { b.tally.pins == Total(b.items).pins }

  // A property of fragments that losing a dentry keeps, and that ends with no pins.
  ghost predicate KeptByRobbing(good: Body -> bool) {
    && (forall b: Body, k: Key :: good(b) && k in b.items ==> good(Robbed(b, k)))
    && (forall b: Body :: good(b) && b.items == map[] ==> b.tally.pins == PINS0)
  }

  lemma {:induction false} RobbingKeepsPinsExact(good: Body -> bool)
    requires forall b :: good(b) == PinsExact(b)
    ensures KeptByRobbing(good)
  {
    forall b: Body, k: Key | good(b) && k in b.items ensures good(Robbed(b, k)) { RobbedKeepsPins(b, k); }
  }

  // Child i has taken its share of the dentries that have left the fragment so far, given
  // the child each dentry belongs to.
  ghost predicate HasShare(b: Body, all: map<Key, Dentry>, left: set<Key>, home: map<Key, nat>, i: nat) {
    && (forall k <- b.items :: k in all && k !in left && k in home && home[k] == i && b.items[k] == all[k])
    && (forall k <- all :: k !in left && k in home && home[k] == i ==> k in b.items)
  }

  lemma {:induction false} ShareStep(b: Body, all: map<Key, Dentry>, left: set<Key>, home: map<Key, nat>, i: nat,
                                     k: Key)
    requires HasShare(b, all, left, home, i) && k in left && k in all && k in home
    ensures home[k] == i ==> k !in b.items && HasShare(Stolen(b, k, all[k]), all, left - {k}, home, i)
    ensures home[k] != i ==> HasShare(b, all, left - {k}, home, i)
  {
  }
}
