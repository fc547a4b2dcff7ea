/** frag_t: a fragment of a directory is a prefix of the 24-bit hash of a name. */
module Frags {
  const HASH_BITS := 24

  function Pow2(n: nat): (p: nat)
    ensures p > 0
  {
    if n == 0 then 1 else 2 * Pow2(n - 1)
  }

  lemma {:induction false} Pow2Add(a: nat, b: nat)
    ensures Pow2(a + b) == Pow2(a) * Pow2(b)
  {
    if b > 0 {
      Pow2Add(a, b - 1);
      assert Pow2(a + b) == 2 * Pow2(a + (b - 1));
      assert Pow2(a) * (2 * Pow2(b - 1)) == 2 * (Pow2(a) * Pow2(b - 1));
    } else {
      assert Pow2(a) * 1 == Pow2(a);
    }
  }

  // x & mask and x >> shift, for a mask of high bits: the part of x below d, and how many
  // times d goes into the rest.
  function Low(x: nat, d: nat): (r: nat)
    requires d > 0
    ensures r < d && r <= x
  {
    if x < d then x else Low(x - d, d)
  }

  function High(x: nat, d: nat): nat
    requires d > 0
  {
    if x < d then 0 else 1 + High(x - d, d)
  }

  lemma {:induction false} Euclid(x: nat, d: nat)
    requires d > 0
    ensures x == d * High(x, d) + Low(x, d)
  {
    if x >= d {
      Euclid(x - d, d);
      assert d * (1 + High(x - d, d)) == d + d * High(x - d, d);
    }
  }

  lemma {:induction false} MulBound(d: nat, k: int)
    requires k >= 1
    ensures d * k >= d
  {
  }

  lemma {:induction false} SplitIsUnique(x: nat, d: nat, q: nat, r: nat)
    requires d > 0 && x == d * q + r && r < d
    ensures High(x, d) == q && Low(x, d) == r
  {
    Euclid(x, d);
    var a := High(x, d);
    assert d * (q - a) == d * q - d * a && d * (a - q) == d * a - d * q;
    if a < q { MulBound(d, q - a); assert false; }
    if q < a { MulBound(d, a - q); assert false; }
  }

  lemma {:induction false} BelowProduct(c: nat, n: nat, b: nat, r: nat)
    requires b < n && r < c
    ensures c * b + r < c * n && 0 < c * n && c * b >= 0
  {
    MulBound(c, n - b);
    assert c * (n - b) == c * n - c * b;
  }

  // A number in parts: c * n * a + c * b + r.
  lemma {:induction false} InParts(x: nat, c: nat, n: nat, a: nat, b: nat, r: nat)
    requires b < n && r < c && x == c * n * a + (c * b + r)
    ensures 0 < c * n && Low(x, c) == r && Low(x, c * n) == c * b + r
    ensures Low(x - r, c * n) == c * b && High(c * b, c) == b
  {
    BelowProduct(c, n, b, r);
    BelowProduct(c, n, b, 0);
    SplitIsUnique(x, c * n, a, c * b + r);
    assert x - r == c * n * a + c * b;
    SplitIsUnique(x - r, c * n, a, c * b);
    Distribute(c, n, a, b);
    SplitIsUnique(x, c, n * a + b, r);
    SplitIsUnique(c * b, c, b, 0);
  }

  lemma {:induction false} Distribute(c: nat, n: nat, a: nat, b: nat)
    ensures c * (n * a + b) == c * n * a + c * b && n * a + b >= 0
  {
    assert c * (n * a) == c * n * a;
  }

  lemma {:induction false} PartsOf(x: nat, c: nat, n: nat) returns (a: nat, b: nat, r: nat)
    requires c > 0 && n > 0
    ensures b < n && r < c && x == c * n * a + (c * b + r)
  {
    Euclid(x, c);
    var q := High(x, c);
    Euclid(q, n);
    a, b, r := High(q, n), Low(q, n), Low(x, c);
    Distribute(c, n, a, b);
  }

  // The top `bits` bits of a hash are given, the rest is free: the hashes in the fragment
  // are value, ..., value + Span() - 1.
  datatype Frag = Frag(value: nat, bits: nat)
  {
    function Span(): (n: nat)
      requires bits <= HASH_BITS
      ensures n > 0
    {
      Pow2(HASH_BITS - bits)
    }
    predicate Valid() { bits <= HASH_BITS && Low(value, Span()) == 0 }
    // (h & mask()) == value(): the mask clears the low bits.
    predicate Contains(h: nat)
      requires bits <= HASH_BITS
    {
      h - Low(h, Span()) == value
    }
    // make_child(i, nb)
    function Child(i: nat, nb: nat): (f: Frag)
      requires bits + nb <= HASH_BITS
      ensures f.bits == bits + nb
    {
      Frag(value + Pow2(HASH_BITS - bits - nb) * i, bits + nb)
    }
  }

  // The fragment with the given number of bits that a hash falls into.
  function Pick(h: nat, bits: nat): (f: Frag)
    requires bits <= HASH_BITS
    ensures f.bits == bits
  {
    Frag(h - Low(h, Pow2(HASH_BITS - bits)), bits)
  }

  // (sub.value() & (sub.mask() ^ f.mask())) >> sub.mask_shift(): the bits of the value
  // between the two prefixes, as a number.
  function Index(f: Frag, sub: Frag): nat
    requires f.bits <= sub.bits <= HASH_BITS
  {
    High(Low(sub.value, f.Span()), sub.Span())
  }

  // The parts of a hash: r below c, and the b-th multiple of c below c * n.
  lemma {:induction false} HashParts(h: nat, c: nat, n: nat, cn: nat) returns (b: nat, cb: nat, r: nat)
    requires c > 0 && n > 0 && cn == c * n
    ensures cn > 0 && b < n && cb == c * b && r == Low(h, c) && cb + r <= h
    ensures Low(h, cn) == cb + r && Low(h - r, cn) == cb && High(cb, c) == b
  {
    var a;
    a, b, r := PartsOf(h, c, n);
    cb := c * b;
    InParts(h, c, n, a, b, r);
  }

  // The same for a hash in the b-th part of a multiple of c * n.
  lemma {:induction false} PartOfHash(h: nat, c: nat, n: nat, cn: nat, value: nat, b: nat, cb: nat)
    requires c > 0 && b < n && cn == c * n && cb == c * b
    requires cn > 0 && Low(value, cn) == 0 && h - Low(h, c) == value + cb
    ensures Low(h, cn) == cb + Low(h, c) && Low(h - Low(h, c), cn) == cb && High(cb, c) == b
  {
    Euclid(value, cn);
    InParts(h, c, n, High(value, cn), b, Low(h, c));
  }

  /** The index the code computes for a hash of the fragment is in range, and names the
      child that contains the hash. */
  lemma {:induction false} IndexNamesChild(f: Frag, nb: nat, h: nat)
    requires f.bits + nb <= HASH_BITS && f.Contains(h)
    ensures var sub := Pick(h, f.bits + nb);
      Index(f, sub) < Pow2(nb) && f.Child(Index(f, sub), nb) == sub && sub.Contains(h)
  {
    var sub := Pick(h, f.bits + nb);
    SpanSplits(f, sub, nb);
    var b, cb, r := HashParts(h, sub.Span(), Pow2(nb), f.Span());
    assert Index(f, sub) == b;
  }

  /** No other child contains the hash. */
  lemma {:induction false} ChildIsUnique(f: Frag, nb: nat, i: nat, h: nat)
    requires f.Valid() && f.bits + nb <= HASH_BITS && i < Pow2(nb) && f.Child(i, nb).Contains(h)
    ensures f.Contains(h) && Index(f, Pick(h, f.bits + nb)) == i
  {
    var sub := f.Child(i, nb);
    SpanSplits(f, sub, nb);
    ChildValue(f, i, nb);
    PartOfHash(h, sub.Span(), Pow2(nb), f.Span(), f.value, i, sub.value - f.value);
    assert Pick(h, f.bits + nb) == sub;
    assert Low(sub.value, f.Span()) == sub.value - f.value;
  }

  lemma {:induction false} ChildValue(f: Frag, i: nat, nb: nat)
    requires f.bits + nb <= HASH_BITS
    ensures var sub := f.Child(i, nb); sub.value >= f.value && sub.value - f.value == sub.Span() * i
  {
  }

  lemma {:induction false} SpanSplits(f: Frag, sub: Frag, nb: nat)
    requires f.bits + nb == sub.bits <= HASH_BITS
    ensures f.Span() == sub.Span() * Pow2(nb)
  {
    Pow2Add(HASH_BITS - sub.bits, nb);
    assert HASH_BITS - sub.bits + nb == HASH_BITS - f.bits;
  }
}
