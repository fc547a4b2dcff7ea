/** Expansion of $variables in configuration options: each option is expanded in place, and
    the options it refers to are expanded, also in place, on the way. */
module ConfigExpand {
  import opened Options

  predicate IsNameChar(c: char) { 'a' <= c <= 'z' || c == '_' }

  // Where the run of name characters from here ends.
  function Span(text: string, from: nat): (e: nat)
    requires from <= |text|
    ensures from <= e <= |text| && (forall i :: from <= i < e ==> IsNameChar(text[i]))
    ensures (e < |text| ==> !IsNameChar(text[e]))
    decreases |text| - from
  {
    if from < |text| && IsNameChar(text[from]) then Span(text, from + 1) else from
  }

  // A variable, and where it ends.
  datatype Ref = Ref(name: string, end: nat)

  // A non-empty run of name characters.
  predicate IsName(name: string) { name != "" && forall i :: 0 <= i < |name| ==> IsNameChar(name[i]) }

  // From s on the text reads ${name}, or $name with no name character after it.
  predicate Reads(text: string, s: nat, ref: Ref) {
    && IsName(ref.name) && s + 1 < ref.end <= |text|
    && (|| text[s..ref.end] == "${" + ref.name + "}"
        || (text[s..ref.end] == "$" + ref.name && (ref.end < |text| ==> !IsNameChar(text[ref.end]))))
  }

  /** The variable that a dollar sign begins, if it is one; there is no other reading. */
  function Parse(text: string, s: nat): (r: Option<Ref>)
    requires s < |text| && text[s] == '$'
    ensures r.Some? ==> s + 1 < r.value.end <= |text| && r.value.name != ""
  {
    var braces := s + 1 < |text| && text[s + 1] == '{';
    var e := Span(text, if braces then s + 2 else s + 1);
    if braces then
      if e < |text| && text[e] == '}' && e > s + 2 then Some(Ref(text[s + 2..e], e + 1)) else None
    else
      if e > s + 1 then Some(Ref(text[s + 1..e], e)) else None
  }

  lemma {:induction false} SpanIs(text: string, from: nat, e: nat)
    requires from <= e <= |text| && (forall i :: from <= i < e ==> IsNameChar(text[i]))
    requires (e < |text| ==> !IsNameChar(text[e]))
    ensures Span(text, from) == e
  {
  }

  /** Parse finds exactly the readings there are. */
  lemma {:induction false} ParseIsReading(text: string, s: nat, ref: Ref)
    requires s < |text| && text[s] == '$'
    ensures Parse(text, s) == Some(ref) <==> Reads(text, s, ref)
  {
    if Reads(text, s, ref) {
      ReadingIsParsed(text, s, ref);
    } else if Parse(text, s) == Some(ref) {
      ParsedIsReading(text, s);
    }
  }

  lemma {:induction false} ReadingIsParsed(text: string, s: nat, ref: Ref)
    requires s < |text| && text[s] == '$' && Reads(text, s, ref)
    ensures Parse(text, s) == Some(ref)
  {
    var t, n := text[s..ref.end], |ref.name|;
    if t == "${" + ref.name + "}" {
      assert t[1] == '{' && t[2 + n] == '}' && t[2..2 + n] == ref.name;
      assert text[s + 1] == t[1] && text[s + 2 + n] == t[2 + n] && text[s + 2..s + 2 + n] == t[2..2 + n];
      forall i | s + 2 <= i < s + 2 + n ensures IsNameChar(text[i]) { assert text[i] == ref.name[i - s - 2]; }
      SpanIs(text, s + 2, s + 2 + n);
    } else {
      assert t[1..] == ref.name && text[s + 1] == t[1] == ref.name[0] && text[s + 1..s + 1 + n] == t[1..];
      forall i | s + 1 <= i < s + 1 + n ensures IsNameChar(text[i]) { assert text[i] == ref.name[i - s - 1]; }
      SpanIs(text, s + 1, s + 1 + n);
    }
  }

  lemma {:induction false} ParsedIsReading(text: string, s: nat)
    requires s < |text| && text[s] == '$' && Parse(text, s).Some?
    ensures Reads(text, s, Parse(text, s).value)
  {
    var ref := Parse(text, s).value;
    if text[s + 1] == '{' {
      assert text[s..ref.end] == "${" + ref.name + "}";
    } else {
      assert text[s..ref.end] == "$" + ref.name;
    }
  }

  predicate HasDollar(text: string) { '$' in text }

  // The metavariables and the options that are not strings, as text; these have fixed values.
  datatype Fixed = Fixed(meta: map<string, string>, other: map<string, string>)

  function FixedValue(fixed: Fixed, name: string): Option<string> {
    if name in fixed.meta then Some(fixed.meta[name]) else if name in fixed.other then Some(fixed.other[name]) else None
  }

  type Values = map<string, string>

  predicate IsOption(fixed: Fixed, vals: Values, name: string) { name !in fixed.meta && name in vals }

  // ---- pure substitution

  /** From position s on, every variable stands for a known thing; an option stands for one of
      rank below n. */
  ghost predicate Resolves(fixed: Fixed, vals: Values, rank: string -> nat, text: string, s: nat, n: nat)
    requires s <= |text|
    decreases |text| - s
  {
    s == |text|
    || (if text[s] != '$' then Resolves(fixed, vals, rank, text, s + 1, n)
        else
          var ref := Parse(text, s);
          && ref.Some?
          && (if IsOption(fixed, vals, ref.value.name) then rank(ref.value.name) < n
              else FixedValue(fixed, ref.value.name).Some?)
          && Resolves(fixed, vals, rank, text, ref.value.end, n))
  }

  // Options refer only to options of lower rank, so there is no cycle.
  ghost predicate Acyclic(fixed: Fixed, vals: Values, rank: string -> nat) {
    forall o <- vals :: Resolves(fixed, vals, rank, vals[o], 0, rank(o))
  }

  ghost predicate PlainFixed(fixed: Fixed) {
    (forall m <- fixed.meta :: !HasDollar(fixed.meta[m])) && (forall m <- fixed.other :: !HasDollar(fixed.other[m]))
  }

  /** The text from position s on with every variable replaced by what it means. */
  ghost function Subst(fixed: Fixed, vals: Values, rank: string -> nat, text: string, s: nat, n: nat): string
    requires Acyclic(fixed, vals, rank) && s <= |text| && Resolves(fixed, vals, rank, text, s, n)
    decreases n, |text| - s
  {
    if s == |text| then ""
    else if text[s] != '$' then [text[s]] + Subst(fixed, vals, rank, text, s + 1, n)
    else
      var ref := Parse(text, s).value;
      var value :=
        if IsOption(fixed, vals, ref.name) then Meaning(fixed, vals, rank, ref.name)
        else FixedValue(fixed, ref.name).value;
      value + Subst(fixed, vals, rank, text, ref.end, n)
  }

  ghost function Meaning(fixed: Fixed, vals: Values, rank: string -> nat, o: string): string
    requires Acyclic(fixed, vals, rank) && o in vals
    decreases rank(o), |vals[o]| + 1
  {
    Subst(fixed, vals, rank, vals[o], 0, rank(o))
  }

  // A text without a dollar sign means itself.
  lemma {:induction false} PlainMeansItself(fixed: Fixed, vals: Values, rank: string -> nat, text: string, s: nat,
                                            n: nat)
    requires Acyclic(fixed, vals, rank) && s <= |text| && Resolves(fixed, vals, rank, text, s, n) && !HasDollar(text)
    ensures Subst(fixed, vals, rank, text, s, n) == text[s..]
    decreases |text| - s
  {
    if s < |text| {
      PlainMeansItself(fixed, vals, rank, text, s + 1, n);
      assert text[s..] == [text[s]] + text[s + 1..];
    }
  }

  /** What a text means has no dollar sign left in it. */
  lemma {:induction false} SubstIsPlain(fixed: Fixed, vals: Values, rank: string -> nat, text: string, s: nat, n: nat)
    requires Acyclic(fixed, vals, rank) && PlainFixed(fixed) && s <= |text| && Resolves(fixed, vals, rank, text, s, n)
    ensures !HasDollar(Subst(fixed, vals, rank, text, s, n))
    decreases n, |text| - s
  {
    if s < |text| {
      if text[s] != '$' {
        SubstIsPlain(fixed, vals, rank, text, s + 1, n);
      } else {
        var ref := Parse(text, s).value;
        SubstIsPlain(fixed, vals, rank, text, ref.end, n);
        if IsOption(fixed, vals, ref.name) {
          SubstIsPlain(fixed, vals, rank, vals[ref.name], 0, rank(ref.name));
        }
      }
    }
  }

  /** What a text means does not depend on how the options are ranked. */
  lemma {:induction false} SubstUnique(fixed: Fixed, vals: Values, rank: string -> nat, rank': string -> nat,
                                       text: string, s: nat, n: nat, n': nat)
    requires Acyclic(fixed, vals, rank) && Acyclic(fixed, vals, rank') && s <= |text|
    requires Resolves(fixed, vals, rank, text, s, n) && Resolves(fixed, vals, rank', text, s, n')
    ensures Subst(fixed, vals, rank, text, s, n) == Subst(fixed, vals, rank', text, s, n')
    decreases n, |text| - s
  {
    if s < |text| {
      if text[s] != '$' {
        SubstUnique(fixed, vals, rank, rank', text, s + 1, n, n');
      } else {
        var ref := Parse(text, s).value;
        SubstUnique(fixed, vals, rank, rank', text, ref.end, n, n');
        if IsOption(fixed, vals, ref.name) {
          SubstUnique(fixed, vals, rank, rank', vals[ref.name], 0, rank(ref.name), rank'(ref.name));
        }
      }
    }
  }

  // ---- texts that refer to no option, known or unknown variables

  // From position s on, no variable is an option.
  ghost predicate NoOption(fixed: Fixed, options: set<string>, text: string, s: nat)
    requires s <= |text|
    decreases |text| - s
  {
    s == |text| || (
      var known := Known(fixed, text, s);
      && (text[s] == '$' && Parse(text, s).Some? ==>
            Parse(text, s).value.name in fixed.meta || Parse(text, s).value.name !in options)
      && NoOption(fixed, options, text, if known.Some? then known.value.end else s + 1))
  }

  // The variable with a fixed value that begins here, if there is one.
  function Known(fixed: Fixed, text: string, s: nat): (r: Option<Ref>)
    requires s < |text|
    ensures r.Some? ==> s < r.value.end <= |text| && FixedValue(fixed, r.value.name).Some?
  {
    if text[s] == '$' && Parse(text, s).Some? && FixedValue(fixed, Parse(text, s).value.name).Some? then Parse(text, s)
    else None
  }

  /** Known variables are replaced; unknown ones and lone dollar signs stay as they are. */
  ghost function Filled(fixed: Fixed, text: string, s: nat): string
    requires s <= |text|
    decreases |text| - s
  {
    if s == |text| then ""
    else
      var known := Known(fixed, text, s);
      if known.Some? then FixedValue(fixed, known.value.name).value + Filled(fixed, text, known.value.end)
      else [text[s]] + Filled(fixed, text, s + 1)
  }

  // What one turn makes of the text at s, given what the options are now.
  ghost predicate Turned(fixed: Fixed, vals: Values, text: string, s: nat, end: nat, value: string)
    requires s < |text|
  {
    var ref := if text[s] == '$' then Parse(text, s) else None;
    if ref.Some? && ref.value.name in fixed.meta then end == ref.value.end && value == fixed.meta[ref.value.name]
    else if ref.Some? && ref.value.name in vals then end == ref.value.end && value == vals[ref.value.name]
    else if ref.Some? && ref.value.name in fixed.other then end == ref.value.end && value == fixed.other[ref.value.name]
    else end == s + 1 && value == [text[s]]
  }

  // The text up to s has been filled in.
  ghost predicate Filling(fixed: Fixed, options: set<string>, text: string, s: nat, out: string) {
    && s <= |text| && NoOption(fixed, options, text, s)
    && out + Filled(fixed, text, s) == Filled(fixed, text, 0)
  }

  lemma {:induction false} FillStep(fixed: Fixed, vals: Values, text: string, s: nat, end: nat, value: string,
                                    out: string)
    requires s < |text| && s < end <= |text| && Turned(fixed, vals, text, s, end, value)
    requires Filling(fixed, vals.Keys, text, s, out)
    ensures Filling(fixed, vals.Keys, text, end, out + value)
  {
    assert Filled(fixed, text, s) == value + Filled(fixed, text, end);
    assert out + (value + Filled(fixed, text, end)) == (out + value) + Filled(fixed, text, end);
  }

  // ---- expansion in place

  // Every option is as it was or as it should be.
  ghost predicate Underway(fixed: Fixed, vals0: Values, rank: string -> nat, vals: Values)
    requires Acyclic(fixed, vals0, rank)
  {
    vals.Keys == vals0.Keys && forall o <- vals :: vals[o] == vals0[o] || vals[o] == Meaning(fixed, vals0, rank, o)
  }

  // What the proof of the meaning assumes; without it expansion still ends.
  ghost predicate Sound(fixed: Fixed, vals0: Values, rank: string -> nat, vals: Values) {
    PlainFixed(fixed) && Acyclic(fixed, vals0, rank) && Underway(fixed, vals0, rank, vals)
  }

  // Options have only gone on to what they mean.
  ghost predicate Advances(fixed: Fixed, vals0: Values, rank: string -> nat, vals: Values, vals': Values)
    requires Acyclic(fixed, vals0, rank) && vals.Keys == vals0.Keys && vals'.Keys == vals0.Keys
  {
    forall o <- vals :: vals'[o] == vals[o] || vals'[o] == Meaning(fixed, vals0, rank, o)
  }

  function Names(stack: seq<string>): set<string> { set o <- stack }

  // An option not yet expanded refers to lower ranks; one that has no dollar sign is done.
  lemma {:induction false} OptionText(fixed: Fixed, vals0: Values, rank: string -> nat, vals: Values, o: string)
    requires Sound(fixed, vals0, rank, vals) && o in vals
    ensures HasDollar(vals[o]) ==> vals[o] == vals0[o] && Resolves(fixed, vals0, rank, vals[o], 0, rank(o))
    ensures !HasDollar(vals[o]) ==> vals[o] == Meaning(fixed, vals0, rank, o)
  {
    var text := vals0[o];
    assert Resolves(fixed, vals0, rank, text, 0, rank(o));
    SubstIsPlain(fixed, vals0, rank, text, 0, rank(o));
    if !HasDollar(text) {
      PlainMeansItself(fixed, vals0, rank, text, 0, rank(o));
      assert text[0..] == text;
    }
  }

  // The text up to s has been replaced by out.
  ghost predicate Scanned(fixed: Fixed, vals: Values, rank: string -> nat, text: string, s: nat, n: nat, out: string,
                          found: bool)
    requires Acyclic(fixed, vals, rank) && Resolves(fixed, vals, rank, text, 0, n)
  {
    && s <= |text| && Resolves(fixed, vals, rank, text, s, n) && found == HasDollar(text[..s])
    && out + Subst(fixed, vals, rank, text, s, n) == Subst(fixed, vals, rank, text, 0, n)
  }

  lemma {:induction false} ScanStep(fixed: Fixed, vals: Values, rank: string -> nat, text: string, s: nat, n: nat,
                                    out: string, found: bool, end: nat, value: string)
    requires Acyclic(fixed, vals, rank) && Resolves(fixed, vals, rank, text, 0, n)
    requires Scanned(fixed, vals, rank, text, s, n, out, found) && s < end <= |text|
    requires Resolves(fixed, vals, rank, text, end, n)
    requires Subst(fixed, vals, rank, text, s, n) == value + Subst(fixed, vals, rank, text, end, n)
    requires (end > s + 1 <==> text[s] == '$') && forall i :: s < i < end ==> text[i] != '$'
    ensures Scanned(fixed, vals, rank, text, end, n, out + value, found || end > s + 1)
  {
    assert text[..end] == text[..s] + text[s..end];
    assert HasDollar(text[s..end]) <==> text[s] == '$' by { assert text[s..end][0] == text[s]; }
  }

  lemma {:induction false} PlainIsFilled(fixed: Fixed, text: string, s: nat)
    requires s <= |text| && !HasDollar(text)
    ensures Filled(fixed, text, s) == text[s..]
    decreases |text| - s
  {
    if s < |text| {
      PlainIsFilled(fixed, text, s + 1);
      assert text[s..] == [text[s]] + text[s + 1..];
    }
  }

  class Config {
    const fixed: Fixed
    var vals: Values

    constructor (fixed: Fixed, vals: Values)
      ensures this.fixed == fixed && this.vals == vals
    {
      this.fixed, this.vals := fixed, vals;
    }

    /** expand_meta on an option's own storage. */
    method ExpandOption(o: string, stack: seq<string>, ghost sound: bool, ghost vals0: Values,
                        ghost rank: string -> nat)
      requires o in vals
      requires sound ==> Sound(fixed, vals0, rank, vals) && forall q <- stack :: rank(o) < rank(q)
      modifies this
      ensures vals.Keys == old(vals.Keys)
      ensures sound ==> Sound(fixed, vals0, rank, vals) && Advances(fixed, vals0, rank, old(vals), vals)
      ensures sound ==> vals[o] == Meaning(fixed, vals0, rank, o)
      decreases vals.Keys - Names(stack), 1
    {
      if sound { OptionText(fixed, vals0, rank, vals, o); }
      var text, found := ExpandMeta(vals[o], Some(o), stack, sound && HasDollar(vals[o]), vals0, rank, rank(o));
      vals := vals[o := text];
    }

    /** expand_meta: found says that some variable was replaced. */
    method ExpandMeta(text: string, opt: Option<string>, stack: seq<string>,
                      ghost sound: bool, ghost vals0: Values, ghost rank: string -> nat, ghost n: nat)
      returns (out: string, found: bool)
      requires opt.Some? ==> opt.value in vals
      requires sound ==> Sound(fixed, vals0, rank, vals) && Resolves(fixed, vals0, rank, text, 0, n)
      requires sound ==>
        (forall q <- stack :: n <= rank(q)) && (opt.Some? ==> n == rank(opt.value) && opt.value !in stack)
      modifies this
      ensures vals.Keys == old(vals.Keys) && (!HasDollar(text) ==> out == text && !found && vals == old(vals))
      ensures NoOption(fixed, vals.Keys, text, 0) && !(HasDollar(text) && opt.Some? && opt.value in stack) ==>
        vals == old(vals) && out == Filled(fixed, text, 0)
      ensures HasDollar(text) && opt.Some? && opt.value in stack ==> vals == old(vals) && out == text && !found
      ensures sound ==> Sound(fixed, vals0, rank, vals) && Advances(fixed, vals0, rank, old(vals), vals)
      ensures sound ==> out == Subst(fixed, vals0, rank, text, 0, n) && found == HasDollar(text)
      decreases vals.Keys - Names(stack), if opt.None? then 4 else 0
    {
      if !HasDollar(text) {
        if sound { PlainMeansItself(fixed, vals0, rank, text, 0, n); }
        PlainIsFilled(fixed, text, 0);
        assert text[0..] == text;
        return text, false;
      }
      if opt.Some? && opt.value in stack {
        return text, false; // an expansion loop
      }
      assert opt.Some? ==> opt.value in Names([opt.value] + stack) && Names(stack) <= Names([opt.value] + stack);
      out, found := Scan(text, if opt.Some? then [opt.value] + stack else stack, sound, vals0, rank, n);
    }

    // The loop of expand_meta.
    method Scan(text: string, stack: seq<string>, ghost sound: bool, ghost vals0: Values, ghost rank: string -> nat,
                ghost n: nat)
      returns (out: string, found: bool)
      requires sound ==>
        Sound(fixed, vals0, rank, vals) && Resolves(fixed, vals0, rank, text, 0, n) && forall q <- stack :: n <= rank(q)
      modifies this
      ensures vals.Keys == old(vals.Keys)
      ensures NoOption(fixed, vals.Keys, text, 0) ==> vals == old(vals) && out == Filled(fixed, text, 0)
      ensures sound ==> Sound(fixed, vals0, rank, vals) && Advances(fixed, vals0, rank, old(vals), vals)
      ensures sound ==> out == Subst(fixed, vals0, rank, text, 0, n) && found == HasDollar(text)
      decreases vals.Keys - Names(stack), 3
    {
      out, found := "", false;
      var s := 0;
      ghost var none := NoOption(fixed, vals.Keys, text, 0);
      while s < |text|
        invariant s <= |text| && vals.Keys == old(vals.Keys)
        invariant none ==> vals == old(vals) && Filling(fixed, vals.Keys, text, s, out)
        invariant sound ==> Sound(fixed, vals0, rank, vals) && Advances(fixed, vals0, rank, old(vals), vals)
        invariant sound ==> Scanned(fixed, vals0, rank, text, s, n, out, found)
      {
        var end, value := Next(text, s, stack, sound, vals0, rank, n);
        if none { FillStep(fixed, vals, text, s, end, value, out); }
        if sound { ScanStep(fixed, vals0, rank, text, s, n, out, found, end, value); }
        out := out + value;
        found := found || end > s + 1;
        s := end;
      }
      assert text[..s] == text;
    }

    // One turn of it: the character or the variable at s.
    method Next(text: string, s: nat, stack: seq<string>, ghost sound: bool, ghost vals0: Values,
                ghost rank: string -> nat, ghost n: nat)
      returns (end: nat, value: string)
      requires s < |text|
      requires sound ==>
        Sound(fixed, vals0, rank, vals) && Resolves(fixed, vals0, rank, text, s, n) && forall q <- stack :: n <= rank(q)
      modifies this
      ensures vals.Keys == old(vals.Keys) && s < end <= |text| && Turned(fixed, vals, text, s, end, value)
      ensures NoOption(fixed, vals.Keys, text, s) ==> vals == old(vals)
      ensures sound ==> Sound(fixed, vals0, rank, vals) && Advances(fixed, vals0, rank, old(vals), vals)
      ensures sound ==> Resolves(fixed, vals0, rank, text, end, n)
      ensures sound ==> Subst(fixed, vals0, rank, text, s, n) == value + Subst(fixed, vals0, rank, text, end, n)
      ensures sound ==> (end > s + 1 <==> text[s] == '$') && (forall i :: s < i < end ==> text[i] != '$')
      decreases vals.Keys - Names(stack), 2
    {
      end, value := s + 1, [text[s]];
      if text[s] != '$' { return; }
      var ref := Parse(text, s);
      if ref.None? { return; }
      var name := ref.value.name;
      if IsOption(fixed, vals, name) {
        ExpandOption(name, stack, sound, vals0, rank);
        end, value := ref.value.end, vals[name];
      } else if FixedValue(fixed, name).Some? {
        end, value := ref.value.end, FixedValue(fixed, name).value;
      }
    }

    /** expand_all_meta: whatever the order of the options, each ends up as what it means. */
    method ExpandAll(options: seq<string>, ghost rank: string -> nat)
      requires forall o <- options :: o in vals
      modifies this
      ensures vals.Keys == old(vals.Keys)
      ensures PlainFixed(fixed) && Acyclic(fixed, old(vals), rank) && (forall o <- vals :: o in options) ==>
        forall o <- vals :: vals[o] == Meaning(fixed, old(vals), rank, o)
    {
      ghost var sound := PlainFixed(fixed) && Acyclic(fixed, vals, rank);
      for i := 0 to |options|
        invariant vals.Keys == old(vals.Keys)
        invariant sound ==> Sound(fixed, old(vals), rank, vals)
        invariant sound ==> forall j :: 0 <= j < i ==> vals[options[j]] == Meaning(fixed, old(vals), rank, options[j])
      {
        ExpandOption(options[i], [], sound, old(vals), rank);
      }
    }
  }
}
