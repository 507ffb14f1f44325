/**
 * Cron fields: `parse_field` and `parse_element` of cron.rs, and the set of values a
 * field denotes.
 */
module CronField {
  import opened Basics
  import opened Search
  import opened Text

  datatype CronError =
    | FieldCount | EmptyField | IllegalChar | EmptyElement | MalformedStep | StepZero
    | MalformedNumber | DescendingRange | OutOfRange | StepOnSingle

  // ---------- what an element denotes ----------

  predicate AllDigits(s: string) { s != "" && forall c :: c in s ==> '0' <= c <= '9' }

  function DigitValue(c: char): nat { if '0' <= c <= '9' then c as int - '0' as int else 0 }

  function Value(s: string): nat {
    if s == "" then 0 else Value(s[..|s| - 1]) * 10 + DigitValue(s[|s| - 1])
  }

  /** `str::parse::<u8>` on text without a sign. */
  function ParseU8(s: string): (r: Option<nat>)
    ensures r.Some? ==> r.value <= 255
  {
    if AllDigits(s) && Value(s) <= 255 then Some(Value(s)) else None
  }

  /** `lo`, `lo + step`, ... up to `hi`. */
  datatype Span = Span(lo: int, hi: int, step: int)

  predicate InSpan(v: int, sp: Span)
    requires sp.step > 0
  {
    sp.lo <= v <= sp.hi && (v - sp.lo) % sp.step == 0
  }

  function Bounded(n: int, min: int, max: int): bool { min <= n <= max }

  function StepOf(part: string): (r: Result<(string, int), CronError>)
    ensures r.Ok? ==> 1 <= r.value.1 <= 255
  {
    match SplitOnce(part, '/')
    case None => Ok((part, 1))
    case Some((range, s)) =>
      if s == "" || '/' in s || ParseU8(s) == None then Err(MalformedStep)
      else if ParseU8(s).value == 0 then Err(StepZero)
      else Ok((range, ParseU8(s).value))
  }

  /** The span an element stands for, or the first complaint about it. */
  function ElementSpan(part: string, min: int, max: int): (r: Result<Span, CronError>)
    requires min <= max
    ensures r.Ok? ==> min <= r.value.lo <= r.value.hi <= max && 1 <= r.value.step <= 255
  {
    match StepOf(part)
    case Err(e) => Err(e)
    case Ok((range, step)) =>
      if range == "*" then Ok(Span(min, max, step))
      else match SplitOnce(range, '-')
        case Some((a, b)) =>
          if ParseU8(a) == None || ParseU8(b) == None then Err(MalformedNumber)
          else if ParseU8(a).value > ParseU8(b).value then Err(DescendingRange)
          else if !Bounded(ParseU8(a).value, min, max) || !Bounded(ParseU8(b).value, min, max) then Err(OutOfRange)
          else Ok(Span(ParseU8(a).value, ParseU8(b).value, step))
        case None =>
          if step != 1 then Err(StepOnSingle)
          else if ParseU8(range) == None then Err(MalformedNumber)
          else if !Bounded(ParseU8(range).value, min, max) then Err(OutOfRange)
          else Ok(Span(ParseU8(range).value, ParseU8(range).value, 1))
  }

  function Expand(sp: Span): seq<int>
    requires sp.step > 0
    decreases sp.hi - sp.lo
  {
    if sp.lo > sp.hi then [] else [sp.lo] + Expand(sp.(lo := sp.lo + sp.step))
  }

  lemma {:induction false} ExpandMeaning(sp: Span, v: int)
    requires sp.step > 0
    ensures v in Expand(sp) <==> InSpan(v, sp)
    decreases sp.hi - sp.lo
  {
    if sp.lo <= sp.hi {
      ExpandMeaning(sp.(lo := sp.lo + sp.step), v);
      if v >= sp.lo { StepBack(v - sp.lo, sp.step); }
    }
  }

  /** Taking one step off keeps divisibility by the step. */
  lemma StepBack(x: int, step: int)
    requires step > 0 && x >= 0
    ensures x >= step ==> (x % step == 0 <==> (x - step) % step == 0)
    ensures x < step ==> (x % step == 0 <==> x == 0)
  {
    if x >= step {
      var q, r := x / step, x % step;
      assert x == q * step + r && (q - 1) * step == q * step - step;
      Quotient(x - step, step, q - 1);
      assert (x - step) % step == (x - step) - (q - 1) * step;
    } else {
      Quotient(x, step, 0);
    }
  }

  // ---------- what a field denotes ----------

  predicate FieldChar(c: char) { '0' <= c <= '9' || c == '*' || c == ',' || c == '/' || c == '-' }

  /** All elements' values in order, or the first error. */
  function Elements(parts: seq<string>, min: int, max: int): Result<seq<int>, CronError>
    requires min <= max
  {
    if parts == [] then Ok([])
    else if parts[0] == "" then Err(EmptyElement)
    else match ElementSpan(parts[0], min, max)
      case Err(e) => Err(e)
      case Ok(sp) =>
        match Elements(parts[1..], min, max)
        case Err(e) => Err(e)
        case Ok(vs) => Ok(Expand(sp) + vs)
  }

  predicate StrictlySorted(s: seq<int>) { forall i, j :: 0 <= i < j < |s| ==> s[i] < s[j] }

  function Insert(v: int, s: seq<int>): (r: seq<int>)
    requires StrictlySorted(s)
    ensures StrictlySorted(r) && forall x :: x in r <==> x == v || x in s
  {
    if s == [] || v < s[0] then [v] + s
    else if v == s[0] then s
    else
      var t := Insert(v, s[1..]);
      assert forall x :: x in s <==> x == s[0] || x in s[1..];
      Basics.Elements(t);
      Basics.Elements(s[1..]);
      assert forall x :: x in s[1..] ==> s[0] < x;
      assert forall x :: x in t ==> s[0] < x;
      assert forall i :: 0 <= i < |t| ==> s[0] < t[i];
      [s[0]] + t
  }

  /** `sort_unstable` then `dedup`. */
  function SortDedup(s: seq<int>): (r: seq<int>)
    ensures StrictlySorted(r) && forall x :: x in r <==> x in s
  {
    if s == [] then []
    else
      assert forall x :: x in s <==> x == s[0] || x in s[1..];
      Insert(s[0], SortDedup(s[1..]))
  }

  function FieldValues(spec: string, min: int, max: int): Result<seq<int>, CronError>
    requires min <= max
  {
    if spec == "" then Err(EmptyField)
    else if exists c :: c in spec && !FieldChar(c) then Err(IllegalChar)
    else match Elements(SplitOn(spec, ","), min, max)
      case Err(e) => Err(e)
      case Ok(vs) => Ok(SortDedup(vs))
  }

  /** `v` is denoted by one of the elements. */
  ghost predicate Denoted(v: int, parts: seq<string>, min: int, max: int)
    requires min <= max
  {
    exists i ::
      0 <= i < |parts| && ElementSpan(parts[i], min, max).Ok? && InSpan(v, ElementSpan(parts[i], min, max).value)
  }

  lemma {:induction false} ElementsMeaning(parts: seq<string>, min: int, max: int, v: int)
    requires min <= max && Elements(parts, min, max).Ok?
    ensures v in Elements(parts, min, max).value <==> Denoted(v, parts, min, max)
    ensures v in Elements(parts, min, max).value ==> min <= v <= max
    ensures parts != [] ==> Elements(parts, min, max).value != []
  {
    if parts != [] {
      hide ElementSpan, InSpan, Expand;
      var sp := ElementSpan(parts[0], min, max).value;
      ExpandMeaning(sp, v);
      SpanNotEmpty(sp);
      SpanBounds(sp, v);
      ElementsMeaning(parts[1..], min, max, v);
      if Denoted(v, parts[1..], min, max) {
        var i :| 0 <= i < |parts[1..]| && ElementSpan(parts[1..][i], min, max).Ok?
                 && InSpan(v, ElementSpan(parts[1..][i], min, max).value);
        assert parts[i + 1] == parts[1..][i];
      }
      if Denoted(v, parts, min, max) && !InSpan(v, sp) {
        var i :| 0 <= i < |parts| && ElementSpan(parts[i], min, max).Ok?
                 && InSpan(v, ElementSpan(parts[i], min, max).value);
        assert parts[1..][i - 1] == parts[i];
      }
    }
  }

  lemma SpanNotEmpty(sp: Span)
    requires sp.step > 0 && sp.lo <= sp.hi
    ensures Expand(sp) != []
  {
  }

  lemma SpanBounds(sp: Span, v: int)
    requires sp.step > 0
    ensures InSpan(v, sp) ==> sp.lo <= v <= sp.hi
  {
  }

  /**
   * An accepted field is the strictly ascending list of exactly the values its elements
   * denote; it is never empty and never leaves the field's range.
   */
  lemma {:induction false} FieldMeaning(spec: string, min: int, max: int)
    requires min <= max && FieldValues(spec, min, max).Ok?
    ensures var vs := FieldValues(spec, min, max).value;
            && StrictlySorted(vs) && vs != []
            && forall v :: (v in vs <==> Denoted(v, SplitOn(spec, ","), min, max)) && (v in vs ==> min <= v <= max)
  {
    hide Denoted, Elements, SplitOn;
    var parts := SplitOn(spec, ",");
    var vs := FieldValues(spec, min, max).value;
    var raw := Elements(parts, min, max).value;
    forall v ensures (v in vs <==> Denoted(v, parts, min, max)) && (v in vs ==> min <= v <= max) {
      ElementsMeaning(parts, min, max, v);
    }
    ElementsMeaning(parts, min, max, 0);
    assert raw[0] in raw;
  }

  /** `*` stands for the whole range. */
  lemma StarMeaning(min: int, max: int)
    requires min <= max
    ensures FieldValues("*", min, max).Ok?
    ensures forall v :: v in FieldValues("*", min, max).value <==> min <= v <= max
  {
    SplitOnNone("*", ',');
    CharOccurs("*", '/');
    var sp := Span(min, max, 1);
    assert ElementSpan("*", min, max) == Ok(sp);
    assert ["*"][1..] == [];
    assert Elements(["*"], min, max) == Ok(Expand(sp) + []);
    forall v ensures v in Expand(sp) <==> min <= v <= max { ExpandMeaning(sp, v); }
  }

  // ---------- the loops of the source ----------

  /** Appends the element's values; `v` saturates like a `u8`. */
  method ParseElement(part: string, min: int, max: int, out: seq<int>) returns (r: Result<seq<int>, CronError>)
    requires 0 <= min <= max < 255
    ensures r == match ElementSpan(part, min, max) { case Err(e) => Err(e) case Ok(sp) => Ok(out + Expand(sp)) }
  {
    var span := ElementSpan(part, min, max);
    if span.Err? { return Err(span.error); }
    var lo, hi, step := span.value.lo, span.value.hi, span.value.step;
    var values := out;
    var v := lo;
    while v <= hi
      invariant lo <= v
      invariant values + Expand(Span(v, hi, step)) == out + Expand(Span(lo, hi, step))
      decreases hi - v
    {
      assert values + ([v] + Expand(Span(v + step, hi, step))) == values + [v] + Expand(Span(v + step, hi, step));
      values := values + [v];
      v := Min(v + step, 255);
      if v < lo { assert false; break; }
    }
    assert values + Expand(Span(v, hi, step)) == values;
    r := Ok(values);
  }

  method ParseField(spec: string, min: int, max: int) returns (r: Result<seq<int>, CronError>)
    requires 0 <= min <= max < 255
    ensures r == FieldValues(spec, min, max)
  {
    hide ElementSpan, Expand, SplitOn, SortDedup;
    if spec == "" { return Err(EmptyField); }
    if exists c :: c in spec && !FieldChar(c) { return Err(IllegalChar); }
    var parts := SplitOn(spec, ",");
    var values: seq<int> := [];
    var i := 0;
    assert parts[0..] == parts && forall vs: seq<int> :: [] + vs == vs;
    while i < |parts|
      invariant 0 <= i <= |parts|
      invariant Elements(parts, min, max) ==
                match Elements(parts[i..], min, max) { case Err(e) => Err(e) case Ok(vs) => Ok(values + vs) }
    {
      assert parts[i..][1..] == parts[i + 1..];
      if parts[i] == "" { return Err(EmptyElement); }
      var got := ParseElement(parts[i], min, max, values);
      if got.Err? { return Err(got.error); }
      ghost var sp := ElementSpan(parts[i], min, max).value;
      assert forall vs: seq<int> :: values + (Expand(sp) + vs) == values + Expand(sp) + vs;
      values := got.value;
      i := i + 1;
    }
    assert Elements(parts[i..], min, max) == Ok([]) && values + [] == values;
    r := Ok(SortDedup(values));
  }
}
