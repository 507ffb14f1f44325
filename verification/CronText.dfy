/**
 * Cron expressions as they are written: elements, lists and words. What an expression says is
 * said here about its text, and `ExpressionMeans` says that the parsed schedule does just that.
 */
module CronText {
  import opened Basics
  import opened Search
  import opened Text
  import opened Civil
  import opened CronField
  import opened CronSchedule

  // ---------- one element ----------

  /** `*`, `n` or `a-b`, each with an optional step, numbers as written. */
  datatype Element =
    | Every(step: Option<string>)
    | One(n: string, step: Option<string>)
    | Between(a: string, b: string, step: Option<string>)

  function StepText(step: Option<string>): string { if step.Some? then "/" + step.value else "" }

  function RangeText(e: Element): string {
    match e case Every(_) => "*" case One(n, _) => n case Between(a, b, _) => a + "-" + b
  }

  function ElementText(e: Element): string { RangeText(e) + StepText(e.step) }

  predicate Shaped(e: Element) {
    && (e.step.Some? ==> AllDigits(e.step.value))
    && match e
       case Every(_) => true
       case One(n, _) => AllDigits(n)
       case Between(a, b, _) => AllDigits(a) && AllDigits(b)
  }

  function StepValue(e: Element): nat { if e.step.Some? then Value(e.step.value) else 1 }

  /** Numbers in range and in order, a step from 1 to 255, and none but 1 on a single number. */
  predicate Legal(e: Element, min: int, max: int) {
    && 1 <= StepValue(e) <= 255
    && match e
       case Every(_) => true
       case One(n, _) => min <= Value(n) <= max && StepValue(e) == 1
       case Between(a, b, _) => min <= Value(a) <= Value(b) <= max
  }

  /** The values an element names. */
  predicate Names(e: Element, v: int, min: int, max: int)
    requires Legal(e, min, max)
  {
    match e
    case Every(_) => min <= v <= max && (v - min) % StepValue(e) == 0
    case One(n, _) => v == Value(n)
    case Between(a, b, _) => Value(a) <= v <= Value(b) && (v - Value(a)) % StepValue(e) == 0
  }

  /** Decimal numerals have their value. */
  lemma {:induction false} ValueDecimal(n: nat)
    ensures Value(Decimal(n)) == n
  {
    if n < 10 {
      assert Decimal(n)[..0] == "";
    } else {
      ValueDecimal(n / 10);
      var s := Decimal(n / 10);
      assert (s + [Digit(n % 10)])[..|s|] == s;
    }
  }

  /** Text free of separators. */
  lemma DigitsOnly(s: string)
    requires AllDigits(s)
    ensures '/' !in s && '-' !in s && ',' !in s && '*' !in s && s != "*"
    ensures forall c :: c in s ==> FieldChar(c)
  {
    assert s[0] in s;
  }

  lemma ElementChars(e: Element)
    requires Shaped(e)
    ensures ElementText(e) != "" && ',' !in ElementText(e) && forall c :: c in ElementText(e) ==> FieldChar(c)
    ensures '/' !in RangeText(e)
  {
    if e.step.Some? { DigitsOnly(e.step.value); }
    match e
    case Every(_) =>
    case One(n, _) => DigitsOnly(n);
    case Between(a, b, _) => DigitsOnly(a); DigitsOnly(b);
  }

  lemma StepReads(e: Element)
    requires Shaped(e)
    ensures StepOf(ElementText(e)).Ok? <==> 1 <= StepValue(e) <= 255
    ensures StepOf(ElementText(e)).Ok? ==> StepOf(ElementText(e)).value == (RangeText(e), StepValue(e))
  {
    hide SplitOnce, AllDigits, Value;
    ElementChars(e);
    var range := RangeText(e);
    if e.step.Some? {
      var s := e.step.value;
      assert ElementText(e) == range + ['/'] + s;
      SplitOnceAt(range, '/', s);
      DigitsOnly(s);
      NotEmpty(s);
    } else {
      assert ElementText(e) == range;
      SplitOnceNone(range, '/');
    }
  }

  lemma NotEmpty(s: string)
    requires AllDigits(s)
    ensures s != ""
  {
  }

  /** A shaped element is accepted exactly if it is legal, and spans exactly what it names. */
  lemma ElementReads(e: Element, min: int, max: int)
    requires Shaped(e) && 0 <= min <= max <= 255
    ensures ElementSpan(ElementText(e), min, max).Ok? <==> Legal(e, min, max)
    ensures Legal(e, min, max) ==>
              forall v :: InSpan(v, ElementSpan(ElementText(e), min, max).value) <==> Names(e, v, min, max)
  {
    hide SplitOnce, AllDigits, Value, StepOf;
    StepReads(e);
    match e
    case Every(_) =>
    case One(n, _) =>
      DigitsOnly(n);
      SplitOnceNone(n, '-');
      if Legal(e, min, max) { forall v ensures InSpan(v, Span(Value(n), Value(n), 1)) <==> v == Value(n) {} }
    case Between(a, b, _) =>
      DigitsOnly(a);
      assert a + "-" + b == a + ['-'] + b && '-' in a + "-" + b;
      SplitOnceAt(a, '-', b);
  }

  /** Nothing else is accepted. */
  lemma AcceptedIsShaped(part: string, min: int, max: int)
    requires min <= max && ElementSpan(part, min, max).Ok?
    ensures exists e :: Shaped(e) && ElementText(e) == part
  {
    hide Value, AllDigits, SplitOnce, StepOf;
    var step := StepPart(part);
    var range := StepOf(part).value.0;
    RangeIsShaped(range, step);
  }

  /** The step as written behind the range. */
  lemma StepPart(part: string) returns (step: Option<string>)
    requires StepOf(part).Ok?
    ensures part == StepOf(part).value.0 + StepText(step) && (step.Some? ==> AllDigits(step.value))
  {
    hide Value, AllDigits, SplitOnce;
    var cut := SplitOnce(part, '/');
    SplitOnceParts(part, '/');
    step := None;
    if cut.Some? {
      step := Some(cut.value.1);
      assert cut.value.0 + ['/'] + cut.value.1 == cut.value.0 + ("/" + cut.value.1);
    } else {
      assert part + "" == part;
    }
  }

  lemma RangeIsShaped(range: string, step: Option<string>)
    requires step.Some? ==> AllDigits(step.value)
    requires range != "*" && SplitOnce(range, '-').Some? ==>
               AllDigits(SplitOnce(range, '-').value.0) && AllDigits(SplitOnce(range, '-').value.1)
    requires range != "*" && SplitOnce(range, '-').None? ==> AllDigits(range)
    ensures exists e :: Shaped(e) && ElementText(e) == range + StepText(step)
  {
    hide Value, AllDigits, SplitOnce;
    SplitOnceParts(range, '-');
    var dash := SplitOnce(range, '-');
    var e := if range == "*" then Every(step)
             else if dash.Some? then Between(dash.value.0, dash.value.1, step) else One(range, step);
    assert RangeText(e) == range;
    assert Shaped(e) && ElementText(e) == range + StepText(step);
  }

  lemma SplitOnceParts(s: string, c: char)
    ensures SplitOnce(s, c).Some? ==> s == SplitOnce(s, c).value.0 + [c] + SplitOnce(s, c).value.1
  {
    hide Find;
    CharOccurs(s, c);
  }

  // ---------- one field ----------

  function FieldText(es: seq<Element>): string
    requires es != []
  {
    if |es| == 1 then ElementText(es[0]) else ElementText(es[0]) + "," + FieldText(es[1..])
  }

  ghost predicate LegalField(es: seq<Element>, min: int, max: int) {
    forall i :: 0 <= i < |es| ==> Legal(es[i], min, max)
  }

  ghost predicate FieldNames(es: seq<Element>, v: int, min: int, max: int)
    requires LegalField(es, min, max)
  {
    exists i :: 0 <= i < |es| && Names(es[i], v, min, max)
  }

  ghost predicate ShapedField(es: seq<Element>) { es != [] && forall i :: 0 <= i < |es| ==> Shaped(es[i]) }

  function Texts(es: seq<Element>): seq<string> { seq(|es|, i requires 0 <= i < |es| => ElementText(es[i])) }

  lemma {:induction false} FieldSplits(es: seq<Element>)
    requires ShapedField(es)
    ensures SplitOn(FieldText(es), ",") == Texts(es)
    ensures FieldText(es) != "" && forall c :: c in FieldText(es) ==> FieldChar(c)
  {
    hide SplitOn, ElementText, Shaped;
    ElementChars(es[0]);
    if |es| == 1 {
      SplitOnNone(ElementText(es[0]), ',');
    } else {
      var rest := es[1..];
      assert forall i :: 0 <= i < |rest| ==> rest[i] == es[i + 1];
      FieldSplits(rest);
      SplitOnChar(ElementText(es[0]), ',', FieldText(rest));
      assert FieldText(es) == ElementText(es[0]) + [','] + FieldText(rest);
      assert Texts(es) == [ElementText(es[0])] + Texts(rest);
    }
  }

  lemma {:induction false} ElementsRead(es: seq<Element>, min: int, max: int)
    requires (forall i :: 0 <= i < |es| ==> Shaped(es[i])) && 0 <= min <= max <= 255
    ensures CronField.Elements(Texts(es), min, max).Ok? <==> LegalField(es, min, max)
  {
    hide ElementSpan, ElementText, Shaped, Legal, Expand;
    if es != [] {
      var rest := es[1..];
      assert forall i :: 0 <= i < |rest| ==> rest[i] == es[i + 1];
      ElementChars(es[0]);
      ElementReads(es[0], min, max);
      ElementsRead(rest, min, max);
      assert Texts(es)[0] == ElementText(es[0]) && Texts(es)[1..] == Texts(rest);
      assert es == [es[0]] + rest;
      assert LegalField(es, min, max) <==> Legal(es[0], min, max) && LegalField(rest, min, max);
    }
  }

  /** A field is accepted exactly if all its elements are legal; its values are then those some element names. */
  lemma FieldReads(es: seq<Element>, min: int, max: int)
    requires ShapedField(es) && 0 <= min <= max <= 255
    ensures FieldValues(FieldText(es), min, max).Ok? <==> LegalField(es, min, max)
    ensures LegalField(es, min, max) ==>
              forall v :: v in FieldValues(FieldText(es), min, max).value <==> FieldNames(es, v, min, max)
  {
    hide ElementSpan, ElementText, Shaped, Legal, Names, InSpan, CronField.Elements, SplitOn, FieldText;
    FieldSplits(es);
    ElementsRead(es, min, max);
    if LegalField(es, min, max) {
      FieldMeaning(FieldText(es), min, max);
      forall i | 0 <= i < |es|
        ensures ElementSpan(Texts(es)[i], min, max).Ok?
        ensures forall v :: InSpan(v, ElementSpan(Texts(es)[i], min, max).value) <==> Names(es[i], v, min, max)
      {
        ElementReads(es[i], min, max);
      }
      forall v ensures Denoted(v, Texts(es), min, max) <==> FieldNames(es, v, min, max) {}
    }
  }

  /** `spec` is a field as it should be written. */
  ghost predicate IsField(spec: string, min: int, max: int) {
    exists es :: es != [] && ShapedField(es) && LegalField(es, min, max) && FieldText(es) == spec
  }

  /** Accepted is exactly what is the text of some legal elements. */
  lemma AcceptedIsWritten(spec: string, min: int, max: int)
    requires 0 <= min <= max <= 255
    ensures FieldValues(spec, min, max).Ok? <==> IsField(spec, min, max)
  {
    hide Shaped, ElementSpan, LegalField, FieldText, SplitOn, FieldValues;
    if FieldValues(spec, min, max).Ok? {
      AcceptedSplits(spec, min, max);
      var es := WrittenAs(spec, min, max);
      FieldReads(es, min, max);
    }
    if IsField(spec, min, max) {
      var es :| es != [] && ShapedField(es) && LegalField(es, min, max) && FieldText(es) == spec;
      FieldReads(es, min, max);
    }
  }

  lemma AcceptedSplits(spec: string, min: int, max: int)
    requires min <= max && FieldValues(spec, min, max).Ok?
    ensures CronField.Elements(SplitOn(spec, ","), min, max).Ok?
  {
  }

  lemma {:induction false} WrittenAs(spec: string, min: int, max: int) returns (es: seq<Element>)
    requires min <= max && CronField.Elements(SplitOn(spec, ","), min, max).Ok?
    ensures ShapedField(es) && FieldText(es) == spec
    decreases |spec|
  {
    hide Shaped, ElementSpan, Find, ElementText;
    CharOccurs(spec, ',');
    var parts := SplitOn(spec, ",");
    AcceptedIsShaped(parts[0], min, max);
    var e :| Shaped(e) && ElementText(e) == parts[0];
    match Find(spec, ",")
    case None => es := [e];
    case Some(i) =>
      var rest := spec[i + 1..];
      assert parts[1..] == SplitOn(rest, ",");
      var more := WrittenAs(rest, min, max);
      es := [e] + more;
      assert es[1..] == more;
      assert spec == spec[..i] + "," + rest;
  }

  // ---------- an expression ----------

  ghost predicate IsBlank(s: string) { forall i :: 0 <= i < |s| ==> IsWhitespace(s[i]) }

  ghost predicate IsWord(s: string) { s != "" && forall i :: 0 <= i < |s| ==> !IsWhitespace(s[i]) }

  /** Words with whitespace before each, and after the last. */
  function Spread(words: seq<string>, gaps: seq<string>): string
    requires |gaps| == |words| + 1
  {
    if words == [] then gaps[0] else gaps[0] + (words[0] + Spread(words[1..], gaps[1..]))
  }

  ghost predicate Gaps(gaps: seq<string>) {
    (forall i :: 0 <= i < |gaps| ==> IsBlank(gaps[i])) && forall i :: 0 < i < |gaps| - 1 ==> gaps[i] != ""
  }

  lemma {:induction false} WordsSkip(gap: string, s: string)
    requires IsBlank(gap)
    ensures Words(gap + s) == Words(s)
  {
    if gap == "" {
      assert gap + s == s;
    } else {
      assert (gap + s)[1..] == gap[1..] + s && (gap + s)[0] == gap[0];
      WordsSkip(gap[1..], s);
    }
  }

  lemma {:induction false} WordIs(w: string, s: string)
    requires (forall i :: 0 <= i < |w| ==> !IsWhitespace(w[i])) && (s != "" ==> IsWhitespace(s[0]))
    ensures Word(w + s) == w
  {
    if w == "" {
      assert w + s == s;
    } else {
      assert (w + s)[1..] == w[1..] + s && (w + s)[0] == w[0];
      assert !IsWhitespace(w[0]) && w == [w[0]] + w[1..];
      WordIs(w[1..], s);
    }
  }

  lemma {:induction false} WordsRead(words: seq<string>, gaps: seq<string>)
    requires |gaps| == |words| + 1 && Gaps(gaps) && forall i :: 0 <= i < |words| ==> IsWord(words[i])
    ensures Words(Spread(words, gaps)) == words
  {
    hide Word;
    if words == [] {
      WordsSkip(gaps[0], "");
      assert gaps[0] + "" == gaps[0];
    } else {
      var w, rest, more := words[0], words[1..], gaps[1..];
      assert IsWord(w);
      assert forall i :: 0 <= i < |rest| ==> rest[i] == words[i + 1];
      assert forall i :: 0 <= i < |more| ==> more[i] == gaps[i + 1];
      WordsRead(rest, more);
      var tail := Spread(rest, more);
      WordsSkip(gaps[0], w + tail);
      SpreadStarts(rest, more);
      WordIs(w, tail);
      assert (w + tail)[0] == w[0] && (w + tail)[|w|..] == tail;
    }
  }

  lemma SpreadStarts(words: seq<string>, gaps: seq<string>)
    requires |gaps| == |words| + 1 && (forall i :: 0 <= i < |gaps| ==> IsBlank(gaps[i]))
    requires words != [] ==> gaps[0] != ""
    ensures Spread(words, gaps) != "" ==> IsWhitespace(Spread(words, gaps)[0])
  {
    assert IsBlank(gaps[0]);
  }

  /** Every text is its words, spaced somehow. */
  lemma {:induction false} EveryTextIsSpread(s: string) returns (gaps: seq<string>)
    ensures |gaps| == |Words(s)| + 1 && Gaps(gaps) && Spread(Words(s), gaps) == s
    ensures forall i :: 0 <= i < |Words(s)| ==> IsWord(Words(s)[i])
    ensures s != "" && IsWhitespace(s[0]) ==> gaps[0] != ""
    decreases |s|
  {
    hide Spread, Gaps;
    if s == "" {
      gaps := [""];
      NothingSpread();
    } else if IsWhitespace(s[0]) {
      var more := EveryTextIsSpread(s[1..]);
      gaps := Widened(s[0], more);
      SpreadWidened(Words(s), s[0], more);
      WidenedGaps(s[0], more);
      assert s == [s[0]] + s[1..];
    } else {
      var w := Word(s);
      WordEnds(s);
      var more := EveryTextIsSpread(s[|w|..]);
      gaps := [""] + more;
      SpreadWord(w, Words(s[|w|..]), more);
      assert s == w + s[|w|..];
    }
  }

  lemma NothingSpread()
    ensures Gaps([""]) && Spread([], [""]) == "" && Words("") == []
  {
  }

  function Widened(c: char, gaps: seq<string>): seq<string>
    requires gaps != []
  {
    [[c] + gaps[0]] + gaps[1..]
  }

  lemma SpreadWidened(words: seq<string>, c: char, gaps: seq<string>)
    requires |gaps| == |words| + 1
    ensures Spread(words, Widened(c, gaps)) == [c] + Spread(words, gaps)
  {
    assert Widened(c, gaps)[1..] == gaps[1..];
    if words != [] { Regrouped([c], gaps[0], words[0] + Spread(words[1..], gaps[1..])); }
  }

  lemma Regrouped(a: string, b: string, c: string)
    ensures (a + b) + c == a + (b + c)
  {
  }

  lemma WidenedGaps(c: char, gaps: seq<string>)
    requires gaps != [] && Gaps(gaps) && IsWhitespace(c)
    ensures Gaps(Widened(c, gaps)) && Widened(c, gaps)[0] != ""
  {
    var wide := Widened(c, gaps);
    assert IsBlank(gaps[0]) && forall i :: 0 < i < |gaps| ==> wide[i] == gaps[i];
  }

  lemma SpreadWord(w: string, words: seq<string>, gaps: seq<string>)
    requires |gaps| == |words| + 1 && Gaps(gaps) && (words != [] ==> gaps[0] != "")
    ensures Gaps([""] + gaps) && Spread([w] + words, [""] + gaps) == w + Spread(words, gaps)
  {
    assert ([w] + words)[1..] == words && ([""] + gaps)[1..] == gaps;
    assert forall i :: 0 < i < |gaps| + 1 ==> ([""] + gaps)[i] == gaps[i - 1];
  }

  /** A word ends where whitespace begins, or at the end of the text. */
  lemma {:induction false} WordEnds(s: string)
    ensures forall i :: 0 <= i < |Word(s)| ==> !IsWhitespace(s[i])
    ensures |Word(s)| < |s| ==> IsWhitespace(s[|Word(s)|])
  {
    if s != "" && !IsWhitespace(s[0]) { WordEnds(s[1..]); }
  }

  lemma FieldIsWord(es: seq<Element>)
    requires ShapedField(es)
    ensures IsWord(FieldText(es))
  {
    hide FieldText;
    FieldSplits(es);
    var text := FieldText(es);
    forall i | 0 <= i < |text| ensures !IsWhitespace(text[i]) { assert text[i] in text; }
  }

  /** The five fields: minute, hour, day of month, month, day of week. */
  datatype Expression = Expression(
    minute: seq<Element>, hour: seq<Element>, dom: seq<Element>, month: seq<Element>, dow: seq<Element>)

  ghost function FieldTexts(x: Expression): seq<string>
    requires ShapedExpression(x)
  {
    [FieldText(x.minute), FieldText(x.hour), FieldText(x.dom), FieldText(x.month), FieldText(x.dow)]
  }

  ghost predicate ShapedExpression(x: Expression) {
    ShapedField(x.minute) && ShapedField(x.hour) && ShapedField(x.dom) && ShapedField(x.month) && ShapedField(x.dow)
  }

  ghost predicate LegalExpression(x: Expression) {
    && LegalField(x.minute, 0, 59) && LegalField(x.hour, 0, 23) && LegalField(x.dom, 1, 31)
    && LegalField(x.month, 1, 12) && LegalField(x.dow, 0, 6)
  }

  /** A bare star: a field with `*` and a step is a restriction like any other. */
  predicate IsStar(es: seq<Element>) { es == [Every(None)] }

  /** The minute, hour and month are named; of two restricted day fields one is enough. */
  ghost predicate Says(x: Expression, c: Civil)
    requires LegalExpression(x)
  {
    && FieldNames(x.minute, c.minute, 0, 59) && FieldNames(x.hour, c.hour, 0, 23)
    && FieldNames(x.month, c.date.month, 1, 12)
    && (if IsStar(x.dom) && IsStar(x.dow) then true
        else if IsStar(x.dom) then FieldNames(x.dow, c.dow, 0, 6)
        else if IsStar(x.dow) then FieldNames(x.dom, c.date.day, 1, 31)
        else FieldNames(x.dom, c.date.day, 1, 31) || FieldNames(x.dow, c.dow, 0, 6))
  }

  lemma StarIsStar(es: seq<Element>)
    requires ShapedField(es)
    ensures FieldText(es) == "*" <==> IsStar(es)
  {
    hide AllDigits;
    var e := es[0];
    ElementChars(e);
    if |es| == 1 {
      assert es == [e];
      match e {
        case Every(step) => assert step.Some? ==> |ElementText(e)| >= 2;
        case One(n, step) => DigitsOnly(n); NotEmpty(n); assert ElementText(e)[0] == n[0] && n[0] in n;
        case Between(a, b, step) => NotEmpty(a); NotEmpty(b); assert |ElementText(e)| >= 3;
      }
    } else {
      assert |FieldText(es)| >= 2;
    }
  }

  /** Expressions of any other number of words are refused. */
  lemma FiveWords(words: seq<string>, gaps: seq<string>)
    requires |gaps| == |words| + 1 && Gaps(gaps) && forall i :: 0 <= i < |words| ==> IsWord(words[i])
    ensures |words| != 5 <==> Parse(Spread(words, gaps)) == Err(FieldCount)
  {
    hide Words, FieldValues;
    WordsRead(words, gaps);
    if |words| == 5 {
      NotCounted(words[0], 0, 59);
      NotCounted(words[1], 0, 23);
      NotCounted(words[2], 1, 31);
      NotCounted(words[3], 1, 12);
      NotCounted(words[4], 0, 6);
    }
  }

  lemma NotCounted(spec: string, min: int, max: int)
    requires min <= max
    ensures FieldValues(spec, min, max) != Err(FieldCount)
  {
    hide ElementSpan;
    ElementsNotCounted(SplitOn(spec, ","), min, max);
  }

  lemma {:induction false} ElementsNotCounted(parts: seq<string>, min: int, max: int)
    requires min <= max
    ensures CronField.Elements(parts, min, max) != Err(FieldCount)
  {
    if parts != [] { ElementsNotCounted(parts[1..], min, max); }
  }

  /**
   * An expression of five fields, however spaced, is accepted exactly if every element is legal
   * for its field, and the schedule then matches a minute exactly if the expression says so of
   * its date and time.
   */
  lemma ExpressionMeans(x: Expression, gaps: seq<string>)
    requires ShapedExpression(x) && |gaps| == 6 && Gaps(gaps)
    ensures var r := Parse(Spread(FieldTexts(x), gaps));
            && (r.Ok? <==> LegalExpression(x))
            && (r.Ok? ==> forall m :: MatchesMinute(r.value, m) <==> Says(x, FromUnixSecs(m * 60)))
  {
    hide Words, FieldValues, FieldText, ShapedField, LegalField, FieldNames, FromUnixSecs, Gaps, IsWord, IsStar;
    var f := FieldTexts(x);
    FieldIsWord(x.minute);
    FieldIsWord(x.hour);
    FieldIsWord(x.dom);
    FieldIsWord(x.month);
    FieldIsWord(x.dow);
    WordsRead(f, gaps);
    FieldReads(x.minute, 0, 59);
    FieldReads(x.hour, 0, 23);
    FieldReads(x.dom, 1, 31);
    FieldReads(x.month, 1, 12);
    FieldReads(x.dow, 0, 6);
    StarIsStar(x.dom);
    StarIsStar(x.dow);
  }

  /** Every text: accepted exactly if it has five words, each a legal field of its range. */
  lemma AcceptedExactly(expr: string)
    ensures Parse(expr).Ok? <==>
            var f := Words(expr);
            && |f| == 5 && IsField(f[0], 0, 59) && IsField(f[1], 0, 23) && IsField(f[2], 1, 31)
            && IsField(f[3], 1, 12) && IsField(f[4], 0, 6)
  {
    hide Words, FieldValues, IsField;
    var f := Words(expr);
    if |f| == 5 {
      AcceptedIsWritten(f[0], 0, 59);
      AcceptedIsWritten(f[1], 0, 23);
      AcceptedIsWritten(f[2], 1, 31);
      AcceptedIsWritten(f[3], 1, 12);
      AcceptedIsWritten(f[4], 0, 6);
    }
  }
}
