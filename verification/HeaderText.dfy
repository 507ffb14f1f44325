/**
 * Header blocks as a form-data client may write them: field names in any case, optional
 * whitespace, quoted or plain parameters in any order, fields nobody asked for. What such
 * a block describes is said here about the lines as written, and `HeadersMean` says that
 * the parser of multipart.rs reads exactly that.
 */
module HeaderText {
  import opened Basics
  import opened Search
  import opened Text
  import opened PartHeaders

  // ---------- how a block may be written ----------

  /** Upper and lower case of one ASCII letter. */
  predicate OtherCase(a: char, b: char) {
    || ('A' <= a <= 'Z' && b as int == a as int + 32)
    || ('A' <= b <= 'Z' && a as int == b as int + 32)
  }

  /** The word `w`, letter by letter, each in either case. */
  predicate Spells(k: string, w: string) {
    |k| == |w| && forall i :: 0 <= i < |k| ==> k[i] == w[i] || OtherCase(k[i], w[i])
  }

  predicate Blank(s: string) { forall i :: 0 <= i < |s| ==> IsWhitespace(s[i]) }

  /** No whitespace at either end. */
  predicate Tight(s: string) { s == "" || (!IsWhitespace(s[0]) && !IsWhitespace(s[|s| - 1])) }

  datatype Padded = Padded(before: string, text: string, after: string) {
    function Laid(): string { before + text + after }

    predicate Lawful() { Blank(before) && Tight(text) && Blank(after) }
  }

  /** Plain text, or text in quotes with a backslash before each marked character. */
  datatype Value = Token(text: string) | Quoted(text: string, marks: seq<bool>) {
    function Laid(): string {
      if Token? then text else "\"" + (if |marks| == |text| then Marked(text, marks) else "") + "\""
    }

    predicate Lawful() {
      if Token? then Tight(text) && !(|text| >= 2 && text[0] == '"' && text[|text| - 1] == '"')
      else |marks| == |text| && forall i :: 0 <= i < |text| && text[i] == '\\' ==> marks[i]
    }
  }

  function Marked(s: string, marks: seq<bool>): string
    requires |marks| == |s|
  {
    if s == "" then "" else (if marks[0] then ['\\', s[0]] else [s[0]]) + Marked(s[1..], marks[1..])
  }

  /** One parameter; a `Flag` has no equals sign. */
  datatype Attr = Flag(text: string) | Attr(key: Padded, before: string, value: Value, after: string) {
    function Laid(): string {
      if Flag? then text else key.Laid() + "=" + (before + value.Laid() + after)
    }

    predicate Lawful() {
      && ';' !in Laid()
      && (if Flag? then '=' !in text
          else '=' !in key.Laid() && key.Lawful() && Blank(before) && value.Lawful() && Blank(after))
    }
  }

  function AttrsText(attrs: seq<Attr>): string {
    if attrs == [] then "" else ";" + attrs[0].Laid() + AttrsText(attrs[1..])
  }

  /** One line: nothing, text without a colon, a disposition, or any other field. */
  datatype HeaderLine =
    | Empty
    | Loose(text: string)
    | Disposition(key: Padded, before: string, kind: string, attrs: seq<Attr>, after: string)
    | Field(key: Padded, value: Padded)
  {
    function Laid(): string {
      match this
      case Empty => ""
      case Loose(text) => text
      case Disposition(key, before, kind, attrs, after) =>
        key.Laid() + ":" + (before + (kind + AttrsText(attrs)) + after)
      case Field(key, value) => key.Laid() + ":" + value.Laid()
    }

    predicate Lawful() {
      && NoCrlf(Laid())
      && match this
         case Empty => true
         case Loose(text) => text != "" && ':' !in text
         case Disposition(key, before, kind, attrs, after) =>
           && ':' !in key.Laid() && key.Lawful() && Spells(key.text, "content-disposition")
           && ';' !in kind && (forall a :: a in attrs ==> a.Lawful())
           && Padded(before, kind + AttrsText(attrs), after).Lawful()
         case Field(key, value) =>
           && ':' !in key.Laid() && key.Lawful() && !Spells(key.text, "content-disposition")
           && value.Lawful()
    }
  }

  function LinesText(lines: seq<HeaderLine>): string
    requires lines != []
  {
    if |lines| == 1 then lines[0].Laid() else lines[0].Laid() + CRLF + LinesText(lines[1..])
  }

  // ---------- what a block describes ----------

  function Or<T>(first: Option<T>, second: Option<T>): Option<T> { if first.Some? then first else second }

  /** The value of the last parameter called `key`. */
  function LastAttr(attrs: seq<Attr>, key: string): Option<string> {
    if attrs == [] then None
    else Or(LastAttr(attrs[1..], key),
            if attrs[0].Attr? && attrs[0].key.text == key then Some(attrs[0].value.text) else None)
  }

  /** The same over all dispositions of the block. */
  function LastParam(lines: seq<HeaderLine>, key: string): Option<string> {
    if lines == [] then None
    else Or(LastParam(lines[1..], key),
            if lines[0].Disposition? then LastAttr(lines[0].attrs, key) else None)
  }

  /** The value of the last field whose name spells `content-type`. */
  function LastType(lines: seq<HeaderLine>): Option<string> {
    if lines == [] then None
    else Or(LastType(lines[1..]),
            if lines[0].Field? && Spells(lines[0].key.text, "content-type") then Some(lines[0].value.text) else None)
  }

  /** A loose line spoils the block, and a part needs a name. */
  function Described(lines: seq<HeaderLine>): Result<PartMeta, ParseError> {
    if exists l :: l in lines && l.Loose? then Err(Malformed("malformed part header line"))
    else match LastParam(lines, "name")
      case None => Err(Malformed("part is missing a form-data name"))
      case Some(name) => Ok(PartMeta(name, LastParam(lines, "filename"), LastType(lines)))
  }

  // ---------- trimming, spelling, unescaping ----------

  lemma SpellsIsLower(k: string, w: string)
    requires forall c :: c in w ==> !('A' <= c <= 'Z')
    ensures Lower(k) == w <==> Spells(k, w)
  {
    assert forall i :: 0 <= i < |w| ==> w[i] in w;
    if Spells(k, w) {
      forall i | 0 <= i < |k| ensures Lower(k)[i] == w[i] { assert k[i] == w[i] || OtherCase(k[i], w[i]); }
    }
    if Lower(k) == w {
      forall i | 0 <= i < |k| ensures k[i] == w[i] || OtherCase(k[i], w[i]) { assert Lower(k)[i] == w[i]; }
    }
  }

  lemma {:induction false} TrimEndBlank(s: string, after: string)
    requires Blank(after)
    ensures TrimEnd(s + after) == TrimEnd(s)
  {
    if after == "" {
      assert s + after == s;
    } else {
      var last := |after| - 1;
      assert s + after == (s + after[..last]) + [after[last]];
      assert (s + after)[..|s + after| - 1] == s + after[..last];
      TrimEndBlank(s, after[..last]);
    }
  }

  lemma {:induction false} TrimStartBlank(before: string, s: string)
    requires Blank(before)
    ensures TrimStart(before + s) == TrimStart(s)
  {
    if before == "" {
      assert before + s == s;
    } else {
      assert (before + s)[1..] == before[1..] + s;
      TrimStartBlank(before[1..], s);
    }
  }

  lemma {:induction false} BlankTrims(s: string)
    requires Blank(s)
    ensures Trim(s) == ""
  {
    TrimStartBlank(s, "");
    assert s + "" == s;
  }

  lemma {:induction false} TrimPadded(before: string, text: string, after: string)
    requires Blank(before) && Tight(text) && Blank(after)
    ensures Trim(before + text + after) == text
  {
    if text == "" {
      assert before + text + after == before + after;
      forall i | 0 <= i < |before + after| ensures IsWhitespace((before + after)[i]) {
        assert i < |before| ==> (before + after)[i] == before[i];
        assert i >= |before| ==> (before + after)[i] == after[i - |before|];
      }
      BlankTrims(before + after);
    } else {
      assert before + text + after == before + (text + after);
      TrimStartBlank(before, text + after);
      assert (text + after)[0] == text[0];
      TrimEndBlank(text, after);
    }
  }

  lemma {:induction false} MarkedUnescapes(s: string, marks: seq<bool>)
    requires |marks| == |s| && forall i :: 0 <= i < |s| && s[i] == '\\' ==> marks[i]
    ensures Unescape(Marked(s, marks)) == s
  {
    if s != "" {
      var rest := marks[1..];
      assert forall i :: 0 <= i < |s[1..]| ==> s[1..][i] == s[i + 1] && rest[i] == marks[i + 1];
      MarkedUnescapes(s[1..], rest);
      var head := if marks[0] then ['\\', s[0]] else [s[0]];
      assert Marked(s, marks)[|head|..] == Marked(s[1..], rest);
      assert [s[0]] + s[1..] == s;
    }
  }

  lemma ValueReads(v: Value)
    requires v.Lawful()
    ensures Unquoted(v.Laid()) == v.text && Tight(v.Laid())
  {
    hide Unescape, Marked;
    if v.Quoted? {
      MarkedUnescapes(v.text, v.marks);
      assert v.Laid()[1..|v.Laid()| - 1] == Marked(v.text, v.marks);
    }
  }

  // ---------- reading parameters ----------

  function Own(a: Attr, key: string): Option<string> {
    if a.Attr? && a.key.text == key then Some(a.value.text) else None
  }

  function WithAttrs(f: Fields, attrs: seq<Attr>): Fields {
    Fields(Or(LastAttr(attrs, "name"), f.name), Or(LastAttr(attrs, "filename"), f.filename), f.contentType)
  }

  lemma AttrReads(f: Fields, a: Attr)
    requires a.Lawful()
    ensures WithParam(f, a.Laid())
         == Fields(Or(Own(a, "name"), f.name), Or(Own(a, "filename"), f.filename), f.contentType)
  {
    hide SplitOnce, Trim, Unquoted, IsWhitespace;
    if a.Flag? {
      SplitOnceNone(a.text, '=');
    } else {
      var key, value := a.key.Laid(), a.before + a.value.Laid() + a.after;
      assert a.Laid() == key + ['='] + value;
      SplitOnceAt(key, '=', value);
      TrimPadded(a.key.before, a.key.text, a.key.after);
      ValueReads(a.value);
      TrimPadded(a.before, a.value.Laid(), a.after);
    }
  }

  lemma AttrIsOnePiece(a: Attr)
    requires a.Lawful()
    ensures ';' !in a.Laid()
  {
  }

  /** Splitting at `;` finds the parameters again, behind whatever came before them. */
  lemma {:induction false} AttrsSplit(kind: string, attrs: seq<Attr>)
    requires ';' !in kind && forall a :: a in attrs ==> a.Lawful()
    ensures SplitOn(kind + AttrsText(attrs), ";") == [kind] + Laids(attrs)
    decreases attrs
  {
    hide SplitOn, Attr.Lawful, Attr.Laid;
    if attrs == [] {
      assert kind + AttrsText(attrs) == kind;
      SplitOnNone(kind, ';');
    } else {
      assert attrs[0] in attrs && forall a :: a in attrs[1..] ==> a in attrs;
      var first := attrs[0].Laid();
      assert kind + AttrsText(attrs) == kind + [';'] + (first + AttrsText(attrs[1..]));
      SplitOnChar(kind, ';', first + AttrsText(attrs[1..]));
      AttrIsOnePiece(attrs[0]);
      AttrsSplit(first, attrs[1..]);
    }
  }

  function Laids(attrs: seq<Attr>): seq<string> {
    if attrs == [] then [] else [attrs[0].Laid()] + Laids(attrs[1..])
  }

  lemma {:induction false} AttrsRead(f: Fields, attrs: seq<Attr>)
    requires forall a :: a in attrs ==> a.Lawful()
    ensures WithParams(f, Laids(attrs)) == WithAttrs(f, attrs)
    decreases attrs
  {
    hide WithParam;
    if attrs != [] {
      assert attrs[0] in attrs && forall a :: a in attrs[1..] ==> a in attrs;
      AttrReads(f, attrs[0]);
      var g := WithParam(f, attrs[0].Laid());
      AttrsRead(g, attrs[1..]);
      assert Laids(attrs)[1..] == Laids(attrs[1..]);
    }
  }

  // ---------- reading lines ----------

  /** What the fields become over a line that is not loose. */
  function After(f: Fields, l: HeaderLine): Fields {
    match l
    case Disposition(_, _, _, attrs, _) => WithAttrs(f, attrs)
    case Field(key, value) =>
      if Spells(key.text, "content-type") then f.(contentType := Some(value.text)) else f
    case _ => f
  }

  lemma KeyReads(key: Padded, value: string)
    requires ':' !in key.Laid() && key.Lawful()
    ensures SplitOnce(key.Laid() + ":" + value, ':') == Some((key.Laid(), value)) && Trim(key.Laid()) == key.text
    ensures Lower(Trim(key.Laid())) == "content-disposition" <==> Spells(key.text, "content-disposition")
    ensures Lower(Trim(key.Laid())) == "content-type" <==> Spells(key.text, "content-type")
  {
    hide SplitOnce, Trim, Lower, Spells, IsWhitespace;
    SplitOnceAt(key.Laid(), ':', value);
    TrimPadded(key.before, key.text, key.after);
    SpellsIsLower(key.text, "content-disposition");
    SpellsIsLower(key.text, "content-type");
  }

  lemma LineReads(f: Fields, l: HeaderLine)
    requires l.Lawful()
    ensures WithLine(f, l.Laid())
         == if l.Loose? then Err(Malformed("malformed part header line")) else Ok(After(f, l))
  {
    hide SplitOnce, Trim, Lower, Spells, WithParams, WithAttrs, SplitOn, NoCrlf, IsWhitespace;
    match l
    case Empty =>
    case Loose(text) => SplitOnceNone(text, ':');
    case Disposition(key, before, kind, attrs, after) =>
      KeyReads(key, before + (kind + AttrsText(attrs)) + after);
      TrimPadded(before, kind + AttrsText(attrs), after);
      AttrsSplit(kind, attrs);
      assert ([kind] + Laids(attrs))[1..] == Laids(attrs);
      AttrsRead(f, attrs);
    case Field(key, value) =>
      KeyReads(key, value.Laid());
      TrimPadded(value.before, value.text, value.after);
      assert l.Laid() != "";
  }

  function LaidLines(lines: seq<HeaderLine>): seq<string> {
    if lines == [] then [] else [lines[0].Laid()] + LaidLines(lines[1..])
  }

  /** Lines free of CRLF are split apart again exactly where they were joined. */
  lemma SplitAtCrlf(a: string, b: string)
    requires NoCrlf(a)
    ensures SplitOn(a + CRLF + b, CRLF) == [a] + SplitOn(b, CRLF)
  {
    var s := a + CRLF + b;
    assert s[|a|..|a| + 2] == CRLF;
    forall j | 0 <= j < |a| ensures !OccursAt(s, CRLF, j) {
      assert s[j] == a[j] && s[j + 1] == if j + 1 < |a| then a[j + 1] else '\r';
      assert s[j..j + 2][0] == s[j] && s[j..j + 2][1] == s[j + 1];
    }
    FindIs(s, CRLF, |a|);
    assert s[..|a|] == a && s[|a| + 2..] == b;
  }

  lemma NotSplit(s: string)
    requires NoCrlf(s)
    ensures SplitOn(s, CRLF) == [s]
  {
    forall j ensures !OccursAt(s, CRLF, j) {
      if 0 <= j && j + 2 <= |s| { assert s[j..j + 2][0] == s[j] && s[j..j + 2][1] == s[j + 1]; }
    }
    FindNone(s, CRLF);
  }

  lemma {:induction false} LinesSplit(lines: seq<HeaderLine>)
    requires lines != [] && forall l :: l in lines ==> l.Lawful()
    ensures SplitOn(LinesText(lines), CRLF) == LaidLines(lines)
    decreases lines
  {
    hide SplitOn, NoCrlf;
    assert lines[0] in lines && forall l :: l in lines[1..] ==> l in lines;
    if |lines| == 1 {
      NotSplit(lines[0].Laid());
      assert LaidLines(lines[1..]) == [];
    } else {
      SplitAtCrlf(lines[0].Laid(), LinesText(lines[1..]));
      LinesSplit(lines[1..]);
    }
  }

  ghost predicate HasLoose(lines: seq<HeaderLine>) { exists l :: l in lines && l.Loose? }

  lemma {:induction false} LinesRead(f: Fields, lines: seq<HeaderLine>)
    requires forall l :: l in lines ==> l.Lawful()
    ensures WithLines(f, LaidLines(lines))
         == if HasLoose(lines) then Err(Malformed("malformed part header line"))
            else Ok(Fields(Or(LastParam(lines, "name"), f.name), Or(LastParam(lines, "filename"), f.filename),
                           Or(LastType(lines), f.contentType)))
    decreases lines
  {
    hide WithLine, Spells;
    if lines != [] {
      var l, rest := lines[0], lines[1..];
      assert lines == [l] + rest;
      assert l in lines && forall x :: x in lines <==> x == l || x in rest;
      LineReads(f, l);
      assert LaidLines(lines)[1..] == LaidLines(rest);
      if !l.Loose? {
        LinesRead(After(f, l), rest);
        assert HasLoose(lines) <==> HasLoose(rest);
      } else {
        assert HasLoose(lines);
      }
    }
  }

  /** The parser reads from a block of any lawful lines what the lines describe. */
  lemma HeadersMean(lines: seq<HeaderLine>)
    requires lines != [] && forall l :: l in lines ==> l.Lawful()
    ensures HeadersOf(Encode(LinesText(lines))) == Described(lines)
  {
    hide WithLines, SplitOn, LastParam, LastType;
    DecodeEncode(LinesText(lines));
    LinesSplit(lines);
    LinesRead(NoFields, lines);
  }

  // ---------- the printer and the round trip ----------

  /** Where a backslash is needed; quotes get one too. */
  function Needed(s: string): seq<bool> { seq(|s|, i requires 0 <= i < |s| => s[i] == '"' || s[i] == '\\') }

  function Escape(s: string): string { Marked(s, Needed(s)) }

  lemma UnescapeEscape(s: string)
    ensures Unescape(Escape(s)) == s
  {
    MarkedUnescapes(s, Needed(s));
  }

  /** Names that survive the `;` and CRLF splitting, which looks at no quotes. */
  predicate Plain(s: string) { ';' !in s && NoCrlf(s) }

  predicate Printable(m: PartMeta) {
    && Plain(m.name)
    && (m.filename.Some? ==> Plain(m.filename.value))
    && (m.contentType.Some? ==>
          NoCrlf(m.contentType.value) && Trim(m.contentType.value) == m.contentType.value)
  }

  function QuotedAttr(key: string, s: string): Attr {
    Attr(Padded(" ", key, ""), "", Quoted(s, Needed(s)), "")
  }

  function DispositionAttrs(m: PartMeta): seq<Attr> {
    [QuotedAttr("name", m.name)] + if m.filename.Some? then [QuotedAttr("filename", m.filename.value)] else []
  }

  /** The lines a client sends, under any spelling of the two field names. */
  function LinesOf(m: PartMeta, k1: string, k2: string): seq<HeaderLine> {
    [Disposition(Padded("", k1, ""), " ", "form-data", DispositionAttrs(m), "")]
    + if m.contentType.Some? then [Field(Padded("", k2, ""), Padded(" ", m.contentType.value, ""))] else []
  }

  function PrintHeaders(m: PartMeta, k1: string, k2: string): string { LinesText(LinesOf(m, k1, k2)) }

  lemma {:induction false} MarkedKeepsOut(s: string, marks: seq<bool>, c: char)
    requires |marks| == |s| && c !in s && c != '\\'
    ensures c !in Marked(s, marks)
  {
    if s != "" {
      assert s[0] in s && forall x :: x in s[1..] ==> x in s;
      MarkedKeepsOut(s[1..], marks[1..], c);
    }
  }

  lemma {:induction false} MarkedKeepsCrlfOut(s: string, marks: seq<bool>)
    requires |marks| == |s| && NoCrlf(s)
    ensures NoCrlf(Marked(s, marks))
    ensures Marked(s, marks) != "" && Marked(s, marks)[0] == '\n' ==> s != "" && s[0] == '\n'
  {
    if s != "" {
      var tail := s[1..];
      assert forall j :: 0 <= j < |tail| ==> tail[j] == s[j + 1];
      MarkedKeepsCrlfOut(tail, marks[1..]);
      NoCrlfConcat(if marks[0] then ['\\', s[0]] else [s[0]], Marked(tail, marks[1..]));
    }
  }

  /** The fixed words of a printed block. */
  lemma Words()
    ensures Blank("") && Blank(" ") && Tight("name") && Tight("filename") && Tight("boundary") && Tight("")
  {
  }

  lemma LaidBefore(before: string, text: string)
    ensures Padded(before, text, "").Laid() == before + text
  {
  }

  lemma Regroup(a: string, b: string, c: string, d: string)
    ensures a + b + (c + d) == a + (b + c) + d
  {
    assert b + (c + d) == (b + c) + d;
  }

  lemma QuotedAttrText(key: string, s: string)
    ensures QuotedAttr(key, s).Laid() == " " + key + "=\"" + Escape(s) + "\""
  {
    hide Marked;
    var text := Escape(s) + "\"";
    LaidBefore(" ", key);
    Regroup(" " + key, "=", "\"", text);
    assert QuotedAttr(key, s).value.Laid() == "\"" + text;
    assert "" + ("\"" + text) + "" == "\"" + text;
  }

  lemma QuotedAttrShape(key: string, s: string)
    requires (key == "name" || key == "filename") && NoCrlf(s)
    ensures var text := QuotedAttr(key, s).Laid();
            NoCrlf(text) && |text| > 1 && text[0] == ' ' && text[|text| - 1] == '"'
  {
    hide Escape, NoCrlf;
    QuotedAttrText(key, s);
    var head, text := " " + key + "=\"", Escape(s);
    EscapeKeepsCrlfOut(s);
    NoCrlfLiteral(head);
    NoCrlfConcat(head, text);
    NoCrlfLiteral("\"");
    NoCrlfConcat(head + text, "\"");
  }

  lemma EscapeKeepsCrlfOut(s: string)
    requires NoCrlf(s)
    ensures NoCrlf(Escape(s))
  {
    MarkedKeepsCrlfOut(s, Needed(s));
  }

  lemma QuotedAttrIsLawful(key: string, s: string)
    requires (key == "name" || key == "filename") && ';' !in s
    ensures QuotedAttr(key, s).Lawful()
  {
    hide Marked, IsWhitespace, Blank, Tight;
    Words();
    MarkedKeepsOut(s, Needed(s), ';');
    QuotedAttrText(key, s);
    assert QuotedAttr(key, s).key.Laid() == " " + key;
  }

  /** The text behind `form-data`. */
  lemma AttrsTextShape(m: PartMeta)
    requires Printable(m)
    ensures var text := AttrsText(DispositionAttrs(m));
            && NoCrlf(text) && text != "" && text[0] == ';' && text[|text| - 1] == '"'
            && forall a :: a in DispositionAttrs(m) ==> a.Lawful()
  {
    hide NoCrlf, QuotedAttr;
    var a := QuotedAttr("name", m.name);
    QuotedAttrIsLawful("name", m.name);
    QuotedAttrShape("name", m.name);
    NoCrlfLiteral(";");
    NoCrlfConcat(";", a.Laid());
    assert AttrsText([]) == "";
    if m.filename.Some? {
      var b := QuotedAttr("filename", m.filename.value);
      QuotedAttrIsLawful("filename", m.filename.value);
      QuotedAttrShape("filename", m.filename.value);
      NoCrlfConcat(";", b.Laid());
      NoCrlfConcat(";" + a.Laid(), ";" + b.Laid());
      assert DispositionAttrs(m) == [a, b] && [a, b][1..] == [b] && [b][1..] == [];
      assert AttrsText([b]) == ";" + b.Laid();
      assert AttrsText([a, b]) == (";" + a.Laid()) + (";" + b.Laid());
    } else {
      assert DispositionAttrs(m) == [a] && [a][1..] == [];
      assert AttrsText([a]) == ";" + a.Laid();
    }
  }

  lemma SpelledHasNo(k: string, w: string, c: char)
    requires Spells(k, w) && c !in w && !('A' <= c <= 'Z') && !('a' <= c <= 'z')
    ensures c !in k
  {
    forall i | 0 <= i < |k| ensures k[i] != c { assert w[i] in w; }
  }

  lemma SpelledKey(k: string, w: string)
    requires Spells(k, w) && (w == "content-disposition" || w == "content-type")
    ensures ':' !in k && '\r' !in k && Tight(k) && Padded("", k, "").Laid() == k
  {
    SpelledHasNo(k, w, ':');
    SpelledHasNo(k, w, '\r');
    assert k[0] == 'c' || k[0] == 'C';
    var last := |k| - 1;
    assert k[last] == w[last] || OtherCase(k[last], w[last]);
  }

  lemma DispositionIsLawful(m: PartMeta, k: string)
    requires Printable(m) && Spells(k, "content-disposition")
    ensures Disposition(Padded("", k, ""), " ", "form-data", DispositionAttrs(m), "").Lawful()
  {
    hide NoCrlf, AttrsText, DispositionAttrs, Spells, Blank, IsWhitespace, Printable;
    AttrsTextShape(m);
    SpelledKey(k, "content-disposition");
    Words();
    var text := AttrsText(DispositionAttrs(m));
    InkEnds(text);
    DispositionText(m, k);
    DispositionFree(k, text);
  }

  lemma DispositionText(m: PartMeta, k: string)
    ensures Disposition(Padded("", k, ""), " ", "form-data", DispositionAttrs(m), "").Laid()
         == k + ": form-data" + AttrsText(DispositionAttrs(m))
  {
    hide AttrsText, DispositionAttrs;
    var text := AttrsText(DispositionAttrs(m));
    assert Padded("", k, "").Laid() == k;
    assert " " + ("form-data" + text) + "" == " form-data" + text;
    assert k + ":" + (" form-data" + text) == k + ": form-data" + text;
  }

  lemma DispositionFree(k: string, text: string)
    requires '\r' !in k && NoCrlf(text)
    ensures NoCrlf(k + ": form-data" + text)
  {
    hide NoCrlf;
    var head := k + ": form-data";
    NoCrlfLiteral(head);
    NoCrlfConcat(head, text);
  }

  lemma InkEnds(text: string)
    requires text != "" && text[|text| - 1] == '"'
    ensures Tight("form-data" + text)
  {
  }

  lemma TypeIsLawful(t: string, k: string)
    requires Spells(k, "content-type") && NoCrlf(t) && Trim(t) == t
    ensures Field(Padded("", k, ""), Padded(" ", t, "")).Lawful()
  {
    hide NoCrlf, Spells, Trim, IsWhitespace, Blank, Tight;
    SpelledKey(k, "content-type");
    Words();
    TypeText(t, k);
    TypeFree(t, k);
    TrimmedIsTight(t);
    OtherLength(k);
  }

  lemma TypeText(t: string, k: string)
    ensures Field(Padded("", k, ""), Padded(" ", t, "")).Laid() == k + (": " + t)
  {
    hide Padded.Laid;
    LaidBefore("", k);
    LaidBefore(" ", t);
    assert "" + k == k && k + ":" + (" " + t) == k + (":" + (" " + t)) && ":" + (" " + t) == ": " + t;
  }

  lemma TypeFree(t: string, k: string)
    requires '\r' !in k && NoCrlf(t)
    ensures NoCrlf(k + (": " + t))
  {
    hide NoCrlf;
    NoCrlfLiteral(k);
    NoCrlfLiteral(": ");
    NoCrlfConcat(": ", t);
    NoCrlfConcat(k, ": " + t);
  }

  lemma OtherLength(k: string)
    requires Spells(k, "content-type")
    ensures !Spells(k, "content-disposition")
  {
  }

  lemma {:induction false} TrimStartShortens(t: string)
    ensures |TrimStart(t)| <= |t| && (t != "" && IsWhitespace(t[0]) ==> |TrimStart(t)| < |t|)
    ensures |TrimStart(t)| == |t| ==> TrimStart(t) == t
  {
    if t != "" && IsWhitespace(t[0]) { TrimStartShortens(t[1..]); }
  }

  lemma {:induction false} TrimEndShortens(t: string)
    ensures |TrimEnd(t)| <= |t| && (t != "" && IsWhitespace(t[|t| - 1]) ==> |TrimEnd(t)| < |t|)
  {
    if t != "" && IsWhitespace(t[|t| - 1]) { TrimEndShortens(t[..|t| - 1]); }
  }

  lemma {:induction false} TrimmedIsTight(t: string)
    requires Trim(t) == t
    ensures Tight(t)
  {
    TrimStartShortens(t);
    TrimEndShortens(TrimStart(t));
  }

  /** Every printable description, under every spelling of the field names, is read back. */
  lemma HeadersRoundTrip(m: PartMeta, k1: string, k2: string)
    requires Printable(m) && Spells(k1, "content-disposition") && Spells(k2, "content-type")
    ensures HeadersOf(Encode(PrintHeaders(m, k1, k2))) == Ok(m)
    ensures Described(LinesOf(m, k1, k2)) == Ok(m) && forall l :: l in LinesOf(m, k1, k2) ==> l.Lawful()
  {
    hide NoCrlf, Spells, HeadersOf, Described, LinesText, HeaderLine.Lawful, Padded.Lawful, DispositionAttrs;
    var lines := LinesOf(m, k1, k2);
    DispositionIsLawful(m, k1);
    if m.contentType.Some? { TypeIsLawful(m.contentType.value, k2); }
    LinesDescribe(m, k1, k2);
    HeadersMean(lines);
  }

  lemma LinesDescribe(m: PartMeta, k1: string, k2: string)
    requires Spells(k2, "content-type")
    ensures Described(LinesOf(m, k1, k2)) == Ok(m)
  {
    hide Spells, LastParam, LastType, LastAttr, DispositionAttrs;
    var l := Disposition(Padded("", k1, ""), " ", "form-data", DispositionAttrs(m), "");
    var lines := LinesOf(m, k1, k2);
    AttrsDescribe(m);
    if m.contentType.Some? {
      var f := Field(Padded("", k2, ""), Padded(" ", m.contentType.value, ""));
      assert lines == [l, f];
      LastOfTwo(l, f);
    } else {
      assert lines == [l];
      LastOfOne(l);
    }
  }

  lemma AttrsDescribe(m: PartMeta)
    ensures LastAttr(DispositionAttrs(m), "name") == Some(m.name)
    ensures LastAttr(DispositionAttrs(m), "filename") == m.filename
  {
    hide Needed;
    var a := QuotedAttr("name", m.name);
    assert LastAttr([], "name") == None && LastAttr([], "filename") == None;
    if m.filename.Some? {
      var b := QuotedAttr("filename", m.filename.value);
      assert DispositionAttrs(m) == [a, b] && [a, b][1..] == [b] && [b][1..] == [];
      assert LastAttr([b], "name") == None && LastAttr([b], "filename") == m.filename;
    } else {
      assert DispositionAttrs(m) == [a] && [a][1..] == [];
    }
  }

  lemma LastOfOne(l: HeaderLine)
    requires l.Disposition?
    ensures LastParam([l], "name") == LastAttr(l.attrs, "name")
    ensures LastParam([l], "filename") == LastAttr(l.attrs, "filename")
    ensures LastType([l]) == None
  {
    hide LastAttr;
    assert [l][1..] == [];
    assert LastParam([], "name") == None && LastParam([], "filename") == None && LastType([]) == None;
  }

  lemma LastOfTwo(l: HeaderLine, f: HeaderLine)
    requires l.Disposition? && f.Field? && Spells(f.key.text, "content-type")
    ensures LastParam([l, f], "name") == LastAttr(l.attrs, "name")
    ensures LastParam([l, f], "filename") == LastAttr(l.attrs, "filename")
    ensures LastType([l, f]) == Some(f.value.text)
  {
    hide LastAttr, Spells;
    assert [l, f][1..] == [f] && [f][1..] == [];
    assert LastParam([], "name") == None && LastParam([], "filename") == None && LastType([]) == None;
    assert LastParam([f], "name") == None && LastParam([f], "filename") == None;
    assert LastType([f]) == Some(f.value.text);
  }
}
