/**
 * Round trip: what a form-data writer prints, the parser reads back, whatever the chunking.
 * The boundary comes from the content type, whose validation is what makes this work.
 */
module MultipartRoundTrip {
  import opened Basics
  import opened Search
  import opened Text
  import opened PartHeaders
  import opened HeaderText
  import opened MultipartParser
  import opened MultipartStream
  import opened MultipartChunks

  // ---------- the boundary parameter ----------

  predicate BoundaryChar(c: char) {
    || 'a' <= c <= 'z' || 'A' <= c <= 'Z' || '0' <= c <= '9' || c in "'()+_,-./:=? "
  }

  /** 1 to 70 characters of the restricted set, not ending in a space. */
  predicate ValidBoundary(b: string) {
    1 <= |b| <= 70 && (forall c :: c in b ==> BoundaryChar(c)) && b[|b| - 1] != ' '
  }

  /** Surrounding quotes are optional. */
  function Unwrapped(v: string): string {
    if |v| >= 2 && v[0] == '"' && v[|v| - 1] == '"' then v[1..|v| - 1] else v
  }

  /** The first `boundary` parameter decides, valid or not. */
  function BoundaryParam(params: seq<string>): Option<string> {
    if params == [] then None
    else match SplitOnce(params[0], '=')
      case None => BoundaryParam(params[1..])
      case Some((k, v)) =>
        if Lower(Trim(k)) != "boundary" then BoundaryParam(params[1..])
        else if ValidBoundary(Unwrapped(Trim(v))) then Some(Unwrapped(Trim(v)))
        else None
  }

  function BoundaryOf(contentType: string): Option<string> {
    var segments := SplitOn(contentType, ";");
    if Lower(Trim(segments[0])) != "multipart/form-data" then None else BoundaryParam(segments[1..])
  }

  method BoundaryFromContentType(value: string) returns (r: Option<string>)
    ensures r == BoundaryOf(value)
    ensures r.Some? ==> ValidBoundary(r.value)
  {
    var segments := SplitOn(value, ";");
    if Lower(Trim(segments[0])) != "multipart/form-data" { return None; }
    var i := 1;
    while i < |segments|
      invariant 1 <= i <= |segments|
      invariant BoundaryParam(segments[i..]) == BoundaryParam(segments[1..])
    {
      assert segments[i..][1..] == segments[i + 1..];
      var kv := SplitOnce(segments[i], '=');
      i := i + 1;
      if kv == None { continue; }
      if Lower(Trim(kv.value.0)) == "boundary" {
        var boundary := Unwrapped(Trim(kv.value.1));
        return if ValidBoundary(boundary) then Some(boundary) else None;
      }
    }
    r := None;
  }

  /** The value of the first parameter whose name spells `boundary`, quoted or not. */
  function FirstBoundary(attrs: seq<Attr>): Option<string> {
    if attrs == [] then None
    else if attrs[0].Attr? && Spells(attrs[0].key.text, "boundary")
    then if ValidBoundary(attrs[0].value.text) then Some(attrs[0].value.text) else None
    else FirstBoundary(attrs[1..])
  }

  /** A parameter as a content type may carry it; a backslash is no escape here. */
  predicate Unescaped(a: Attr) {
    a.Lawful() && (a.Attr? && a.value.Quoted? ==> forall i :: 0 <= i < |a.value.marks| ==> !a.value.marks[i])
  }

  lemma {:induction false} UnmarkedIsItself(s: string, marks: seq<bool>)
    requires |marks| == |s| && forall i :: 0 <= i < |marks| ==> !marks[i]
    ensures Marked(s, marks) == s
  {
    if s != "" {
      assert forall i :: 0 <= i < |marks[1..]| ==> marks[1..][i] == marks[i + 1];
      UnmarkedIsItself(s[1..], marks[1..]);
    }
  }

  lemma BoundaryValueReads(v: Value)
    requires v.Lawful() && (v.Quoted? ==> forall i :: 0 <= i < |v.marks| ==> !v.marks[i])
    ensures Unwrapped(v.Laid()) == v.text && Tight(v.Laid())
  {
    hide Marked;
    if v.Quoted? {
      UnmarkedIsItself(v.text, v.marks);
      assert v.Laid()[1..|v.Laid()| - 1] == v.text;
    }
  }

  lemma BoundaryAttrReads(a: Attr, rest: seq<string>)
    requires Unescaped(a)
    ensures BoundaryParam([a.Laid()] + rest)
         == if a.Attr? && Spells(a.key.text, "boundary")
            then if ValidBoundary(a.value.text) then Some(a.value.text) else None
            else BoundaryParam(rest)
  {
    hide SplitOnce, Trim, Lower, Spells, Unwrapped, ValidBoundary, IsWhitespace;
    assert ([a.Laid()] + rest)[1..] == rest;
    if a.Flag? {
      SplitOnceNone(a.text, '=');
    } else {
      var key, value := a.key.Laid(), a.before + a.value.Laid() + a.after;
      assert a.Laid() == key + ['='] + value;
      SplitOnceAt(key, '=', value);
      TrimPadded(a.key.before, a.key.text, a.key.after);
      BoundaryValueReads(a.value);
      TrimPadded(a.before, a.value.Laid(), a.after);
      SpellsIsLower(a.key.text, "boundary");
    }
  }

  lemma {:induction false} BoundaryAttrsRead(attrs: seq<Attr>)
    requires forall a :: a in attrs ==> Unescaped(a)
    ensures BoundaryParam(Laids(attrs)) == FirstBoundary(attrs)
    decreases attrs
  {
    hide BoundaryParam, Spells, ValidBoundary, Unescaped;
    if attrs == [] {
      NoBoundaryParam();
    } else {
      assert attrs[0] in attrs && forall a :: a in attrs[1..] ==> a in attrs;
      BoundaryAttrReads(attrs[0], Laids(attrs[1..]));
      BoundaryAttrsRead(attrs[1..]);
    }
  }

  lemma NoBoundaryParam()
    ensures BoundaryParam([]) == None
  {
  }

  /**
   * A content type of any spelling, with any parameters around the boundary: it has a
   * boundary exactly when it is form-data and its first boundary parameter is valid.
   */
  lemma {:induction false} BoundaryMeans(media: Padded, attrs: seq<Attr>)
    requires media.Lawful() && ';' !in media.Laid() && forall a :: a in attrs ==> Unescaped(a)
    ensures BoundaryOf(media.Laid() + AttrsText(attrs))
         == if Spells(media.text, "multipart/form-data") then FirstBoundary(attrs) else None
  {
    hide SplitOn, Trim, BoundaryParam, Lower, Spells, FirstBoundary, IsWhitespace;
    AttrsSplit(media.Laid(), attrs);
    TrimPadded(media.before, media.text, media.after);
    SpellsIsLower(media.text, "multipart/form-data");
    assert ([media.Laid()] + Laids(attrs))[1..] == Laids(attrs);
    BoundaryAttrsRead(attrs);
  }

  /** Every valid boundary survives being quoted into a content type, or written plainly if that is no quote. */
  lemma {:induction false} BoundaryRoundTrip(b: string)
    requires ValidBoundary(b)
    ensures BoundaryOf("multipart/form-data; boundary=\"" + b + "\"") == Some(b)
    ensures b[0] != ' ' ==> BoundaryOf("multipart/form-data; boundary=" + b) == Some(b)
  {
    hide BoundaryOf;
    PrintedBoundary(b, true);
    assert "multipart/form-data; boundary=" + ("\"" + b + "\"") == "multipart/form-data; boundary=\"" + b + "\"";
    if b[0] != ' ' { PrintedBoundary(b, false); }
  }

  lemma PrintedBoundary(b: string, quoted: bool)
    requires ValidBoundary(b) && (quoted || b[0] != ' ')
    ensures BoundaryOf("multipart/form-data; boundary=" + (if quoted then "\"" + b + "\"" else b)) == Some(b)
  {
    hide BoundaryOf, Spells, FirstBoundary, Unescaped, AttrsText, ValidBoundary, BoundaryAttr;
    var media, a := Padded("", "multipart/form-data", ""), BoundaryAttr(b, quoted);
    MediaIsLawful(media);
    BoundaryAttrIsLawful(b, quoted);
    BoundaryAttrText(b, quoted);
    BoundaryMeans(media, [a]);
    LaidBefore("", "multipart/form-data");
    var value := if quoted then "\"" + b + "\"" else b;
    assert media.Laid() + ("; boundary=" + value) == "multipart/form-data; boundary=" + value;
  }

  function BoundaryAttr(b: string, quoted: bool): Attr {
    Attr(Padded(" ", "boundary", ""), "", if quoted then Quoted(b, seq(|b|, _ => false)) else Token(b), "")
  }

  lemma MediaIsLawful(media: Padded)
    requires media == Padded("", "multipart/form-data", "")
    ensures media.Lawful() && ';' !in media.Laid() && Spells(media.text, "multipart/form-data")
  {
  }

  lemma BoundaryValueText(b: string, quoted: bool)
    ensures BoundaryAttr(b, quoted).value.Laid() == if quoted then "\"" + b + "\"" else b
  {
    hide Marked;
    if quoted { UnmarkedIsItself(b, seq(|b|, _ => false)); }
  }

  lemma BoundaryAttrText(b: string, quoted: bool)
    ensures BoundaryAttr(b, quoted).Laid() == " boundary=" + (if quoted then "\"" + b + "\"" else b)
    ensures AttrsText([BoundaryAttr(b, quoted)]) == "; boundary=" + (if quoted then "\"" + b + "\"" else b)
  {
    hide Value.Laid;
    var value := if quoted then "\"" + b + "\"" else b;
    var a := BoundaryAttr(b, quoted);
    BoundaryValueText(b, quoted);
    LaidBefore(" ", "boundary");
    assert "" + value + "" == value;
    assert a.Laid() == " boundary=" + value;
    OneAttrText(a);
    assert ";" + (" boundary=" + value) == "; boundary=" + value;
  }

  lemma OneAttrText(a: Attr)
    ensures AttrsText([a]) == ";" + a.Laid()
  {
    assert [a][1..] == [] && AttrsText([]) == "";
  }

  lemma BoundaryAttrIsLawful(b: string, quoted: bool)
    requires ValidBoundary(b) && (quoted || b[0] != ' ')
    ensures Unescaped(BoundaryAttr(b, quoted)) && FirstBoundary([BoundaryAttr(b, quoted)]) == Some(b)
  {
    hide Marked, AttrsText, IsWhitespace, Blank, Tight;
    Words();
    var a := BoundaryAttr(b, quoted);
    BoundaryAttrText(b, quoted);
    BoundaryIsTight(b);
    LaidBefore(" ", "boundary");
    assert [a][1..] == [];
  }

  lemma BoundaryIsTight(b: string)
    requires ValidBoundary(b)
    ensures b[0] != ' ' ==> Tight(b)
    ensures '"' !in b && '\\' !in b && ';' !in b
  {
    assert b[0] in b && b[|b| - 1] in b;
    assert !BoundaryChar('"') && !BoundaryChar('\\') && !BoundaryChar(';');
  }

  /** No CR inside: the delimiter cannot overlap itself. */
  lemma {:induction false} BoundaryHasNoCr(b: string)
    requires ValidBoundary(b)
    ensures 13 !in Encode(b)
  {
    EncodeAscii(b, 13);
    assert !BoundaryChar(13 as char);
  }

  // ---------- the printer ----------

  /** A part as sent: padding behind its boundary, its header lines, what they describe, and its data. */
  datatype Part = Part(pad: seq<Byte>, lines: seq<HeaderLine>, meta: PartMeta, data: seq<Byte>)

  /** What follows the last boundary: padding, then the two dashes, then an epilogue. */
  datatype Ending = Ending(pad: seq<Byte>, epilogue: seq<Byte>)

  /** Spaces and tabs, not too many. */
  predicate Padding(pad: seq<Byte>) {
    |pad| <= 8_192 && forall i :: 0 <= i < |pad| ==> pad[i] == 32 || pad[i] == 9
  }

  function DelimiterOf(b: string): Delimiter { CRLF_BYTES + DASHES + Encode(b) }

  function Block(lines: seq<HeaderLine>): seq<Byte> { if lines == [] then [] else Encode(LinesText(lines)) }

  /** Everything after a boundary: the remaining parts and the ending. */
  function PrintAfter(d: Delimiter, parts: seq<Part>, end: Ending): seq<Byte> {
    if parts == [] then end.pad + DASHES + end.epilogue
    else
      var p := parts[0];
      p.pad + CRLF_BYTES + (Block(p.lines) + BLANK_LINE + (p.data + d + PrintAfter(d, parts[1..], end)))
  }

  /** The first boundary stands at the very front, or on a line of its own behind a preamble. */
  function Print(d: Delimiter, preamble: Option<seq<Byte>>, parts: seq<Part>, end: Ending): seq<Byte> {
    (if preamble.Some? then preamble.value + d else Bare(d)) + PrintAfter(d, parts, end)
  }

  /** The preamble is anything in which the boundary's dashes and text do not occur. */
  ghost predicate Skippable(d: Delimiter, preamble: Option<seq<Byte>>) {
    preamble.Some? ==> forall j :: !OccursAt(preamble.value, Bare(d), j)
  }

  /**
   * What a reader should see when `n` parts went before: per part its description, its data if
   * any, its end; and an error at the first part too many.
   */
  function Expected(parts: seq<Part>, n: nat): Trace {
    if parts == [] then Trace([], Completed)
    else if n >= 256 then Trace([], Broken(TooManyParts))
    else Push(PartHeaders(parts[0].meta), PushData(parts[0].data, Push(EndOfPart, Expected(parts[1..], n + 1))))
  }

  ghost predicate Sendable(d: Delimiter, p: Part) {
    && p.lines != [] && (forall l :: l in p.lines ==> l.Lawful() && l != Empty)
    && Described(p.lines) == Ok(p.meta) && Padding(p.pad)
    && |Block(p.lines)| + 3 <= 8_192
    && forall j :: !OccursAt(p.data, d, j)
  }

  // ---------- the reference parse of a printed body ----------

  /** The first delimiter hit is exactly where the data ends. */
  lemma {:induction false} DataEndsAtDelimiter(d: Delimiter, data: seq<Byte>, tail: seq<Byte>)
    requires 13 !in d[1..] && forall j :: !OccursAt(data, d, j)
    ensures Find(data + d + tail, d) == Some(|data|)
  {
    var s := data + d + tail;
    assert s[|data|..|data| + |d|] == d;
    forall j | 0 <= j < |data| ensures !OccursAt(s, d, j) {
      if j + |d| <= |data| {
        OccursInPrefix(data, d + tail, d, j);
        assert data + (d + tail) == s;
      } else {
        var k := |data| - j;
        assert s[|data|] == d[0] == d[..4][0] == 13 && d[k] == d[1..][k - 1] != 13;
        assert j + |d| <= |s| ==> s[j..j + |d|][k] == s[|data|];
      }
    }
    FindIs(s, d, |data|);
  }

  /** CR directly before LF, in bytes. */
  predicate CrlfAt(b: seq<Byte>, j: int) { 0 <= j && j + 1 < |b| && b[j] == 13 && b[j + 1] == 10 }

  /** Encoding makes no CRLF: its bytes below 128 stand for themselves. */
  lemma {:induction false} EncodeKeepsCrlfOut(s: string)
    requires NoCrlf(s)
    ensures forall j :: !CrlfAt(Encode(s), j)
    ensures s != "" ==> Encode(s) != [] && (Encode(s)[0] == 10 <==> s[0] == '\n')
    ensures s != "" ==> (Encode(s)[|Encode(s)| - 1] == 13 <==> s[|s| - 1] == '\r')
  {
    if s != "" {
      var head, tail := EncodeChar(s[0]), s[1..];
      assert forall j :: 0 <= j < |tail| ==> tail[j] == s[j + 1];
      EncodeKeepsCrlfOut(tail);
      assert forall k :: 0 <= k < |head| ==> (head[k] == 13 <==> s[0] == '\r') && (head[k] == 10 <==> s[0] == '\n');
      assert (s[0] == '\r' || s[0] == '\n') ==> |head| == 1;
      forall j ensures !CrlfAt(head + Encode(tail), j) {
        assert j >= |head| ==> !CrlfAt(Encode(tail), j - |head|);
      }
    }
  }

  /** Text between line ends: every CRLF has a byte behind it, and no second CRLF at once. */
  ghost predicate BlockOk(b: seq<Byte>) {
    b != [] && !CrlfAt(b, 0) && forall j :: CrlfAt(b, j) ==> j + 2 < |b| && !CrlfAt(b, j + 2)
  }

  lemma {:induction false} BlockShape(lines: seq<HeaderLine>)
    requires lines != [] && forall l :: l in lines ==> l.Lawful() && l != Empty
    ensures BlockOk(Block(lines))
    decreases lines
  {
    hide Encode, NoCrlf, CrlfAt, HeaderLine.Laid;
    var line := lines[0].Laid();
    assert lines[0] in lines && forall l :: l in lines[1..] ==> l in lines;
    LineIsNotEmpty(lines[0]);
    EncodeKeepsCrlfOut(line);
    if |lines| > 1 {
      var rest := lines[1..];
      BlockShape(rest);
      EncodeConcat(line + PartHeaders.CRLF, LinesText(rest));
      EncodeConcat(line, PartHeaders.CRLF);
      CrlfEncodes();
      JoinedLines(Encode(line), Block(rest));
      assert Block(lines) == Encode(line) + [13, 10] + Block(rest);
    }
  }

  lemma LineIsNotEmpty(l: HeaderLine)
    requires l.Lawful() && l != Empty
    ensures l.Laid() != "" && NoCrlf(l.Laid())
  {
    hide NoCrlf;
  }

  lemma CrlfEncodes()
    ensures Encode(PartHeaders.CRLF) == [13, 10]
  {
    assert "\r\n"[1..] == "\n" && "\n"[1..] == "";
    assert Encode("\n") == [10] + Encode("");
  }

  lemma JoinedLines(a: seq<Byte>, b: seq<Byte>)
    requires a != [] && (forall j :: !CrlfAt(a, j)) && BlockOk(b)
    ensures BlockOk(a + [13, 10] + b)
  {
    var s := a + [13, 10] + b;
    assert !CrlfAt(a, 0);
    forall j ensures CrlfAt(s, j) ==> j + 2 < |s| && !CrlfAt(s, j + 2) {
      assert !CrlfAt(a, j) && !CrlfAt(a, j + 2);
      assert CrlfAt(b, j - |a| - 2) ==> !CrlfAt(b, j - |a|);
    }
  }

  lemma {:induction false} BlockEndsAtBlankLine(lines: seq<HeaderLine>, tail: seq<Byte>)
    requires lines != [] && forall l :: l in lines ==> l.Lawful() && l != Empty
    ensures Find(Block(lines) + BLANK_LINE + tail, BLANK_LINE) == Some(|Block(lines)|)
  {
    hide Block, HeaderLine.Lawful;
    BlockShape(lines);
    var b := Block(lines);
    var s := b + BLANK_LINE + tail;
    assert s[|b|..|b| + 4] == BLANK_LINE;
    forall j | 0 <= j < |b| ensures !OccursAt(s, BLANK_LINE, j) {
      assert s[j..j + 4][0] == s[j] && s[j..j + 4][1] == s[j + 1];
      assert s[j..j + 4][2] == s[j + 2] && s[j..j + 4][3] == s[j + 3];
      assert CrlfAt(b, j) ==> j + 2 < |b| && !CrlfAt(b, j + 2);
    }
    FindIs(s, BLANK_LINE, |b|);
  }

  lemma {:induction false} PadRunIs(pad: seq<Byte>, rest: seq<Byte>)
    requires Padding(pad) && rest != [] && !IsPad(rest[0])
    ensures PadRun(pad + rest) == |pad|
  {
    var s := pad + rest;
    assert forall i :: 0 <= i < |pad| ==> s[i] == pad[i];
    assert s[|pad|] == rest[0];
    assert PadRun(s) < |pad| ==> !IsPad(s[PadRun(s)]);
  }

  lemma {:induction false} PrintedLine(pad: seq<Byte>, rest: seq<Byte>)
    requires Padding(pad)
    ensures LineToken(pad + DASHES + rest) == Closing
    ensures LineToken(pad + CRLF_BYTES + rest) == Opening(|pad| + 2)
    ensures (pad + CRLF_BYTES + rest)[|pad| + 2..] == rest
  {
    hide PadRun;
    var a, b := pad + DASHES + rest, pad + CRLF_BYTES + rest;
    PadRunIs(pad, DASHES + rest);
    PadRunIs(pad, CRLF_BYTES + rest);
    assert a == pad + (DASHES + rest) && b == pad + (CRLF_BYTES + rest);
    assert a[|pad|..|pad| + 2] == DASHES && b[|pad|..|pad| + 2] == CRLF_BYTES;
  }

  lemma {:induction false} RefPrinted(d: Delimiter, parts: seq<Part>, end: Ending, n: nat, strict: bool)
    requires 13 !in d[1..] && Padding(end.pad)
    requires forall p :: p in parts ==> Sendable(d, p)
    ensures RefAfter(d, PrintAfter(d, parts, end), n, strict) == Expected(parts, n)
    ensures OverlongAfter(d, PrintAfter(d, parts, end), n) == None
    decreases |parts|
  {
    hide RefAfter, OverlongAfter, Sendable, Block, Push, PushData, Padding;
    if parts == [] {
      RefClosed(d, end, n, strict);
    } else {
      assert parts[0] in parts && forall p :: p in parts[1..] ==> p in parts;
      RefPrinted(d, parts[1..], end, n + 1, strict);
      var p, after := parts[0], PrintAfter(d, parts[1..], end);
      RefPrintedPart(d, p, after, n + 1, strict);
      SendableIsPadded(d, p);
      RefOpened(d, p.pad, Block(p.lines) + BLANK_LINE + (p.data + d + after), n, strict);
    }
  }

  lemma SendableIsPadded(d: Delimiter, p: Part)
    requires Sendable(d, p)
    ensures Padding(p.pad)
  {
  }

  lemma RefClosed(d: Delimiter, end: Ending, n: nat, strict: bool)
    requires Padding(end.pad)
    ensures RefAfter(d, end.pad + DASHES + end.epilogue, n, strict) == Trace([], Completed)
    ensures OverlongAfter(d, end.pad + DASHES + end.epilogue, n) == None
  {
    hide RefHeaders, OverlongHeaders, LineToken;
    PrintedLine(end.pad, end.epilogue);
  }

  lemma RefOpened(d: Delimiter, pad: seq<Byte>, block: seq<Byte>, n: nat, strict: bool)
    requires Padding(pad)
    ensures RefAfter(d, pad + CRLF_BYTES + block, n, strict)
         == if n >= MAX_PARTS then Trace([], Broken(TooManyParts)) else RefHeaders(d, block, n + 1, strict)
    ensures OverlongHeaders(d, block, n + 1) == None ==> OverlongAfter(d, pad + CRLF_BYTES + block, n) == None
  {
    hide RefHeaders, OverlongHeaders, LineToken;
    PrintedLine(pad, block);
  }

  lemma {:induction false} RefPrintedPart(d: Delimiter, p: Part, after: seq<Byte>, n: nat, strict: bool)
    requires 13 !in d[1..] && Sendable(d, p)
    ensures var block := Block(p.lines) + BLANK_LINE + (p.data + d + after);
            && RefHeaders(d, block, n, strict)
               == Push(PartHeaders(p.meta), PushData(p.data, Push(EndOfPart, RefAfter(d, after, n, strict))))
            && (OverlongAfter(d, after, n) == None ==> OverlongHeaders(d, block, n) == None)
  {
    hide RefAfter, OverlongAfter, HeadersOf, Block;
    var b, content := Block(p.lines), p.data + d + after;
    var block := b + BLANK_LINE + content;
    BlockEndsAtBlankLine(p.lines, content);
    assert block[..|b|] == b && block[|b| + 4..] == content;
    BlockRoundTrip(p.lines, p.meta);
    DataEndsAtDelimiter(d, p.data, after);
    assert content[..|p.data|] == p.data && content[|p.data| + |d|..] == after;
  }

  lemma BlockRoundTrip(lines: seq<HeaderLine>, m: PartMeta)
    requires lines != [] && (forall l :: l in lines ==> l.Lawful()) && Described(lines) == Ok(m)
    ensures HeadersOf(Block(lines)) == Ok(m)
  {
    hide HeadersOf, Described;
    HeadersMean(lines);
  }

  lemma DelimiterHasNoCr(b: string)
    requires ValidBoundary(b)
    ensures 13 !in DelimiterOf(b)[1..]
  {
    BoundaryHasNoCr(b);
    assert DelimiterOf(b)[1..] == [10, 45, 45] + Encode(b);
  }

  /** Past the first boundary the body is what was printed after it. */
  lemma {:induction false} PrintedStart(d: Delimiter, preamble: Option<seq<Byte>>, after: seq<Byte>)
    requires 13 !in d[1..] && Skippable(d, preamble)
    ensures var front := if preamble.Some? then preamble.value + d else Bare(d);
            var body := front + after;
            && BodyStart(d, body) == Some(|front|) && body[|front|..] == after && NoStrayBoundary(d, body)
  {
    var front := if preamble.Some? then preamble.value + d else Bare(d);
    var body := front + after;
    assert body[|front|..] == after;
    if preamble.None? {
      assert body[0..|Bare(d)|] == Bare(d);
    } else {
      var p := preamble.value;
      NoDelimiterInside(d, p);
      DataEndsAtDelimiter(d, p, after);
      forall o | 0 <= o <= |p| + 1 ensures !OccursAt(body, Bare(d), o) { NoBareBefore(d, p, after, o); }
    }
  }

  lemma NoDelimiterInside(d: Delimiter, p: seq<Byte>)
    requires forall j :: !OccursAt(p, Bare(d), j)
    ensures forall j :: !OccursAt(p, d, j)
  {
    forall j ensures !OccursAt(p, d, j) {
      if OccursAt(p, d, j) { BareInside(d, p, j); }
    }
  }

  lemma BareInside(d: Delimiter, p: seq<Byte>, j: int)
    requires OccursAt(p, d, j)
    ensures OccursAt(p, Bare(d), j + 2)
  {
    assert p[j + 2..j + 2 + |Bare(d)|] == p[j..j + |d|][2..];
  }

  /** The dashes and text of the boundary do not begin before those of the first boundary line. */
  lemma NoBareBefore(d: Delimiter, p: seq<Byte>, after: seq<Byte>, o: int)
    requires 13 !in d[1..] && (forall j :: !OccursAt(p, Bare(d), j)) && 0 <= o <= |p| + 1
    ensures !OccursAt(p + d + after, Bare(d), o)
  {
    if OccursAt(p + d + after, Bare(d), o) {
      if o >= |p| {
        BareStartsWithDash(d, p, after, o);
      } else if o + |Bare(d)| <= |p| {
        assert p + (d + after) == p + d + after;
        OccursInPrefix(p, d + after, Bare(d), o);
      } else {
        BareAcross(d, p, after, o);
      }
    }
  }

  lemma BareStartsWithDash(d: Delimiter, p: seq<Byte>, after: seq<Byte>, o: int)
    requires o == |p| || o == |p| + 1
    ensures !OccursAt(p + d + after, Bare(d), o)
  {
    var s := p + d + after;
    assert s[o] == d[o - |p|] && d[o - |p|] == d[..4][o - |p|] && Bare(d)[0] == d[2] && d[2] == d[..4][2];
    NoOccurrenceHere(s, Bare(d), o);
  }

  /** An occurrence that reaches into the delimiter covers its CR. */
  lemma BareAcross(d: Delimiter, p: seq<Byte>, after: seq<Byte>, o: int)
    requires OccursAt(p + d + after, Bare(d), o) && o < |p| < o + |Bare(d)|
    ensures 13 in d[1..]
  {
    var s, bare := p + d + after, Bare(d);
    assert s[|p|] == d[0] && d[0] == d[..4][0];
    assert s[o..o + |bare|][|p| - o] == s[|p|];
    assert bare[|p| - o] == d[1..][|p| - o + 1];
  }

  /**
   * The round trip: any sendable parts, printed with any valid boundary, behind any preamble and
   * before any epilogue, and delivered in any chunks, are read back exactly; the run completes,
   * or breaks at the first part beyond the 256th.
   */
  lemma {:induction false} RoundTrip(b: string, preamble: Option<seq<Byte>>, parts: seq<Part>, end: Ending,
                                     chunks: seq<seq<Byte>>)
    requires ValidBoundary(b) && Skippable(DelimiterOf(b), preamble) && Padding(end.pad)
    requires forall p :: p in parts ==> Sendable(DelimiterOf(b), p)
    requires Joined(chunks) == Print(DelimiterOf(b), preamble, parts, end)
    ensures Run(Init(DelimiterOf(b)), chunks) == Expected(parts, 0)
  {
    hide Run, Expected, Sendable, RefAfter, OverlongAfter, Find, ValidBoundary, DelimiterOf, PrintAfter, Skippable,
         Padding, BodyStart, NoStrayBoundary;
    var d := DelimiterOf(b);
    DelimiterHasNoCr(b);
    RefPrinted(d, parts, end, 0, false);
    PrintedStart(d, preamble, PrintAfter(d, parts, end));
    EveryChunking(d, chunks, false);
  }
}
