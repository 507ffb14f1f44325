/**
 * Paths of router.rs and module.rs: '/'-separated segments, joining, and percent-decoding of one
 * segment.
 */
module Paths {
  import opened Basics
  import opened Search
  import opened Text

  // ---------- segments ----------

  function NonEmpty(xs: seq<string>): seq<string> {
    if xs == [] then [] else (if xs[0] == "" then [] else [xs[0]]) + NonEmpty(xs[1..])
  }

  /** The non-empty pieces between slashes. */
  function Segments(path: string): seq<string> { NonEmpty(SplitOn(path, "/")) }

  lemma {:induction false} NonEmptyConcat(a: seq<string>, b: seq<string>)
    ensures NonEmpty(a + b) == NonEmpty(a) + NonEmpty(b)
  {
    if a == [] {
      assert a + b == b;
    } else {
      assert (a + b)[1..] == a[1..] + b;
      NonEmptyConcat(a[1..], b);
    }
  }

  /** Splitting a text at one of its slashes splits its pieces there. */
  lemma {:induction false} SplitAtSlash(a: string, b: string)
    ensures SplitOn(a + "/" + b, "/") == SplitOn(a, "/") + SplitOn(b, "/")
    decreases |a|
  {
    hide SplitOn, Find;
    if '/' !in a {
      SplitOnNone(a, '/');
      SplitOnChar(a, '/', b);
    } else {
      CharOccurs(a, '/');
      var i := Find(a, "/").value;
      var head, rest := a[..i], a[i + 1..];
      assert a == head + "/" + rest;
      SplitOnChar(head, '/', rest);
      SplitAtSlash(rest, b);
      SplitOnChar(head, '/', rest + "/" + b);
      assert a + "/" + b == head + "/" + (rest + "/" + b);
      assert ([head] + SplitOn(rest, "/")) + SplitOn(b, "/") == [head] + (SplitOn(rest, "/") + SplitOn(b, "/"));
    }
  }

  lemma SegmentsAtSlash(a: string, b: string)
    ensures Segments(a + "/" + b) == Segments(a) + Segments(b)
  {
    hide SplitOn, NonEmpty;
    SplitAtSlash(a, b);
    NonEmptyConcat(SplitOn(a, "/"), SplitOn(b, "/"));
  }

  lemma NoSegments()
    ensures Segments("") == []
  {
    hide Find;
    SplitOnNone("", '/');
  }

  // ---------- joining ----------

  function TrimEndSlashes(s: string): string {
    if s != "" && s[|s| - 1] == '/' then TrimEndSlashes(s[..|s| - 1]) else s
  }

  function TrimStartSlashes(s: string): string {
    if s != "" && s[0] == '/' then TrimStartSlashes(s[1..]) else s
  }

  function JoinPaths(prefix: string, rel: string): string {
    var a, b := TrimEndSlashes(prefix), TrimStartSlashes(rel);
    if a == "" && b == "" then "/"
    else if b == "" then a
    else if a == "" then "/" + b
    else a + "/" + b
  }

  lemma {:induction false} TrimEndKeeps(s: string)
    ensures Segments(TrimEndSlashes(s)) == Segments(s)
  {
    hide Segments;
    if s != "" && s[|s| - 1] == '/' {
      var t := s[..|s| - 1];
      TrimEndKeeps(t);
      assert s == t + "/" + "";
      SegmentsAtSlash(t, "");
      NoSegments();
    }
  }

  lemma {:induction false} TrimStartKeeps(s: string)
    ensures Segments(TrimStartSlashes(s)) == Segments(s)
  {
    hide Segments;
    if s != "" && s[0] == '/' {
      TrimStartKeeps(s[1..]);
      assert s == "" + "/" + s[1..];
      SegmentsAtSlash("", s[1..]);
      NoSegments();
    }
  }

  /** Joining paths concatenates their segments, whatever slashes either side has. */
  lemma JoinConcatenates(prefix: string, rel: string)
    ensures Segments(JoinPaths(prefix, rel)) == Segments(prefix) + Segments(rel)
  {
    hide Segments, TrimEndSlashes, TrimStartSlashes;
    var a, b := TrimEndSlashes(prefix), TrimStartSlashes(rel);
    TrimEndKeeps(prefix);
    TrimStartKeeps(rel);
    NoSegments();
    SegmentsAtSlash(a, b);
    assert "" + "/" + b == "/" + b;
    assert "/" + "" == "/";
  }

  // ---------- percent-decoding ----------

  const PERCENT: Byte := 37

  function HexValue(b: Byte): (r: Option<int>)
    ensures r.Some? ==> 0 <= r.value < 16
  {
    if 48 <= b <= 57 then Some(b - 48)
    else if 97 <= b <= 102 then Some(b - 87)
    else if 65 <= b <= 70 then Some(b - 55)
    else None
  }

  /** Replaces every %XX; `None` on a truncated escape or a bad digit. */
  function Unescape(b: seq<Byte>): Option<seq<Byte>> {
    if b == [] then Some([])
    else if b[0] != PERCENT then Prepend(b[0], Unescape(b[1..]))
    else if |b| < 3 || HexValue(b[1]).None? || HexValue(b[2]).None? then None
    else Prepend(HexValue(b[1]).value * 16 + HexValue(b[2]).value, Unescape(b[3..]))
  }

  function Prepend(x: Byte, r: Option<seq<Byte>>): Option<seq<Byte>> {
    match r case None => None case Some(s) => Some([x] + s)
  }

  /** What follows an already decoded part. */
  function After(out: seq<Byte>, r: Option<seq<Byte>>): Option<seq<Byte>> {
    match r case None => None case Some(s) => Some(out + s)
  }

  lemma AfterStep(out: seq<Byte>, x: Byte, r: Option<seq<Byte>>)
    ensures After(out, Prepend(x, r)) == After(out + [x], r) && After([], r) == r
  {
    if r.Some? {
      assert out + ([x] + r.value) == out + [x] + r.value;
      assert [] + r.value == r.value;
    }
  }

  function Decoded(seg: string): Option<string> {
    match Unescape(Encode(seg))
    case None => None
    case Some(bytes) => Decode(bytes)
  }

  /** The byte loop, with its shortcut for segments that have no escape at all. */
  method DecodeSegment(seg: string) returns (r: Option<string>)
    ensures r == Decoded(seg)
  {
    hide Encode, Decode;
    if '%' !in seg {
      PlainDecodesToItself(seg);
      return Some(seg);
    }
    var bytes := Encode(seg);
    var out: seq<Byte> := [];
    var i := 0;
    AfterStep([], 0, Unescape(bytes));
    assert bytes[0..] == bytes;
    while i < |bytes|
      invariant 0 <= i <= |bytes|
      invariant Unescape(bytes) == After(out, Unescape(bytes[i..]))
    {
      var rest := bytes[i..];
      if bytes[i] == PERCENT {
        if i + 1 >= |bytes| || HexValue(bytes[i + 1]).None? { return None; }
        if i + 2 >= |bytes| || HexValue(bytes[i + 2]).None? { return None; }
        assert rest[1] == bytes[i + 1] && rest[2] == bytes[i + 2] && rest[3..] == bytes[i + 3..];
        AfterStep(out, HexValue(bytes[i + 1]).value * 16 + HexValue(bytes[i + 2]).value, Unescape(bytes[i + 3..]));
        out := out + [HexValue(bytes[i + 1]).value * 16 + HexValue(bytes[i + 2]).value];
        i := i + 3;
      } else {
        assert rest[1..] == bytes[i + 1..];
        AfterStep(out, bytes[i], Unescape(bytes[i + 1..]));
        out := out + [bytes[i]];
        i := i + 1;
      }
    }
    assert bytes[i..] == [] && out + [] == out;
    assert Unescape(bytes) == Some(out);
    r := Decode(out);
  }

  /** How a byte may be written: as itself, or as an escape with either case of digit. */
  datatype Form = Plain | Pct(upperHigh: bool, upperLow: bool)

  function HexDigit(n: int, upper: bool): Byte
    requires 0 <= n < 16
  {
    if n < 10 then 48 + n else if upper then 55 + n else 87 + n
  }

  function RenderByte(b: Byte, f: Form): seq<Byte> {
    match f
    case Plain => [b]
    case Pct(h, l) => [PERCENT, HexDigit(b / 16, h), HexDigit(b % 16, l)]
  }

  function Render(bytes: seq<Byte>, forms: seq<Form>): seq<Byte>
    requires |bytes| == |forms|
  {
    if bytes == [] then [] else RenderByte(bytes[0], forms[0]) + Render(bytes[1..], forms[1..])
  }

  /** A percent sign itself has to be escaped; everything else is free. */
  predicate Legal(bytes: seq<Byte>, forms: seq<Form>) {
    |bytes| == |forms| && forall i :: 0 <= i < |bytes| && bytes[i] == PERCENT ==> forms[i].Pct?
  }

  /** Every way of escaping decodes back. */
  lemma {:induction false} UnescapeRender(bytes: seq<Byte>, forms: seq<Form>)
    requires Legal(bytes, forms)
    ensures Unescape(Render(bytes, forms)) == Some(bytes)
  {
    if bytes != [] {
      UnescapeRender(bytes[1..], forms[1..]);
      var head, tail := RenderByte(bytes[0], forms[0]), Render(bytes[1..], forms[1..]);
      assert (head + tail)[|head|..] == tail;
      assert [bytes[0]] + bytes[1..] == bytes;
    }
  }

  /** And nothing else decodes to the same bytes. */
  lemma {:induction false} OnlyRendersUnescape(raw: seq<Byte>) returns (forms: seq<Form>)
    requires Unescape(raw).Some?
    ensures Legal(Unescape(raw).value, forms) && Render(Unescape(raw).value, forms) == raw
  {
    if raw == [] { return []; }
    var n := if raw[0] == PERCENT then 3 else 1;
    var more := OnlyRendersUnescape(raw[n..]);
    var form := if raw[0] == PERCENT then Pct(raw[1] < 97, raw[2] < 97) else Plain;
    forms := [form] + more;
    var out := Unescape(raw).value;
    assert out[1..] == Unescape(raw[n..]).value && forms[1..] == more;
    RenderedHead(raw, out[0], form);
    assert raw == RenderByte(out[0], form) + raw[n..];
  }

  lemma RenderedHead(raw: seq<Byte>, b: Byte, form: Form)
    requires raw != []
    requires if raw[0] == PERCENT
             then |raw| >= 3 && HexValue(raw[1]).Some? && HexValue(raw[2]).Some?
                  && b == HexValue(raw[1]).value * 16 + HexValue(raw[2]).value && form == Pct(raw[1] < 97, raw[2] < 97)
             else b == raw[0] && form == Plain
    ensures RenderByte(b, form) == raw[..if raw[0] == PERCENT then 3 else 1]
  {
    if raw[0] == PERCENT {
      var h, l := HexValue(raw[1]).value, HexValue(raw[2]).value;
      assert b / 16 == h && b % 16 == l;
    }
  }

  /** A segment decodes to `s` exactly when it is one of the ways of writing `s`. */
  lemma DecodesExactly(seg: string, s: string)
    ensures Decoded(seg) == Some(s) <==>
            exists forms :: Legal(Encode(s), forms) && Render(Encode(s), forms) == Encode(seg)
  {
    hide Encode, Decode, Unescape;
    var raw := Encode(seg);
    if Decoded(seg) == Some(s) {
      var bytes := Unescape(raw).value;
      EncodeDecode(bytes);
      var forms := OnlyRendersUnescape(raw);
      assert Legal(Encode(s), forms);
    }
    if forms :| Legal(Encode(s), forms) && Render(Encode(s), forms) == raw {
      UnescapeRender(Encode(s), forms);
      DecodeEncode(s);
    }
  }

  lemma {:induction false} NothingToUnescape(b: seq<Byte>)
    requires PERCENT !in b
    ensures Unescape(b) == Some(b)
  {
    if b != [] {
      NothingToUnescape(b[1..]);
      assert [b[0]] + b[1..] == b;
    }
  }

  lemma PlainDecodesToItself(seg: string)
    requires '%' !in seg
    ensures Decoded(seg) == Some(seg)
  {
    EncodeAscii(seg, PERCENT);
    NothingToUnescape(Encode(seg));
    DecodeEncode(seg);
  }

  /** Every segment in turn; one malformed segment spoils the path. */
  function DecodedAll(raw: seq<string>): Option<seq<string>> {
    if raw == [] then Some([])
    else
      match (Decoded(raw[0]), DecodedAll(raw[1..]))
      case (Some(x), Some(xs)) => Some([x] + xs)
      case (_, _) => None
  }

  /** Pieces of a text are made of its characters. */
  lemma {:induction false} PiecesOf(path: string, c: char)
    requires c !in path
    ensures forall i :: 0 <= i < |SplitOn(path, "/")| ==> c !in SplitOn(path, "/")[i]
    decreases |path|
  {
    hide Find;
    CharOccurs(path, '/');
    if '/' in path {
      var k := Find(path, "/").value;
      PiecesOf(path[k + 1..], c);
    }
  }

  lemma {:induction false} NonEmptyMembers(xs: seq<string>)
    ensures forall x :: x in NonEmpty(xs) ==> x in xs && x != ""
  {
    if xs != [] { NonEmptyMembers(xs[1..]); }
  }

  lemma {:induction false} PlainSegmentsDecode(raw: seq<string>)
    requires forall x :: x in raw ==> '%' !in x
    ensures DecodedAll(raw) == Some(raw)
  {
    hide Decoded;
    if raw != [] {
      PlainDecodesToItself(raw[0]);
      PlainSegmentsDecode(raw[1..]);
      assert [raw[0]] + raw[1..] == raw;
    }
  }

  /** A path with no escape decodes to its own segments. */
  lemma PlainPathDecodes(path: string)
    requires '%' !in path
    ensures DecodedAll(Segments(path)) == Some(Segments(path))
  {
    hide SplitOn, NonEmpty, DecodedAll;
    PiecesOf(path, '%');
    NonEmptyMembers(SplitOn(path, "/"));
    PlainSegmentsDecode(Segments(path));
  }
}
