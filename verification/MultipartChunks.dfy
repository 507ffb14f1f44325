/**
 * Chunk invariance of the multipart parser: exactly when the way a body is cut into
 * chunks cannot change what is parsed, and exactly when it cannot change where the first
 * boundary is seen.
 */
module MultipartChunks {
  import opened Basics
  import opened Search
  import opened PartHeaders
  import opened MultipartParser
  import opened MultipartStream

  /** The body offset just past the first boundary, as a run sees it; `at` is the offset of `s.buf`. */
  function PreambleEnd(s: State, chunks: seq<seq<Byte>>, at: nat): Option<nat>
    requires s.phase.Preamble?
    decreases |chunks| + (if s.eof then 0 else 1)
  {
    var (s', v) := PreambleTurn(s);
    if v.Again? then Some(at + |s.buf| - |s'.buf|)
    else if s.eof then None
    else PreambleEnd(Resume(s', chunks).0, Resume(s', chunks).1, at + |s.buf| - |s'.buf|)
  }

  /** What a run shows: where the first boundary ended, and the merged trace. */
  datatype View = View(firstBoundary: Option<nat>, trace: Trace)

  function Observe(d: Delimiter, chunks: seq<seq<Byte>>): View {
    View(PreambleEnd(Init(d), chunks, 0), Run(Init(d), chunks))
  }

  // ---------- the reference view of a whole body ----------

  function Bare(d: Delimiter): seq<Byte> { d[2..] }

  /** Offset just past the first boundary. A bare boundary one byte before the end counts: the
      holdback then starts exactly there when end of input is seen. */
  function BodyStart(d: Delimiter, body: seq<Byte>): (r: Option<nat>)
    ensures r.Some? ==> r.value <= |body|
  {
    if OccursAt(body, Bare(d), 0) then Some(|Bare(d)|)
    else match Find(body, d)
      case Some(i) => Some(i + |d|)
      case None => if OccursAt(body, Bare(d), |body| - (|d| - 1)) then Some(|body| - 1) else None
  }

  function RefView(d: Delimiter, body: seq<Byte>, strict: bool): View {
    match BodyStart(d, body)
    case None => View(None, Bad("no multipart boundary found"))
    case Some(e) => View(Some(e), RefAfter(d, body[e..], 0, strict))
  }

  /**
   * No bare `--boundary` inside the preamble: none at an offset past 0, with two bytes or more
   * following, before the first full delimiter.
   */
  ghost predicate NoStrayBoundary(d: Delimiter, body: seq<Byte>) {
    || OccursAt(body, Bare(d), 0)
    || forall o :: 1 <= o && o + |d| <= |body| && OccursAt(body, Bare(d), o) ==>
         Find(body, d).Some? && Find(body, d).value < o
  }

  /** Every header block reached ends its blank line within MAX_PART_HEADER_BYTES + 1 bytes. */
  predicate HeadersFit(d: Delimiter, body: seq<Byte>) {
    match BodyStart(d, body)
    case None => true
    case Some(e) => OverlongAfter(d, body[e..], 0).None?
  }

  // ---------- sufficiency ----------

  /** A preamble state: `s.buf` starts at offset `at` of `body`, and nothing skipped mattered. */
  ghost predicate InPreamble(d: Delimiter, body: seq<Byte>, s: State, chunks: seq<seq<Byte>>, at: nat) {
    && s.phase.Preamble? && s.delim == d && s.parts == 0
    && (s.eof ==> chunks == [] && |s.buf| < |d|)
    && at <= |body| && body[at..] == Ahead(s, chunks)
    && (forall j :: 0 <= j < at ==> !OccursAt(body, d, j))
    && (at > 0 ==> |s.buf| >= |d| - 1 && !OccursAt(body, Bare(d), 0))
  }

  lemma {:induction false} OccursInBuffer(d: Delimiter, body: seq<Byte>, s: State, chunks: seq<seq<Byte>>, at: nat,
                                          needle: seq<Byte>, i: nat)
    requires InPreamble(d, body, s, chunks, at) && i + |needle| <= |s.buf|
    ensures OccursAt(s.buf, needle, i) <==> OccursAt(body, needle, at + i)
  {
    OccursInPrefix(s.buf, Joined(chunks), needle, i);
    OccursAfterDrop(body, needle, at, i);
  }

  lemma {:induction false} FindInBuffer(d: Delimiter, body: seq<Byte>, s: State, chunks: seq<seq<Byte>>, at: nat)
    requires InPreamble(d, body, s, chunks, at)
    ensures Find(s.buf, d).Some? ==> Find(body, d) == Some(at + Find(s.buf, d).value)
    ensures Find(s.buf, d).None? ==> forall j :: OccursAt(body, d, j) ==> j + |d| > at + |s.buf|
  {
    hide PreambleTurn, Find, Joined;
    match Find(s.buf, d)
    case Some(i) =>
      FindInPrefix(s.buf, Joined(chunks), d);
      FindAfterDrop(body, d, at);
    case None =>
      forall j | OccursAt(body, d, j) ensures j + |d| > at + |s.buf| {
        if j + |d| <= at + |s.buf| { OccursInBuffer(d, body, s, chunks, at, d, j - at); }
      }
  }

  /** Leaving the preamble happens where the reference says. */
  lemma {:induction false} LeavesAtBare(d: Delimiter, body: seq<Byte>, s: State, chunks: seq<seq<Byte>>, at: nat)
    requires InPreamble(d, body, s, chunks, at) && NoStrayBoundary(d, body)
    requires OccursAt(s.buf, Bare(d), 0)
    ensures BodyStart(d, body) == Some(at + |d| - 2)
  {
    OccursInBuffer(d, body, s, chunks, at, Bare(d), 0);
    if at > 0 {
      assert at + |d| > |body| by {
        if at + |d| <= |body| { assert false; }
      }
      FindInBuffer(d, body, s, chunks, at);
      assert |body[at..]| >= |s.buf|;
      FindNone(body, d);
    }
  }

  lemma {:induction false} LeavesAtDelimiter(d: Delimiter, body: seq<Byte>, s: State, chunks: seq<seq<Byte>>, at: nat,
                                             i: nat)
    requires InPreamble(d, body, s, chunks, at)
    requires !OccursAt(s.buf, Bare(d), 0) && Find(s.buf, d) == Some(i)
    ensures BodyStart(d, body) == Some(at + i + |d|)
  {
    hide Find, PreambleTurn, Joined;
    FindInBuffer(d, body, s, chunks, at);
    if at == 0 { OccursInBuffer(d, body, s, chunks, at, Bare(d), 0); }
  }

  lemma {:induction false} PreambleExit(d: Delimiter, body: seq<Byte>, s: State, s': State, chunks: seq<seq<Byte>>,
                                        at: nat)
    requires InPreamble(d, body, s, chunks, at) && NoStrayBoundary(d, body)
    requires PreambleTurn(s) == (s', Again)
    ensures |s'.buf| <= |s.buf| && s' == s.(buf := s.buf[|s.buf| - |s'.buf|..], phase := AfterBoundary)
    ensures BodyStart(d, body) == Some(at + |s.buf| - |s'.buf|)
    ensures Ahead(s', chunks) == body[at + |s.buf| - |s'.buf|..]
  {
    hide BodyStart, NoStrayBoundary;
    if OccursAt(s.buf, Bare(d), 0) {
      LeavesAtBare(d, body, s, chunks, at);
    } else {
      LeavesAtDelimiter(d, body, s, chunks, at, Find(s.buf, d).value);
    }
    var n := |s.buf| - |s'.buf|;
    ConsumeAhead(s, n, chunks);
    assert body[at..][n..] == body[at + n..];
  }

  lemma {:induction false} NoBoundary(d: Delimiter, body: seq<Byte>, s: State, at: nat)
    requires InPreamble(d, body, s, [], at) && s.eof
    requires !OccursAt(s.buf, Bare(d), 0) && Find(s.buf, d).None?
    ensures BodyStart(d, body) == None
  {
    FindInBuffer(d, body, s, [], at);
    assert at + |s.buf| == |body| by { assert |body[at..]| == |s.buf|; }
    FindNone(body, d);
    if |s.buf| >= |d| - 2 { OccursInBuffer(d, body, s, [], at, Bare(d), 0); }
  }

  lemma {:induction false} WaitKeepsInPreamble(d: Delimiter, body: seq<Byte>, s: State, chunks: seq<seq<Byte>>, at: nat)
    requires InPreamble(d, body, s, chunks, at) && PreambleTurn(s).1 == Return(NeedMore)
    ensures var s' := PreambleTurn(s).0;
            InPreamble(d, body, Resume(s', chunks).0, Resume(s', chunks).1, at + |s.buf| - |s'.buf|)
  {
    FindInBuffer(d, body, s, chunks, at);
    var s' := PreambleTurn(s).0;
    var cut := |s.buf| - |s'.buf|;
    assert body[at..][cut..] == body[at + cut..];
    ConsumeAhead(s, cut, chunks);
    ResumeKeepsAhead(s', chunks);
    if at == 0 && cut > 0 { OccursInBuffer(d, body, s, chunks, at, Bare(d), 0); }
  }

  lemma {:induction false} PreambleRun(d: Delimiter, body: seq<Byte>, s: State, chunks: seq<seq<Byte>>, at: nat,
                                       strict: bool)
    requires InPreamble(d, body, s, chunks, at) && NoStrayBoundary(d, body) && HeadersFit(d, body)
    ensures View(PreambleEnd(s, chunks, at), Run(s, chunks)) == RefView(d, body, strict)
    decreases |chunks| + (if s.eof then 0 else 1)
  {
    hide Run, RefAfter, OverlongAfter, NoStrayBoundary, BodyStart, Find, OccursAt;
    var s', v := Turn(s).0, Turn(s).1;
    if v.Again? {
      PreambleDone(d, body, s, s', chunks, at, strict);
    } else if s.eof {
      NoBoundary(d, body, s, at);
      RunFails(s, s', Malformed("no multipart boundary found"), chunks);
    } else {
      WaitKeepsInPreamble(d, body, s, chunks, at);
      RunWaits(s, s', chunks);
      PreambleRun(d, body, Resume(s', chunks).0, Resume(s', chunks).1, at + |s.buf| - |s'.buf|, strict);
    }
  }

  lemma {:induction false} PreambleDone(d: Delimiter, body: seq<Byte>, s: State, s': State, chunks: seq<seq<Byte>>,
                                        at: nat, strict: bool)
    requires InPreamble(d, body, s, chunks, at) && NoStrayBoundary(d, body) && HeadersFit(d, body)
    requires Turn(s) == PreambleTurn(s) == (s', Again)
    ensures View(PreambleEnd(s, chunks, at), Run(s, chunks)) == RefView(d, body, strict)
  {
    hide Run, RefAfter, OverlongAfter, NoStrayBoundary, BodyStart, Find, OccursAt, PreambleTurn, Turn, Ahead;
    PreambleExit(d, body, s, s', chunks, at);
    RunAgain(s, s', chunks);
    RunIs(s', chunks, strict);
  }

  /** Under the two conditions every chunking shows the reference view. */
  lemma {:induction false} EveryChunking(d: Delimiter, chunks: seq<seq<Byte>>, strict: bool)
    requires NoStrayBoundary(d, Joined(chunks)) && HeadersFit(d, Joined(chunks))
    ensures Observe(d, chunks) == RefView(d, Joined(chunks), strict)
  {
    assert [] + Joined(chunks) == Joined(chunks) == Joined(chunks)[0..];
    PreambleRun(d, Joined(chunks), Init(d), chunks, 0, strict);
  }

  // ---------- necessity ----------

  /** Nothing skipped or held yet but `buf`. */
  function Fresh(d: Delimiter, buf: seq<Byte>): State { State(d, buf, Preamble, 0, false, 0) }

  lemma {:induction false} PreambleWaits(d: Delimiter, buf: seq<Byte>)
    requires !OccursAt(buf, Bare(d), 0) && Find(buf, d).None?
    ensures PreambleTurn(Fresh(d, buf)) == (Fresh(d, buf[|buf| - Min(|d| - 1, |buf|)..]), Return(NeedMore))
  {
  }

  lemma {:induction false} EmptyWaits(d: Delimiter)
    ensures PreambleTurn(Init(d)) == (Init(d), Return(NeedMore))
  {
    PreambleWaits(d, []);
  }

  lemma {:induction false} PreambleEndAfterWait(s: State, s': State, chunks: seq<seq<Byte>>, at: nat)
    requires s.phase.Preamble? && !s.eof && PreambleTurn(s) == (s', Return(NeedMore)) && |s'.buf| <= |s.buf|
    ensures s'.phase.Preamble?
    ensures var (s'', rest) := Resume(s', chunks);
            PreambleEnd(s, chunks, at) == PreambleEnd(s'', rest, at + |s.buf| - |s'.buf|)
  {
  }

  /** One feed and one poll from the start: the first chunk is in the buffer. */
  lemma {:induction false} FirstChunk(d: Delimiter, c: seq<Byte>, more: seq<seq<Byte>>)
    ensures PreambleEnd(Init(d), [c] + more, 0) == PreambleEnd(Fresh(d, c), more, 0)
    ensures Run(Init(d), [c] + more) == Run(Fresh(d, c), more)
  {
    hide Run, PreambleTurn, PreambleEnd, Find, OccursAt;
    EmptyWaits(d);
    var s := Init(d);
    assert Resume(s, [c] + more) == (Fresh(d, c), more) by {
      assert ([c] + more)[1..] == more && [] + c == c;
    }
    RunWaits(s, s, [c] + more);
    PreambleEndAfterWait(s, s, [c] + more, 0);
  }

  /** Where the first boundary is seen when the body arrives whole. */
  lemma {:induction false} WholeBodyEnd(d: Delimiter, body: seq<Byte>)
    ensures PreambleEnd(Init(d), [body], 0) == BodyStart(d, body)
  {
    hide Run, Find, OccursAt, PreambleEnd, PreambleTurn;
    assert [body] + [] == [body];
    FirstChunk(d, body, []);
    if OccursAt(body, Bare(d), 0) || Find(body, d).Some? {
      WholeBodyStarts(d, body);
    } else {
      NothingInWholeBody(d, body);
    }
  }

  lemma {:induction false} WholeBodyStarts(d: Delimiter, body: seq<Byte>)
    requires OccursAt(body, Bare(d), 0) || Find(body, d).Some?
    ensures PreambleEnd(Fresh(d, body), [], 0) == BodyStart(d, body)
  {
    hide Find;
    var e := BodyStart(d, body).value;
    assert PreambleTurn(Fresh(d, body)) == (State(d, body[e..], AfterBoundary, 0, false, 0), Again);
  }

  lemma {:induction false} NothingInWholeBody(d: Delimiter, body: seq<Byte>)
    requires !OccursAt(body, Bare(d), 0) && Find(body, d).None?
    ensures PreambleEnd(Fresh(d, body), [], 0) == BodyStart(d, body)
  {
    hide PreambleTurn, PreambleEnd;
    var n := |body| - Min(|d| - 1, |body|);
    PreambleWaits(d, body);
    PreambleEndAfterWait(Fresh(d, body), Fresh(d, body[n..]), [], 0);
    assert |body[n..]| < |d|;
    EndOfInput(d, body[n..], n);
    OccursAfterDrop(body, Bare(d), n, 0);
  }

  lemma {:induction false} EndOfInput(d: Delimiter, buf: seq<Byte>, at: nat)
    requires |buf| < |d|
    ensures PreambleEnd(Fresh(d, buf).Finish(), [], at) ==
            if OccursAt(buf, Bare(d), 0) then Some(at + |d| - 2) else None
  {
    FindNone(buf, d);
  }

  /** A stray bare boundary is taken for the first boundary when a chunk ends one byte after it. */
  lemma {:induction false} StrayEnd(d: Delimiter, body: seq<Byte>, o: nat, c: seq<Byte>, tail: seq<Byte>)
    requires !OccursAt(body, Bare(d), 0)
    requires 1 <= o && o + |d| <= |body| && OccursAt(body, Bare(d), o)
    requires !(Find(body, d).Some? && Find(body, d).value < o)
    requires body == c + tail && |c| == o + |d| - 1
    ensures PreambleEnd(Init(d), [c, tail], 0) == Some(o + |d| - 2)
  {
    hide Run, PreambleTurn, PreambleEnd;
    FirstChunk(d, c, [tail]);
    assert [c] + [tail] == [c, tail];
    NoHitBefore(d, body, o, c, tail);
    PreambleWaits(d, c);
    assert c[o..] + tail == body[o..];
    StrayTaken(d, body, Fresh(d, c[o..]), tail, o);
    PreambleEndAfterWait(Fresh(d, c), Fresh(d, c[o..]), [tail], 0);
  }

  lemma {:induction false} NoHitBefore(d: Delimiter, body: seq<Byte>, o: nat, c: seq<Byte>, tail: seq<Byte>)
    requires !OccursAt(body, Bare(d), 0)
    requires !(Find(body, d).Some? && Find(body, d).value < o)
    requires body == c + tail && |c| == o + |d| - 1
    ensures !OccursAt(c, Bare(d), 0) && Find(c, d).None?
  {
    OccursInPrefix(c, tail, Bare(d), 0);
    if Find(c, d).Some? { FindInPrefix(c, tail, d); }
  }

  lemma {:induction false} StrayIsSeen(d: Delimiter, body: seq<Byte>)
    requires !NoStrayBoundary(d, body)
    ensures exists c, tail ::
              c + tail == body && Observe(d, [c, tail]).firstBoundary != Observe(d, [body]).firstBoundary
  {
    hide Run, PreambleEnd;
    var o :| 1 <= o && o + |d| <= |body| && OccursAt(body, Bare(d), o)
             && !(Find(body, d).Some? && Find(body, d).value < o);
    var k := o + |d| - 1;
    var c, tail := body[..k], body[k..];
    assert c + tail == body;
    StrayEnd(d, body, o, c, tail);
    WholeBodyEnd(d, body);
    BareIsNotDelimiter(d, body, o);
    assert BodyStart(d, body) != Some(o + |d| - 2);
  }

  lemma {:induction false} StrayTaken(d: Delimiter, body: seq<Byte>, s: State, tail: seq<Byte>, o: nat)
    requires s.phase.Preamble? && !s.eof && s.delim == d && o <= |body| && s.buf + tail == body[o..]
    requires OccursAt(body, Bare(d), o)
    ensures PreambleEnd(Resume(s, [tail]).0, Resume(s, [tail]).1, o) == Some(o + |d| - 2)
  {
    OccursAfterDrop(body, Bare(d), o, 0);
  }

  lemma {:induction false} BareIsNotDelimiter(d: Delimiter, body: seq<Byte>, o: nat)
    requires OccursAt(body, Bare(d), o)
    ensures !OccursAt(body, d, o)
  {
    assert Bare(d)[0] == d[2] == d[..4][2] == 45 && d[0] == d[..4][0] == 13;
    assert body[o] == body[o..o + |Bare(d)|][0];
    NoOccurrenceHere(body, d, o);
  }

  lemma {:induction false} JoinedPair(a: seq<Byte>, b: seq<Byte>)
    ensures Joined([a, b]) == a + b && Joined([a]) == a
  {
    assert [a, b][1..] == [b] && [b][1..] == [] && [a][1..] == [];
    assert Joined([b]) == b + Joined([]) == b && Joined([a]) == a + Joined([]) == a;
  }

  lemma {:induction false} PushInjective(data: seq<Byte>, e: Event, a: Trace, b: Trace)
    requires a != b && !e.Data?
    ensures Push(e, a) != Push(e, b) && PushData(data, Push(e, a)) != PushData(data, Push(e, b))
  {
    assert a.events != b.events ==> ([e] + a.events)[1..] == a.events && ([e] + b.events)[1..] == b.events;
    var pa, pb := Push(e, a), Push(e, b);
    assert pa.events != pb.events ==>
        ([Data(data)] + pa.events)[1..] == pa.events && ([Data(data)] + pb.events)[1..] == pb.events;
  }

  /** An over-long block makes the strict and the lenient reading differ. */
  lemma {:induction false} StrictDiffersAfter(d: Delimiter, rest: seq<Byte>, parts: nat)
    requires OverlongAfter(d, rest, parts).Some?
    ensures RefAfter(d, rest, parts, true) != RefAfter(d, rest, parts, false)
    decreases |rest|
  {
    hide RefHeaders, OverlongHeaders, Find, PadRun;
    var at := LineToken(rest).at;
    StrictDiffersHeaders(d, rest[at..], parts + 1);
  }

  lemma {:induction false} StrictDiffersHeaders(d: Delimiter, rest: seq<Byte>, parts: nat)
    requires OverlongHeaders(d, rest, parts).Some?
    ensures RefHeaders(d, rest, parts, true) != RefHeaders(d, rest, parts, false)
    decreases |rest|
  {
    hide RefBody, OverlongBody, HeadersOf;
    var i := Find(rest, BLANK_LINE).value;
    var parsed := HeadersOf(rest[..i]);
    BlockErrorsAreMalformed(rest[..i]);
    if i + 3 <= MAX_PART_HEADER_BYTES {
      StrictDiffersBody(d, rest[i + 4..], parts);
      PushInjective([], PartHeaders(parsed.value),
                    RefBody(d, rest[i + 4..], parts, true), RefBody(d, rest[i + 4..], parts, false));
    }
  }

  lemma {:induction false} StrictDiffersBody(d: Delimiter, rest: seq<Byte>, parts: nat)
    requires OverlongBody(d, rest, parts).Some?
    ensures RefBody(d, rest, parts, true) != RefBody(d, rest, parts, false)
    decreases |rest|
  {
    hide RefAfter, OverlongAfter, Find;
    var c := ContentToken(d, rest);
    var at := c.end.value;
    StrictDiffersAfter(d, rest[at..], parts);
    PushInjective(c.data, EndOfPart, RefAfter(d, rest[at..], parts, true), RefAfter(d, rest[at..], parts, false));
  }

  /** A first chunk that holds the first boundary leaves the preamble on the first poll. */
  lemma {:induction false} LeavesAtOnce(d: Delimiter, c: seq<Byte>, tail: seq<Byte>, e: nat)
    requires BodyStart(d, c + tail) == Some(e) && e <= |c|
    requires OccursAt(c + tail, Bare(d), 0) || Find(c + tail, d).Some?
    ensures PreambleTurn(Fresh(d, c)) == (State(d, c[e..], AfterBoundary, 0, false, 0), Again)
  {
    var body := c + tail;
    if |Bare(d)| <= |c| { OccursInPrefix(c, tail, Bare(d), 0); }
    if !OccursAt(body, Bare(d), 0) {
      if Find(c, d).Some? {
        FindInPrefix(c, tail, d);
      } else {
        FindBeyondPrefix(c, tail, d);
        assert false;
      }
    }
  }

  lemma {:induction false} RunFromFirstBoundary(d: Delimiter, c: seq<Byte>, more: seq<seq<Byte>>, e: nat, strict: bool)
    requires BodyStart(d, c + Joined(more)) == Some(e) && e <= |c|
    requires OccursAt(c + Joined(more), Bare(d), 0) || Find(c + Joined(more), d).Some?
    requires Steered(State(d, c[e..], AfterBoundary, 0, false, 0), more, strict)
    ensures Run(Init(d), [c] + more) == RefAfter(d, c[e..] + Joined(more), 0, strict)
  {
    hide Run, Find, OccursAt, BodyStart, RefAfter, PreambleTurn, Steered, PreambleEnd;
    FirstChunk(d, c, more);
    LeavesAtOnce(d, c, Joined(more), e);
    var s1 := State(d, c[e..], AfterBoundary, 0, false, 0);
    assert Turn(Fresh(d, c)) == PreambleTurn(Fresh(d, c));
    RunAgain(Fresh(d, c), s1, more);
    RunIs(s1, more, strict);
  }

  /** A chunk that ends one byte short of an over-long block's end turns it into the size error. */
  lemma {:induction false} OverlongIsSeen(d: Delimiter, body: seq<Byte>)
    requires !HeadersFit(d, body)
    ensures exists c, tail :: c + tail == body && Observe(d, [c, tail]) != Observe(d, [body])
  {
    hide Run, RefAfter, OccursAt, Find, PreambleEnd, RefTrace;
    var c, tail := StartOverlongIsSeen(d, body);
    WholeBodyRun(d, body);
  }

  /**
   * Every way of cutting the body into chunks takes the same first boundary and has the same
   * merged trace if and only if the preamble holds no stray bare boundary and every header block
   * reached fits. (The trace alone can be the same with a stray boundary; see below.)
   */
  lemma {:induction false} BoundaryInvariance(d: Delimiter, body: seq<Byte>)
    ensures (forall chunks :: Joined(chunks) == body ==> Observe(d, chunks) == Observe(d, [body]))
       <==> NoStrayBoundary(d, body) && HeadersFit(d, body)
  {
    hide Observe, HeadersFit, NoStrayBoundary;
    JoinedPair(body, []);
    if NoStrayBoundary(d, body) && HeadersFit(d, body) {
      EveryChunking(d, [body], false);
      forall chunks | Joined(chunks) == body ensures Observe(d, chunks) == Observe(d, [body]) {
        EveryChunking(d, chunks, false);
      }
    } else {
      if !NoStrayBoundary(d, body) { StrayIsSeen(d, body); } else { OverlongIsSeen(d, body); }
      var c, tail :| c + tail == body && Observe(d, [c, tail]) != Observe(d, [body]);
      JoinedPair(c, tail);
    }
  }

  // ---------- the trace alone, exactly ----------

  /** A bare boundary in the preamble that some cutting takes for the first boundary. */
  ghost predicate Stray(d: Delimiter, body: seq<Byte>, o: int) {
    && !OccursAt(body, Bare(d), 0)
    && 1 <= o && o + |d| <= |body| && OccursAt(body, Bare(d), o)
    && !(Find(body, d).Some? && Find(body, d).value < o)
  }

  /** The offset just past a boundary that some cutting of the body leaves the preamble at. */
  ghost predicate IsExit(d: Delimiter, body: seq<Byte>, e: nat) {
    e <= |body| && (BodyStart(d, body) == Some(e) || Stray(d, body, e - (|d| - 2)))
  }

  function RefTrace(d: Delimiter, body: seq<Byte>): Trace {
    match BodyStart(d, body)
    case None => Bad("no multipart boundary found")
    case Some(e) => RefAfter(d, body[e..], 0, false)
  }

  /** From `e` on no header block is over-long, and the rest of the body means what the whole means. */
  predicate Agreeable(d: Delimiter, body: seq<Byte>, e: nat) {
    e <= |body| && OverlongAfter(d, body[e..], 0).None? && RefAfter(d, body[e..], 0, false) == RefTrace(d, body)
  }

  /**
   * From wherever a cutting may leave the preamble, no header block is over-long and the rest
   * of the body means the same.
   */
  ghost predicate ChunkFree(d: Delimiter, body: seq<Byte>) {
    forall e: nat :: IsExit(d, body, e) ==> Agreeable(d, body, e)
  }

  /** Leaving the preamble happens at one of the exits. */
  lemma {:induction false} LeavesAtExit(d: Delimiter, body: seq<Byte>, s: State, s': State, chunks: seq<seq<Byte>>,
                                        at: nat)
    requires InPreamble(d, body, s, chunks, at) && PreambleTurn(s) == (s', Again)
    ensures |s'.buf| <= |s.buf| && s' == s.(buf := s.buf[|s.buf| - |s'.buf|..], phase := AfterBoundary)
    ensures IsExit(d, body, at + |s.buf| - |s'.buf|)
    ensures Ahead(s', chunks) == body[at + |s.buf| - |s'.buf|..]
  {
    hide BodyStart, Stray, Joined, Find;
    if OccursAt(s.buf, Bare(d), 0) {
      BareExit(d, body, s, chunks, at);
    } else {
      LeavesAtDelimiter(d, body, s, chunks, at, Find(s.buf, d).value);
    }
    var n := |s.buf| - |s'.buf|;
    ConsumeAhead(s, n, chunks);
    assert body[at..][n..] == body[at + n..];
  }

  lemma {:induction false} BareExit(d: Delimiter, body: seq<Byte>, s: State, chunks: seq<seq<Byte>>, at: nat)
    requires InPreamble(d, body, s, chunks, at) && OccursAt(s.buf, Bare(d), 0)
    ensures IsExit(d, body, at + |d| - 2)
  {
    hide Find, PreambleTurn, Joined;
    OccursInBuffer(d, body, s, chunks, at, Bare(d), 0);
    assert |body[at..]| >= |s.buf|;
    if at > 0 {
      if Find(body, d).Some? {
        assert OccursAt(body, d, Find(body, d).value);
      }
      if at + |d| <= |body| {
        assert Stray(d, body, at);
      } else {
        assert at == |body| - (|d| - 1);
      }
    }
  }

  lemma {:induction false} FreeRun(d: Delimiter, body: seq<Byte>, s: State, chunks: seq<seq<Byte>>, at: nat)
    requires InPreamble(d, body, s, chunks, at) && ChunkFree(d, body)
    ensures Run(s, chunks) == RefTrace(d, body)
    decreases |chunks| + (if s.eof then 0 else 1)
  {
    hide Run, RefAfter, OverlongAfter, ChunkFree, BodyStart, Find, OccursAt;
    var s', v := Turn(s).0, Turn(s).1;
    if v.Again? {
      FreeExit(d, body, s, s', chunks, at);
    } else if s.eof {
      NoBoundary(d, body, s, at);
      RunFails(s, s', Malformed("no multipart boundary found"), chunks);
    } else {
      WaitKeepsInPreamble(d, body, s, chunks, at);
      RunWaits(s, s', chunks);
      FreeRun(d, body, Resume(s', chunks).0, Resume(s', chunks).1, at + |s.buf| - |s'.buf|);
    }
  }

  lemma {:induction false} FreeExit(d: Delimiter, body: seq<Byte>, s: State, s': State, chunks: seq<seq<Byte>>, at: nat)
    requires InPreamble(d, body, s, chunks, at) && ChunkFree(d, body)
    requires Turn(s) == PreambleTurn(s) == (s', Again)
    ensures Run(s, chunks) == RefTrace(d, body)
  {
    hide Run, RefAfter, OverlongAfter, IsExit, RefTrace, Find, OccursAt, PreambleTurn, Turn, Ahead;
    LeavesAtExit(d, body, s, s', chunks, at);
    RunAgain(s, s', chunks);
    RunIs(s', chunks, false);
  }

  lemma LateTail(d: Delimiter, body: seq<Byte>)
    requires OccursAt(body, Bare(d), |body| - (|d| - 1))
    ensures |body| >= 1 && RefAfter(d, body[|body| - 1..], 0, false) == Bad("truncated multipart boundary line")
  {
    hide RefAfter, Find;
    OneByteLine(d, body[|body| - 1..]);
  }

  lemma OneByteLine(d: Delimiter, rest: seq<Byte>)
    requires |rest| == 1
    ensures RefAfter(d, rest, 0, false) == Bad("truncated multipart boundary line")
  {
    hide RefHeaders, Find, OccursAt;
    assert LineToken(rest) == BadLine("truncated multipart boundary line");
  }

  /** Fed whole, the run is the reference trace, always. */
  lemma {:induction false} WholeBodyRun(d: Delimiter, body: seq<Byte>)
    ensures Run(Init(d), [body]) == RefTrace(d, body)
  {
    hide Run, Find, OccursAt, RefHeaders;
    if OccursAt(body, Bare(d), 0) || Find(body, d).Some? {
      var e := BodyStart(d, body).value;
      assert body + [] == body && body[e..] + [] == body[e..] && [body] + [] == [body];
      RunFromFirstBoundary(d, body, [], e, false);
    } else {
      StreamedWithoutBoundary(d, body);
      if OccursAt(body, Bare(d), |body| - (|d| - 1)) { LateTail(d, body); }
    }
  }

  /** A cut one byte after a stray boundary, and another at `k`: the run leaves the preamble at the stray one. */
  lemma {:induction false} StrayRun(d: Delimiter, body: seq<Byte>, o: nat, mid: seq<Byte>, more: seq<seq<Byte>>,
                                    strict: bool)
    requires Stray(d, body, o) && body == body[..o + |d| - 1] + mid + Joined(more)
    requires Steered(State(d, body[o + |d| - 2..o + |d| - 1] + mid, AfterBoundary, 0, false, 0), more, strict)
    ensures Run(Init(d), [body[..o + |d| - 1], mid] + more) == RefAfter(d, body[o + |d| - 2..], 0, strict)
  {
    hide Run, PreambleEnd, Find, RefAfter, Steered, OverlongAfter, Joined;
    var k := o + |d| - 1;
    var c, rest := body[..k], mid + Joined(more);
    assert body == c + rest;
    FirstChunk(d, c, [mid] + more);
    assert [c] + ([mid] + more) == [c, mid] + more;
    NoHitBefore(d, body, o, c, rest);
    PreambleWaits(d, c);
    assert Turn(Fresh(d, c)) == PreambleTurn(Fresh(d, c));
    RunWaits(Fresh(d, c), Fresh(d, c[o..]), [mid] + more);
    var s := Fresh(d, c[o..] + mid);
    assert Resume(Fresh(d, c[o..]), [mid] + more) == (s, more) by { assert ([mid] + more)[1..] == more; }
    var s1 := State(d, body[o + |d| - 2..k] + mid, AfterBoundary, 0, false, 0);
    StrayLeaves(d, body, o, mid, s, s1);
    RunAgain(s, s1, more);
    RunIs(s1, more, strict);
    assert body[o + |d| - 2..] == body[o + |d| - 2..k] + mid + Joined(more);
  }

  lemma {:induction false} StrayLeaves(d: Delimiter, body: seq<Byte>, o: nat, mid: seq<Byte>, s: State, s1: State)
    requires Stray(d, body, o) && s == Fresh(d, body[o..o + |d| - 1] + mid)
    requires s1 == State(d, body[o + |d| - 2..o + |d| - 1] + mid, AfterBoundary, 0, false, 0)
    ensures Turn(s) == (s1, Again)
  {
    hide Find;
    var b := Bare(d);
    assert body[o..o + |b|] == b;
    assert s.buf[0..|b|] == b;
    assert s.buf[|b|..] == body[o + |d| - 2..o + |d| - 1] + mid;
  }

  /** What a stray exit means is a trace that some cutting has. */
  lemma {:induction false} StrayTraceIsSeen(d: Delimiter, body: seq<Byte>, o: nat) returns (chunks: seq<seq<Byte>>)
    requires Stray(d, body, o)
    ensures Joined(chunks) == body && Run(Init(d), chunks) == RefAfter(d, body[o + |d| - 2..], 0, false)
  {
    hide Run, RefAfter, Stray, OverlongAfter;
    StrayFits(d, body, o);
    var k := o + |d| - 1;
    var c, tail := body[..k], body[k..];
    assert c + tail == body && body == c + tail + Joined([]);
    JoinedPair(c, tail);
    StrayRun(d, body, o, tail, [], false);
    chunks := [c, tail];
    assert [c, tail] + [] == [c, tail];
  }

  lemma StrayFits(d: Delimiter, body: seq<Byte>, o: int)
    requires Stray(d, body, o)
    ensures 1 <= o && o + |d| <= |body|
  {
  }

  /** An over-long block after a stray exit is rejected by some cutting. */
  lemma {:induction false} StrayOverlongIsSeen(d: Delimiter, body: seq<Byte>, o: nat) returns (chunks: seq<seq<Byte>>)
    requires Stray(d, body, o) && o + |d| <= |body| && OverlongAfter(d, body[o + |d| - 2..], 0).Some?
    ensures Joined(chunks) == body && Run(Init(d), chunks) == RefAfter(d, body[o + |d| - 2..], 0, true)
  {
    hide Run, RefAfter, Stray, OverlongAfter, Find;
    var e, k := o + |d| - 2, o + |d| - 1;
    var n := OverlongAfter(d, body[e..], 0).value;
    var c, mid, tail := body[..k], body[k..e + n - 1], body[e + n - 1..];
    assert body == c + mid + tail;
    JoinedTriple(c, mid, tail);
    assert body[e..k] + mid == body[e..e + n - 1] && body[e..e + n - 1] + tail == body[e..];
    StrayRun(d, body, o, mid, [tail], true);
    chunks := [c, mid, tail];
    assert [c, mid] + [tail] == chunks;
  }

  lemma {:induction false} JoinedTriple(a: seq<Byte>, b: seq<Byte>, c: seq<Byte>)
    ensures Joined([a, b, c]) == a + b + c && Joined([c]) == c
  {
    JoinedPair(b, c);
    JoinedPair(c, []);
    assert [a, b, c][1..] == [b, c];
  }

  /** Behind a bare boundary a byte before the end there is no room for a block. */
  lemma OverlongNeedsRoom(d: Delimiter, body: seq<Byte>)
    requires BodyStart(d, body).Some? && OverlongAfter(d, body[BodyStart(d, body).value..], 0).Some?
    ensures OccursAt(body, Bare(d), 0) || Find(body, d).Some?
  {
    hide OverlongAfter, Find, OccursAt;
  }

  /** An over-long block after the ordinary exit is rejected by some cutting. */
  lemma {:induction false} StartOverlongIsSeen(d: Delimiter, body: seq<Byte>) returns (c: seq<Byte>, tail: seq<Byte>)
    requires BodyStart(d, body).Some? && OverlongAfter(d, body[BodyStart(d, body).value..], 0).Some?
    ensures c + tail == body && Run(Init(d), [c, tail]) != RefTrace(d, body)
  {
    hide Run, RefAfter, OccursAt, Find, PreambleEnd, OverlongAfter, BodyStart;
    var e := BodyStart(d, body).value;
    var n := OverlongAfter(d, body[e..], 0).value;
    var k := e + n - 1;
    c, tail := body[..k], body[k..];
    assert c + tail == body && c[e..] + tail == body[e..];
    OverlongNeedsRoom(d, body);
    JoinedPair(tail, []);
    RunFromFirstBoundary(d, c, [tail], e, true);
    assert [c] + [tail] == [c, tail];
    StrictDiffersAfter(d, body[e..], 0);
  }

  /** A stray exit that means something else, or has an over-long block, is told by some cutting. */
  lemma {:induction false} StrayDiffers(d: Delimiter, body: seq<Byte>, o: nat, t: Trace)
    returns (chunks: seq<seq<Byte>>)
    requires Stray(d, body, o) && o + |d| <= |body|
    requires OverlongAfter(d, body[o + |d| - 2..], 0).Some? || RefAfter(d, body[o + |d| - 2..], 0, false) != t
    ensures Joined(chunks) == body && Run(Init(d), chunks) != t
  {
    hide Run, RefAfter, OverlongAfter, Stray, Find, OccursAt, Joined;
    chunks := StrayTraceIsSeen(d, body, o);
    if RefAfter(d, body[o + |d| - 2..], 0, false) == t {
      chunks := StrayOverlongIsSeen(d, body, o);
      StrictDiffersAfter(d, body[o + |d| - 2..], 0);
    }
  }

  /** Where the condition fails, some cutting has another trace. */
  lemma {:induction false} DifferenceIsSeen(d: Delimiter, body: seq<Byte>) returns (chunks: seq<seq<Byte>>)
    requires !ChunkFree(d, body)
    ensures Joined(chunks) == body && Run(Init(d), chunks) != RefTrace(d, body)
  {
    hide Run, Agreeable, IsExit, RefTrace, Joined;
    var e: nat :| IsExit(d, body, e) && !Agreeable(d, body, e);
    chunks := ExitDiffers(d, body, e);
  }

  lemma {:induction false} ExitDiffers(d: Delimiter, body: seq<Byte>, e: nat) returns (chunks: seq<seq<Byte>>)
    requires IsExit(d, body, e) && !Agreeable(d, body, e)
    ensures Joined(chunks) == body && Run(Init(d), chunks) != RefTrace(d, body)
  {
    hide Run, RefAfter, OverlongAfter, Stray, BodyStart, RefTrace, Joined;
    if BodyStart(d, body) == Some(e) {
      StartTrace(d, body, e);
      var c, tail := StartOverlongIsSeen(d, body);
      JoinedPair(c, tail);
      chunks := [c, tail];
    } else {
      StrayFits(d, body, e - (|d| - 2));
      chunks := StrayDiffers(d, body, e - (|d| - 2), RefTrace(d, body));
    }
  }

  lemma StartTrace(d: Delimiter, body: seq<Byte>, e: nat)
    requires BodyStart(d, body) == Some(e)
    ensures RefTrace(d, body) == RefAfter(d, body[e..], 0, false)
  {
  }

  /**
   * Chunk invariance, exactly: every way of cutting the body into chunks gives the same merged
   * events and the same outcome if and only if, from each offset at which a cutting may leave the
   * preamble, no header block is over-long and the rest of the body means the same.
   */
  lemma {:induction false} ChunkInvariance(d: Delimiter, body: seq<Byte>)
    ensures (forall chunks :: Joined(chunks) == body ==> Run(Init(d), chunks) == Run(Init(d), [body])) <==>
              ChunkFree(d, body)
  {
    hide Run, ChunkFree, RefTrace;
    JoinedPair(body, []);
    WholeBodyRun(d, body);
    if ChunkFree(d, body) {
      forall chunks | Joined(chunks) == body ensures Run(Init(d), chunks) == Run(Init(d), [body]) {
        assert [] + body == body == body[0..];
        FreeRun(d, body, Init(d), chunks, 0);
      }
    } else {
      var chunks := DifferenceIsSeen(d, body);
    }
  }

  /** The two simple premises suffice: no stray boundary, and every header block reached fits. */
  lemma PremisesSuffice(d: Delimiter, body: seq<Byte>)
    requires NoStrayBoundary(d, body) && HeadersFit(d, body)
    ensures ChunkFree(d, body)
  {
    hide OverlongAfter, RefAfter, Find, OccursAt;
  }

  /**
   * They are not necessary. In `x--B??`, then `??` after a full delimiter, the bare boundary is
   * taken by some cuttings, and yet every cutting fails in the same way.
   */
  lemma StrayCanBeHarmless() returns (d: Delimiter, body: seq<Byte>)
    ensures !NoStrayBoundary(d, body) && ChunkFree(d, body)
  {
    hide RefAfter, OverlongAfter, NoStrayBoundary, ChunkFree, Stray, BodyStart, Find, OccursAt;
    d := CRLF_BYTES + DASHES + [66];
    body := [120, 45, 45, 66, 63, 63, 13, 10, 45, 45, 66, 63, 63];
    HarmlessShape(d, body);
    TailsAreQuestions(body);
    BadTail(d, body[4..]);
    BadTail(d, body[11..]);
    OnlyTwoExits(d, body);
  }

  lemma OnlyTwoExits(d: Delimiter, body: seq<Byte>)
    requires |d| == 5 && BodyStart(d, body) == Some(11) && |body| >= 11 && Stray(d, body, 1)
    requires forall o :: Stray(d, body, o) ==> o == 1
    requires OverlongAfter(d, body[4..], 0).None? && OverlongAfter(d, body[11..], 0).None?
    requires RefAfter(d, body[4..], 0, false) == RefAfter(d, body[11..], 0, false)
    ensures !NoStrayBoundary(d, body) && ChunkFree(d, body)
  {
    hide OverlongAfter, RefAfter, BodyStart, OccursAt, Find;
    forall e: nat | IsExit(d, body, e) ensures Agreeable(d, body, e) {
      assert e == 11 || Stray(d, body, e - 3);
    }
  }

  lemma TailsAreQuestions(body: seq<Byte>)
    requires body == [120, 45, 45, 66, 63, 63, 13, 10, 45, 45, 66, 63, 63]
    ensures |body[4..]| == 9 && body[4..][0] == 63 && body[4..][1] == 63
    ensures |body[11..]| == 2 && body[11..][0] == 63 && body[11..][1] == 63
  {
  }

  lemma BadTail(d: Delimiter, rest: seq<Byte>)
    requires |rest| >= 2 && rest[0] == 63 && rest[1] == 63
    ensures OverlongAfter(d, rest, 0).None?
    ensures RefAfter(d, rest, 0, false) == Bad("invalid bytes after multipart boundary")
  {
    hide RefHeaders, OverlongHeaders, Find;
    assert PadRun(rest) == 0;
    assert rest[0..2][0] == 63;
  }

  lemma HarmlessShape(d: Delimiter, body: seq<Byte>)
    requires d == CRLF_BYTES + DASHES + [66] && body == [120, 45, 45, 66, 63, 63, 13, 10, 45, 45, 66, 63, 63]
    ensures !OccursAt(body, Bare(d), 0) && Find(body, d) == Some(6) && BodyStart(d, body) == Some(11)
    ensures Stray(d, body, 1)
    ensures forall o :: Stray(d, body, o) ==> o == 1
  {
    assert d == [13, 10, 45, 45, 66] && Bare(d) == [45, 45, 66];
    assert body[6..11] == d && body[1..4] == Bare(d) && body[0..3][0] != 45;
    forall j | 0 <= j < 6 ensures !OccursAt(body, d, j) {
      if j + 5 <= 13 { assert body[j..j + 5][0] == body[j]; }
    }
    FindIs(body, d, 6);
    forall o | Stray(d, body, o) ensures o == 1 {
      assert body[o..o + 3][0] == body[o] && body[o..o + 3][2] == body[o + 2];
    }
  }

  /** The delimiter of boundary `B`. */
  function DelimB(): Delimiter { CRLF_BYTES + DASHES + [66] }

  lemma BareB()
    ensures DelimB() == [13, 10, 45, 45, 66] && Bare(DelimB()) == [45, 45, 66]
  {
  }

  /** `x--B` and more: nothing at offset 0, no delimiter, a bare boundary at offset 1 and nowhere else. */
  lemma OnlyStray(body: seq<Byte>)
    requires |body| >= 5 && body[..4] == [120, 45, 45, 66] && forall i :: 4 <= i < |body| ==>
               body[i] == 45 || body[i] == 122
    ensures !OccursAt(body, Bare(DelimB()), 0) && Find(body, DelimB()).None? && OccursAt(body, Bare(DelimB()), 1)
    ensures forall j :: OccursAt(body, Bare(DelimB()), j) ==> j == 1
  {
    BareB();
    var d := DelimB();
    assert body[0] == body[..4][0] && body[1] == body[..4][1] && body[2] == body[..4][2] && body[3] == body[..4][3];
    forall j ensures !OccursAt(body, d, j) { NoOccurrenceHere(body, d, j); }
    FindNone(body, d);
    assert body[1..4] == [45, 45, 66];
    forall j | OccursAt(body, Bare(d), j) ensures j == 1 {
      assert body[j..j + 3][2] == body[j + 2] == 66;
    }
  }

  /**
   * A body that chunking changes: `x--B--`. Fed whole it has no boundary; cut before its last
   * byte, the stray boundary is taken and closes the form.
   */
  lemma ChunkingCanMatter() returns (body: seq<Byte>, chunks: seq<seq<Byte>>)
    ensures Joined(chunks) == body && !ChunkFree(DelimB(), body)
    ensures Run(Init(DelimB()), [body]) == Bad("no multipart boundary found")
    ensures Run(Init(DelimB()), chunks) == Trace([], Completed)
  {
    hide Run, ChunkFree, Find, OccursAt, RefAfter;
    var d := DelimB();
    BareB();
    body := [120, 45, 45, 66, 45, 45];
    assert body[..4] == [120, 45, 45, 66];
    OnlyStray(body);
    StreamedWithoutBoundary(d, body);
    assert Stray(d, body, 1);
    chunks := StrayTraceIsSeen(d, body, 1);
    assert body[4..] == DASHES + [];
    Closes(d);
    assert |"no multipart boundary found"| > 0;
    if ChunkFree(d, body) { ChunkInvariance(d, body); }
  }

  lemma Closes(d: Delimiter)
    ensures RefAfter(d, DASHES + [], 0, false) == Trace([], Completed)
  {
    hide RefHeaders, Find, OccursAt;
    var rest: seq<Byte> := DASHES + [];
    assert PadRun(rest) == 0 && rest[0..2] == DASHES;
  }

  // ---------- the buffered lane ----------

  /** A body that is buffered first and parsed with the end of input already known. */
  function Buffered(d: Delimiter, body: seq<Byte>): State { Fresh(d, body).Finish() }

  lemma {:induction false} BufferedFromBoundary(d: Delimiter, body: seq<Byte>)
    requires OccursAt(body, Bare(d), 0) || Find(body, d).Some?
    ensures Run(Buffered(d, body), []) == Run(Init(d), [body])
  {
    hide Run, RefAfter, Find, OccursAt, OverlongAfter;
    var e := BodyStart(d, body).value;
    var s := Buffered(d, body);
    var s1 := State(d, body[e..], AfterBoundary, 0, true, 0);
    assert Turn(s) == (s1, Again);
    RunAgain(s, s1, []);
    RunIs(s1, [], false);
    assert body + [] == body && body[e..] + [] == body[e..] && [body] + [] == [body];
    RunFromFirstBoundary(d, body, [], e, false);
  }

  /** With no boundary to find, the streamed run looks once more at what it held back. */
  lemma {:induction false} StreamedWithoutBoundary(d: Delimiter, body: seq<Byte>)
    requires !OccursAt(body, Bare(d), 0) && Find(body, d).None?
    ensures var late := OccursAt(body, Bare(d), |body| - (|d| - 1));
            Run(Init(d), [body]) ==
            Bad(if late then "truncated multipart boundary line" else "no multipart boundary found")
  {
    hide Run, Find, OccursAt, PreambleEnd;
    var n := |body| - Min(|d| - 1, |body|);
    var held := body[n..];
    assert [body] + [] == [body];
    FirstChunk(d, body, []);
    PreambleWaits(d, body);
    RunWaits(Fresh(d, body), Fresh(d, held), []);
    HeldBack(d, held);
    HeldOccurs(d, body, n);
  }

  lemma {:induction false} HeldOccurs(d: Delimiter, body: seq<Byte>, n: nat)
    requires n == |body| - Min(|d| - 1, |body|) && !OccursAt(body, Bare(d), 0)
    ensures OccursAt(body[n..], Bare(d), 0) <==> OccursAt(body, Bare(d), |body| - (|d| - 1))
    ensures OccursAt(body[n..], Bare(d), 0) ==> |body[n..]| == |d| - 1
  {
    OccursAfterDrop(body, Bare(d), n, 0);
    assert n == 0 ==> body[n..] == body;
  }

  lemma TooShort(held: seq<Byte>, d: Delimiter)
    requires |held| < |d|
    ensures Find(held, d).None?
  {
    FindNone(held, d);
  }

  lemma {:induction false} HeldBack(d: Delimiter, held: seq<Byte>)
    requires |held| < |d| && (OccursAt(held, Bare(d), 0) ==> |held| == |d| - 1)
    ensures Run(Buffered(d, held), []) ==
            Bad(if OccursAt(held, Bare(d), 0) then "truncated multipart boundary line"
                else "no multipart boundary found")
  {
    hide Run, RefHeaders, OverlongHeaders, Find, OccursAt;
    var s := Buffered(d, held);
    TooShort(held, d);
    if OccursAt(held, Bare(d), 0) {
      var s1 := State(d, held[|d| - 2..], AfterBoundary, 0, true, 0);
      assert Turn(s) == (s1, Again);
      RunAgain(s, s1, []);
      assert Ahead(s1, []) == s1.buf && |s1.buf| == 1;
      RunIs(s1, [], false);
    } else {
      assert Turn(s) == (s, Return(Failed(Malformed("no multipart boundary found"))));
      RunFails(s, s, Malformed("no multipart boundary found"), []);
    }
  }

  /**
   * Buffering a body first gives the run that streaming it whole gives, except when nothing but
   * a bare boundary one byte before the end could be a boundary: then the two report different errors.
   */
  lemma {:induction false} BufferedLaneAgrees(d: Delimiter, body: seq<Byte>)
    ensures Run(Buffered(d, body), []) == Run(Init(d), [body]) <==>
            || OccursAt(body, Bare(d), 0) || Find(body, d).Some?
            || !OccursAt(body, Bare(d), |body| - (|d| - 1))
  {
    hide Run, Find, OccursAt, Bare;
    if OccursAt(body, Bare(d), 0) || Find(body, d).Some? {
      BufferedFromBoundary(d, body);
    } else {
      StreamedWithoutBoundary(d, body);
      var s := Buffered(d, body);
      NoBoundaryBuffered(d, body);
      assert |"truncated multipart boundary line"| != |"no multipart boundary found"|;
    }
  }

  /** A body on which the lanes differ: `x--Bz`. */
  lemma BufferingCanMatter() returns (body: seq<Byte>)
    ensures Run(Buffered(DelimB(), body), []) == Bad("no multipart boundary found")
    ensures Run(Init(DelimB()), [body]) == Bad("truncated multipart boundary line")
  {
    hide Run, Find, OccursAt;
    BareB();
    body := [120, 45, 45, 66, 122];
    assert body[..4] == [120, 45, 45, 66];
    OnlyStray(body);
    NoBoundaryBuffered(DelimB(), body);
    StreamedWithoutBoundary(DelimB(), body);
  }

  lemma {:induction false} NoBoundaryBuffered(d: Delimiter, body: seq<Byte>)
    requires !OccursAt(body, Bare(d), 0) && Find(body, d).None?
    ensures Run(Buffered(d, body), []) == Bad("no multipart boundary found")
  {
    hide Run, Find, OccursAt;
    var s := Buffered(d, body);
    assert Turn(s) == (s, Return(Failed(Malformed("no multipart boundary found"))));
    RunFails(s, s, Malformed("no multipart boundary found"), []);
  }

  // ---------- after an error ----------

  /**
   * Why runs end at the first error: a header block that fails to parse is consumed while the
   * scan cursor stays, and the next poll slices out of range exactly when fewer bytes are left
   * than the cursor (less three) needs.
   */
  lemma {:induction false} PollAfterHeaderError(s: State, i: nat)
    requires Valid(s) && s.phase.Headers? && Find(s.buf, BLANK_LINE) == Some(i) && HeadersOf(s.buf[..i]).Err?
    ensures Next(s).1.Failed?
    ensures Next(Next(s).0).1.Panicked? <==> |s.buf| < s.scanFrom + i + 1
  {
    hide Find, HeadersOf;
    HeadersHitTurn(s, i);
    var s' := Next(s).0;
    assert s' == s.Consume(i + 4);
    assert Turn(s') == HeadersTurn(s');
  }
}
