/**
 * Whole runs of the multipart parser over a chunked body, and the reference parse of the
 * undivided body that they are compared with.
 */
module MultipartStream {
  import opened Basics
  import opened Search
  import opened PartHeaders
  import opened MultipartParser

  datatype Outcome = Completed | Broken(error: ParseError) | Stalled | Crashed

  datatype Trace = Trace(events: seq<Event>, outcome: Outcome)

  function Joined(chunks: seq<seq<Byte>>): seq<Byte> {
    if chunks == [] then [] else chunks[0] + Joined(chunks[1..])
  }

  lemma FeedValid(s: State, chunk: seq<Byte>)
    requires Valid(s)
    ensures Valid(s.Feed(chunk)) && Valid(s.Finish())
  {
    if s.phase.Headers? { assert (s.buf + chunk)[..s.scanFrom] == s.buf[..s.scanFrom]; }
  }

  /** Answer to `NeedMore`: the next chunk, or end of input when there is none. */
  function Resume(s: State, chunks: seq<seq<Byte>>): (State, seq<seq<Byte>>) {
    if chunks == [] then (s.Finish(), []) else (s.Feed(chunks[0]), chunks[1..])
  }

  /** A poll leaves a state to go on from, with less to read or fewer chunks to come. */
  lemma NextLeads(s: State, chunks: seq<seq<Byte>>)
    requires Valid(s)
    ensures var (s', p) := Next(s);
            && (p.Ready? && !p.event.Done? ==> Valid(s') && s'.eof == s.eof && |s'.buf| < |s.buf|)
            && (p.NeedMore? ==>
                  var (s'', rest) := Resume(s', chunks);
                  !s.eof && Valid(s'') && (s''.eof || |rest| < |chunks|) && |rest| <= |chunks|)
  {
    hide Valid, Next;
    NextKeeps(s);
    if Next(s).1.NeedMore? { FeedValid(Next(s).0, if chunks == [] then [] else chunks[0]); }
  }

  /** Poll until the closing boundary or the first error, feeding on demand. */
  function Drive(s: State, chunks: seq<seq<Byte>>): Trace
    requires Valid(s)
    decreases |chunks| + (if s.eof then 0 else 1), |s.buf|
  {
    NextLeads(s, chunks);
    var (s', p) := Next(s);
    match p
    case Failed(e) => Trace([], Broken(e))
    case Panicked => Trace([], Crashed)
    case NeedMore =>
      if s.eof then Trace([], Stalled)
      else
        var (s'', rest) := Resume(s', chunks);
        Drive(s'', rest)
    case Ready(e) =>
      if e.Done? then Trace([], Completed)
      else
        var t := Drive(s', chunks);
        Trace([e] + t.events, t.outcome)
  }

  /** Prepend an event, joining adjacent data. */
  function Push(e: Event, t: Trace): Trace {
    if e.Data? && t.events != [] && t.events[0].Data? then
      t.(events := [Data(e.bytes + t.events[0].bytes)] + t.events[1..])
    else t.(events := [e] + t.events)
  }

  /** The trace with adjacent `Data` events merged. */
  function Merged(t: Trace): Trace
    decreases |t.events|
  {
    if t.events == [] then t else Push(t.events[0], Merged(t.(events := t.events[1..])))
  }

  function Run(s: State, chunks: seq<seq<Byte>>): Trace
    requires Valid(s)
  {
    Merged(Drive(s, chunks))
  }

  // A merged run, unfolded by one turn of the parser's loop.

  lemma {:induction false} RunAgain(s: State, s': State, chunks: seq<seq<Byte>>)
    requires Valid(s) && Turn(s) == (s', Again)
    ensures Valid(s') && Run(s, chunks) == Run(s', chunks)
  {
    TurnKeeps(s);
    assert Next(s) == Next(s');
  }

  lemma {:induction false} RunFails(s: State, s': State, e: ParseError, chunks: seq<seq<Byte>>)
    requires Valid(s) && Turn(s) == (s', Return(Failed(e)))
    ensures Run(s, chunks) == Trace([], Broken(e))
  {
    assert Next(s) == (s', Failed(e));
  }

  lemma {:induction false} RunEmits(s: State, s': State, e: Event, chunks: seq<seq<Byte>>)
    requires Valid(s) && Turn(s) == (s', Return(Ready(e))) && !e.Done?
    ensures Valid(s') && Run(s, chunks) == Push(e, Run(s', chunks))
  {
    TurnKeeps(s);
    assert Next(s) == (s', Ready(e));
    var t := Drive(s', chunks);
    assert ([e] + t.events)[1..] == t.events;
  }

  lemma {:induction false} RunWaits(s: State, s': State, chunks: seq<seq<Byte>>)
    requires Valid(s) && Turn(s) == (s', Return(NeedMore))
    ensures !s.eof && Valid(s') && Valid(Resume(s', chunks).0)
    ensures Run(s, chunks) == Run(Resume(s', chunks).0, Resume(s', chunks).1)
  {
    TurnKeeps(s);
    assert Next(s) == (s', NeedMore);
    FeedValid(s', if chunks == [] then [] else chunks[0]);
  }

  // ---------- the reference parse of a whole body ----------

  /** The rest of a boundary line: a failure, the closing `--`, or a part whose headers start at `at`. */
  datatype Line = BadLine(what: string) | Closing | Opening(at: nat)

  function LineToken(rest: seq<Byte>): (r: Line)
    ensures r.Opening? ==> PadRun(rest) + 2 == r.at <= |rest|
  {
    var i := PadRun(rest);
    if i > MAX_PART_HEADER_BYTES then BadLine("excessive padding after multipart boundary")
    else if |rest| < i + 2 then BadLine("truncated multipart boundary line")
    else if rest[i..i + 2] == DASHES then Closing
    else if rest[i..i + 2] == CRLF_BYTES then Opening(i + 2)
    else BadLine("invalid bytes after multipart boundary")
  }

  /** A part's data, and the offset just past the delimiter that ends it (`None`: truncated). */
  datatype Content = Content(data: seq<Byte>, end: Option<nat>)

  function ContentToken(d: Delimiter, rest: seq<Byte>): (r: Content)
    ensures r.end.Some? ==> |d| <= r.end.value <= |rest|
  {
    match Find(rest, d)
    case Some(i) => Content(rest[..i], Some(i + |d|))
    case None => Content(rest[..Max(0, |rest| - (|d| - 1))], None)
  }

  /**
   * What the body from just after a boundary (header block, data) means, with no buffer and
   * no chunks. `strict` says whether a header block whose blank line ends past
   * MAX_PART_HEADER_BYTES + 1 bytes is an error or is accepted.
   */
  function RefAfter(d: Delimiter, rest: seq<Byte>, parts: nat, strict: bool): Trace
    decreases |rest|
  {
    match LineToken(rest)
    case BadLine(what) => Bad(what)
    case Closing => Trace([], Completed)
    case Opening(at) =>
      if parts + 1 > MAX_PARTS then Trace([], Broken(TooManyParts))
      else RefHeaders(d, rest[at..], parts + 1, strict)
  }

  function RefHeaders(d: Delimiter, rest: seq<Byte>, parts: nat, strict: bool): Trace
    decreases |rest|
  {
    match Find(rest, BLANK_LINE)
    case None =>
      if |rest| > MAX_PART_HEADER_BYTES then Trace([], Broken(HeadersTooLarge))
      else Bad("truncated multipart part headers")
    case Some(i) =>
      if strict && i + 3 > MAX_PART_HEADER_BYTES then Trace([], Broken(HeadersTooLarge))
      else match HeadersOf(rest[..i])
        case Err(e) => Trace([], Broken(e))
        case Ok(meta) => Push(PartHeaders(meta), RefBody(d, rest[i + 4..], parts, strict))
  }

  function RefBody(d: Delimiter, rest: seq<Byte>, parts: nat, strict: bool): Trace
    decreases |rest|
  {
    var c := ContentToken(d, rest);
    match c.end
    case Some(at) => PushData(c.data, Push(EndOfPart, RefAfter(d, rest[at..], parts, strict)))
    case None => PushData(c.data, Bad("truncated multipart body"))
  }

  /** The reference parse from a given phase. */
  function Ref(d: Delimiter, phase: Phase, rest: seq<Byte>, parts: nat, strict: bool): Trace
    requires !phase.Preamble?
  {
    match phase
    case Finished => Trace([], Completed)
    case AfterBoundary => RefAfter(d, rest, parts, strict)
    case Headers => RefHeaders(d, rest, parts, strict)
    case Body => RefBody(d, rest, parts, strict)
  }

  function Bad(what: string): Trace { Trace([], Broken(Malformed(what))) }

  function PushData(b: seq<Byte>, t: Trace): Trace { if b == [] then t else Push(Data(b), t) }

  /** The offset just past the blank line of the first over-long header block reached, if any. */
  function OverlongAfter(d: Delimiter, rest: seq<Byte>, parts: nat): (r: Option<nat>)
    ensures r.Some? ==> PadRun(rest) + 2 < r.value <= |rest|
    decreases |rest|
  {
    match LineToken(rest)
    case Opening(at) =>
      if parts + 1 > MAX_PARTS then None else Shift(at, OverlongHeaders(d, rest[at..], parts + 1))
    case _ => None
  }

  function OverlongHeaders(d: Delimiter, rest: seq<Byte>, parts: nat): (r: Option<nat>)
    ensures r.Some? ==> 0 < r.value <= |rest|
    ensures r.Some? ==> Find(rest, BLANK_LINE).Some? && Find(rest, BLANK_LINE).value + 4 <= r.value
    decreases |rest|
  {
    match Find(rest, BLANK_LINE)
    case None => None
    case Some(i) =>
      if i + 3 > MAX_PART_HEADER_BYTES then Some(i + 4)
      else if HeadersOf(rest[..i]).Err? then None
      else Shift(i + 4, OverlongBody(d, rest[i + 4..], parts))
  }

  function OverlongBody(d: Delimiter, rest: seq<Byte>, parts: nat): (r: Option<nat>)
    ensures r.Some? ==> ContentToken(d, rest).end.Some? && ContentToken(d, rest).end.value < r.value <= |rest|
    decreases |rest|
  {
    match ContentToken(d, rest).end
    case None => None
    case Some(at) => Shift(at, OverlongAfter(d, rest[at..], parts))
  }

  function Overlong(d: Delimiter, phase: Phase, rest: seq<Byte>, parts: nat): Option<nat>
    requires !phase.Preamble?
  {
    match phase
    case Finished => None
    case AfterBoundary => OverlongAfter(d, rest, parts)
    case Headers => OverlongHeaders(d, rest, parts)
    case Body => OverlongBody(d, rest, parts)
  }

  function Shift(n: nat, r: Option<nat>): Option<nat> {
    match r case None => None case Some(k) => Some(k + n)
  }

  // ---------- runs agree with the reference ----------

  /** The bytes a run still has to see. */
  function Ahead(s: State, chunks: seq<seq<Byte>>): seq<Byte> { s.buf + Joined(chunks) }

  /**
   * The chunking decides nothing: no header block ahead is over-long, or the first
   * over-long one is buffered whole (judged leniently) or all but its last byte (strictly).
   */
  ghost predicate Steered(s: State, chunks: seq<seq<Byte>>, strict: bool)
    requires !s.phase.Preamble?
  {
    var o := Overlong(s.delim, s.phase, Ahead(s, chunks), s.parts);
    && (s.eof ==> chunks == [])
    && (o.Some? ==> if strict then |s.buf| == o.value - 1 else chunks == [])
  }

  lemma {:induction false} ResumeKeepsAhead(s: State, chunks: seq<seq<Byte>>)
    ensures Ahead(Resume(s, chunks).0, Resume(s, chunks).1) == Ahead(s, chunks)
  {
    if chunks != [] { assert s.buf + (chunks[0] + Joined(chunks[1..])) == s.buf + chunks[0] + Joined(chunks[1..]); }
  }

  lemma {:induction false} ConsumeAhead(s: State, n: nat, chunks: seq<seq<Byte>>)
    requires n <= |s.buf|
    ensures s.Consume(n).buf + Joined(chunks) == Ahead(s, chunks)[n..]
  {
  }

  lemma {:induction false} PadRunOfPrefix(buf: seq<Byte>, tail: seq<Byte>)
    ensures PadRun(buf) < |buf| ==> PadRun(buf + tail) == PadRun(buf)
    ensures PadRun(buf + tail) >= PadRun(buf)
  {
    var i, j := PadRun(buf), PadRun(buf + tail);
    assert forall k :: 0 <= k < |buf| ==> (buf + tail)[k] == buf[k];
  }

  /** Cutting off data that starts no delimiter only splits the data in two. */
  lemma ContentCut(d: Delimiter, rest: seq<Byte>, n: nat)
    requires n <= |rest|
    requires forall j :: 0 <= j < n ==> !OccursAt(rest, d, j)
    requires Find(rest, d).Some? || n <= |rest| - (|d| - 1)
    ensures ContentToken(d, rest).data == rest[..n] + ContentToken(d, rest[n..]).data
    ensures ContentToken(d, rest).end == Shift(n, ContentToken(d, rest[n..]).end)
  {
    FindAfterDrop(rest, d, n);
    match Find(rest[n..], d)
    case Some(i) => assert rest[..i + n] == rest[..n] + rest[n..][..i];
    case None =>
      var k := |rest| - (|d| - 1);
      assert rest[..k] == rest[..n] + rest[n..][..k - n];
  }

  lemma {:induction false} RefBodyCut(d: Delimiter, rest: seq<Byte>, parts: nat, strict: bool, n: nat)
    requires 0 < n <= |rest|
    requires forall j :: 0 <= j < n ==> !OccursAt(rest, d, j)
    requires Find(rest, d).Some? || n <= |rest| - (|d| - 1)
    ensures RefBody(d, rest, parts, strict) == Push(Data(rest[..n]), RefBody(d, rest[n..], parts, strict))
    ensures OverlongBody(d, rest, parts) == Shift(n, OverlongBody(d, rest[n..], parts))
  {
    hide RefAfter, OverlongAfter, Find, OccursAt;
    ContentCut(d, rest, n);
    var c := ContentToken(d, rest[n..]);
    match c.end
    case Some(at) =>
      assert rest[n..][at..] == rest[at + n..];
      PushDataCut(rest[..n], c.data, Push(EndOfPart, RefAfter(d, rest[at + n..], parts, strict)));
    case None =>
      PushDataCut(rest[..n], c.data, Bad("truncated multipart body"));
  }

  lemma {:induction false} PushDataCut(a: seq<Byte>, b: seq<Byte>, t: Trace)
    requires a != [] && (t.events == [] || !t.events[0].Data?)
    ensures PushData(a + b, t) == Push(Data(a), PushData(b, t))
  {
    if b == [] { assert a + b == a; }
  }

  lemma {:induction false} RunIs(s: State, chunks: seq<seq<Byte>>, strict: bool)
    requires Valid(s) && !s.phase.Preamble? && Steered(s, chunks, strict)
    ensures Run(s, chunks) == Ref(s.delim, s.phase, Ahead(s, chunks), s.parts, strict)
    decreases |chunks| + (if s.eof then 0 else 1), |s.buf|, 3
  {
    match s.phase
    case Finished => assert Next(s) == (s, Ready(Done));
    case AfterBoundary => RunAfterBoundary(s, chunks, strict);
    case Headers => RunHeaders(s, chunks, strict);
    case Body => RunBody(s, chunks, strict);
  }

  /** Waiting for input changes nothing that the reference parse sees. */
  lemma {:induction false} RunIsAfterWait(s: State, s': State, chunks: seq<seq<Byte>>, strict: bool)
    requires Valid(s) && !s.phase.Preamble? && Steered(s, chunks, strict)
    requires Turn(s) == (s', Return(NeedMore))
    requires s' == s.(scanFrom := s'.scanFrom) && !s.eof
    requires Overlong(s.delim, s.phase, Ahead(s, chunks), s.parts).Some? ==> !strict
    ensures Run(s, chunks) == Ref(s.delim, s.phase, Ahead(s, chunks), s.parts, strict)
    decreases |chunks| + (if s.eof then 0 else 1), |s.buf|, 0
  {
    RunWaits(s, s', chunks);
    ResumeKeepsAhead(s', chunks);
    RunIs(Resume(s', chunks).0, Resume(s', chunks).1, strict);
  }

  lemma {:induction false} RunAfterBoundary(s: State, chunks: seq<seq<Byte>>, strict: bool)
    requires Valid(s) && s.phase.AfterBoundary? && Steered(s, chunks, strict)
    ensures Run(s, chunks) == RefAfter(s.delim, Ahead(s, chunks), s.parts, strict)
    decreases |chunks| + (if s.eof then 0 else 1), |s.buf|, 2
  {
    var rest, i := Ahead(s, chunks), PadRun(s.buf);
    PadRunOfPrefix(s.buf, Joined(chunks));
    var s', v := Turn(s).0, Turn(s).1;
    if i > MAX_PART_HEADER_BYTES {
      RunFails(s, s', Malformed("excessive padding after multipart boundary"), chunks);
    } else if i + 2 <= |s.buf| {
      RunBoundaryLine(s, chunks, strict, i);
    } else if s.eof {
      assert rest == s.buf;
      RunFails(s, s', Malformed("truncated multipart boundary line"), chunks);
    } else {
      RunIsAfterWait(s, s', chunks, strict);
    }
  }

  /** The boundary line decides the turn. */
  lemma LineTurn(s: State)
    requires s.phase.AfterBoundary? && PadRun(s.buf) + 2 <= |s.buf|
    ensures AfterBoundaryTurn(s) ==
            match LineToken(s.buf)
            case BadLine(what) => (s, Return(Failed(Malformed(what))))
            case Closing => (s.Consume(PadRun(s.buf) + 2).(phase := Finished), Again)
            case Opening(at) =>
              if s.parts + 1 > MAX_PARTS then (s.Consume(at).(parts := s.parts + 1), Return(Failed(TooManyParts)))
              else (s.Consume(at).(parts := s.parts + 1, scanFrom := 0, phase := Headers), Again)
  {
    hide Find, OccursAt;
  }

  lemma {:induction false} RunBoundaryLine(s: State, chunks: seq<seq<Byte>>, strict: bool, i: nat)
    requires Valid(s) && s.phase.AfterBoundary? && Steered(s, chunks, strict)
    requires i == PadRun(s.buf) == PadRun(Ahead(s, chunks)) && i + 2 <= |s.buf|
    ensures Run(s, chunks) == RefAfter(s.delim, Ahead(s, chunks), s.parts, strict)
    decreases |chunks| + (if s.eof then 0 else 1), |s.buf|, 1
  {
    hide Run, RefHeaders, OverlongHeaders, Find, AfterBoundaryTurn, PreambleTurn, HeadersTurn, BodyTurn;
    var rest := Ahead(s, chunks);
    assert LineToken(rest) == LineToken(s.buf) by { assert rest[i..i + 2] == s.buf[i..i + 2]; }
    LineTurn(s);
    var s' := Turn(s).0;
    match LineToken(s.buf)
    case BadLine(what) => RunFails(s, s', Malformed(what), chunks);
    case Closing =>
      RunAgain(s, s', chunks);
      RunIs(s', chunks, strict);
    case Opening(at) =>
      if s.parts + 1 > MAX_PARTS {
        RunFails(s, s', TooManyParts, chunks);
      } else {
        RunOpening(s, s', chunks, strict, at);
      }
  }

  lemma {:induction false} RunOpening(s: State, s': State, chunks: seq<seq<Byte>>, strict: bool, at: nat)
    requires Valid(s) && s.phase.AfterBoundary? && Steered(s, chunks, strict)
    requires LineToken(Ahead(s, chunks)) == Opening(at) && at <= |s.buf| && s.parts + 1 <= MAX_PARTS
    requires s' == s.Consume(at).(parts := s.parts + 1, scanFrom := 0, phase := Headers)
    requires Turn(s) == (s', Again)
    ensures Run(s, chunks) == RefAfter(s.delim, Ahead(s, chunks), s.parts, strict)
    decreases |chunks| + (if s.eof then 0 else 1), |s.buf|, 0
  {
    hide Run, RefHeaders, OverlongHeaders, Find, PadRun, Turn;
    RunAgain(s, s', chunks);
    ConsumeAhead(s, at, chunks);
    RunIs(s', chunks, strict);
  }

  lemma {:induction false} RunHeaders(s: State, chunks: seq<seq<Byte>>, strict: bool)
    requires Valid(s) && s.phase.Headers? && Steered(s, chunks, strict)
    ensures Run(s, chunks) == RefHeaders(s.delim, Ahead(s, chunks), s.parts, strict)
    decreases |chunks| + (if s.eof then 0 else 1), |s.buf|, 1
  {
    hide Run, RefBody, OverlongBody, HeadersOf, PreambleTurn, AfterBoundaryTurn, BodyTurn;
    ScanIsComplete(s);
    var rest := Ahead(s, chunks);
    match Find(s.buf, BLANK_LINE)
    case Some(i) => RunHeadersHit(s, chunks, strict, i);
    case None =>
      FindBeyondPrefix(s.buf, Joined(chunks), BLANK_LINE);
      if chunks == [] { assert rest == s.buf; }
      var (s', v) := HeadersTurn(s);
      if v.poll.NeedMore? {
        RunIsAfterWait(s, s', chunks, strict);
      } else {
        RunFails(s, s', v.poll.error, chunks);
      }
  }

  /** The header block decides the turn. */
  lemma HeadersHitTurn(s: State, i: nat)
    requires Valid(s) && s.phase.Headers? && Find(s.buf, BLANK_LINE) == Some(i)
    ensures Turn(s) ==
            match HeadersOf(s.buf[..i])
            case Err(e) => (s.Consume(i + 4), Return(Failed(e)))
            case Ok(meta) => (s.Consume(i + 4).(scanFrom := 0, phase := Body), Return(Ready(PartHeaders(meta))))
  {
    hide Find, HeadersOf;
    ScanIsComplete(s);
  }

  lemma {:induction false} RunHeadersHit(s: State, chunks: seq<seq<Byte>>, strict: bool, i: nat)
    requires Valid(s) && s.phase.Headers? && Steered(s, chunks, strict)
    requires Find(s.buf, BLANK_LINE) == Some(i)
    ensures Run(s, chunks) == RefHeaders(s.delim, Ahead(s, chunks), s.parts, strict)
    decreases |chunks| + (if s.eof then 0 else 1), |s.buf|, 0
  {
    hide Run, RefBody, OverlongBody, HeadersOf, Turn, Joined, Find;
    HeadersHitTurn(s, i);
    FindInPrefix(s.buf, Joined(chunks), BLANK_LINE);
    var rest := Ahead(s, chunks);
    assert rest[..i] == s.buf[..i];
    var s' := Turn(s).0;
    match HeadersOf(s.buf[..i])
    case Err(e) => RunFails(s, s', e, chunks);
    case Ok(meta) =>
      RunEmits(s, s', PartHeaders(meta), chunks);
      ConsumeAhead(s, i + 4, chunks);
      RunIs(s', chunks, strict);
  }

  lemma {:induction false} RunBody(s: State, chunks: seq<seq<Byte>>, strict: bool)
    requires Valid(s) && s.phase.Body? && Steered(s, chunks, strict)
    ensures Run(s, chunks) == RefBody(s.delim, Ahead(s, chunks), s.parts, strict)
    decreases |chunks| + (if s.eof then 0 else 1), |s.buf|, 1
  {
    hide Run, RefAfter, OverlongAfter, PreambleTurn, AfterBoundaryTurn, HeadersTurn;
    var d, tail, rest := s.delim, Joined(chunks), Ahead(s, chunks);
    var (s', v) := BodyTurn(s);
    match Find(s.buf, d)
    case Some(i) =>
      FindInPrefix(s.buf, tail, d);
      if i == 0 {
        RunEmits(s, s', EndOfPart, chunks);
        ConsumeAhead(s, |d|, chunks);
        assert rest[..0] == [];
        RunIs(s', chunks, strict);
      } else {
        RunBodyData(s, s', chunks, strict, i);
      }
    case None =>
      FindBeyondPrefix(s.buf, tail, d);
      var n := |s.buf| - s.Holdback();
      if n > 0 {
        RunBodyData(s, s', chunks, strict, n);
      } else if s.eof {
        assert rest == s.buf && rest[..0] == [];
        RunFails(s, s', Malformed("truncated multipart body"), chunks);
      } else {
        RunIsAfterWait(s, s', chunks, strict);
      }
  }

  lemma {:induction false} RunBodyData(s: State, s': State, chunks: seq<seq<Byte>>, strict: bool, n: nat)
    requires Valid(s) && s.phase.Body? && Steered(s, chunks, strict)
    requires 0 < n <= |s.buf| && Turn(s) == (s', Return(Ready(Data(s.buf[..n])))) && s' == s.Consume(n)
    requires forall j :: 0 <= j < n ==> !OccursAt(Ahead(s, chunks), s.delim, j)
    requires Find(Ahead(s, chunks), s.delim).Some? || n <= |Ahead(s, chunks)| - (|s.delim| - 1)
    ensures Run(s, chunks) == RefBody(s.delim, Ahead(s, chunks), s.parts, strict)
    decreases |chunks| + (if s.eof then 0 else 1), |s.buf|, 0
  {
    var rest := Ahead(s, chunks);
    RunEmits(s, s', Data(s.buf[..n]), chunks);
    ConsumeAhead(s, n, chunks);
    RefBodyCut(s.delim, rest, s.parts, strict, n);
    assert rest[..n] == s.buf[..n];
    RunIs(s', chunks, strict);
  }
}
