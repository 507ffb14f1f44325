/**
 * The incremental multipart parser of multipart.rs: five phases, fed arbitrary chunks and
 * polled for events. `Turn` is one pass of the `next_event` loop and `Next` one call of
 * it; the class `Parser` is the source's mutable form, proved to compute `Next`.
 */
module MultipartParser {
  import opened Basics
  import opened Search
  import opened PartHeaders

  const MAX_PART_HEADER_BYTES: nat := 8 * 1024
  const MAX_PARTS: nat := 256

  const CRLF_BYTES: seq<Byte> := [13, 10]
  const DASHES: seq<Byte> := [45, 45]
  const BLANK_LINE: seq<Byte> := [13, 10, 13, 10]

  /** `\r\n--<boundary>`; nothing is assumed of the boundary here. */
  type Delimiter = d: seq<Byte> | |d| >= 4 && d[..4] == CRLF_BYTES + DASHES witness CRLF_BYTES + DASHES

  datatype Event = PartHeaders(meta: PartMeta) | Data(bytes: seq<Byte>) | EndOfPart | Done

  datatype Phase = Preamble | AfterBoundary | Headers | Body | Finished

  datatype State = State(
    delim: Delimiter, buf: seq<Byte>, phase: Phase, parts: nat, eof: bool, scanFrom: nat)
  {
    function Bare(): seq<Byte> { delim[2..] }
    function Consume(n: nat): State requires n <= |buf| { this.(buf := buf[n..]) }
    function Feed(chunk: seq<Byte>): State { this.(buf := buf + chunk) }
    function Finish(): State { this.(eof := true) }
    function Holdback(): nat { Min(|delim| - 1, |buf|) }
    function ScanStart(): nat { if scanFrom >= 3 then scanFrom - 3 else 0 }
  }

  function Init(delim: Delimiter): State { State(delim, [], Preamble, 0, false, 0) }

  /** What one call of `next_event` reports; `Panicked` is an out-of-range buffer slice. */
  datatype Poll = Ready(event: Event) | NeedMore | Failed(error: ParseError) | Panicked

  /** One pass of the `next_event` loop: go round again, or return. */
  datatype Verdict = Again | Return(poll: Poll)

  predicate IsPad(b: Byte) { b == 32 || b == 9 }

  /** The run of transport padding at the front. */
  function PadRun(b: seq<Byte>): (n: nat)
    ensures n <= |b| && (n < |b| ==> !IsPad(b[n])) && forall i :: 0 <= i < n ==> IsPad(b[i])
  {
    if b != [] && IsPad(b[0]) then 1 + PadRun(b[1..]) else 0
  }

  function Fail(what: string): Verdict { Return(Failed(Malformed(what))) }

  function PreambleTurn(s: State): (State, Verdict) {
    if OccursAt(s.buf, s.Bare(), 0) then
      (s.Consume(|s.Bare()|).(phase := AfterBoundary), Again)
    else match Find(s.buf, s.delim)
      case Some(i) => (s.Consume(i + |s.delim|).(phase := AfterBoundary), Again)
      case None =>
        if s.eof then (s, Fail("no multipart boundary found"))
        else (s.Consume(|s.buf| - s.Holdback()), Return(NeedMore))
  }

  function AfterBoundaryTurn(s: State): (State, Verdict) {
    var i := PadRun(s.buf);
    if i > MAX_PART_HEADER_BYTES then (s, Fail("excessive padding after multipart boundary"))
    else if |s.buf| < i + 2 then
      (s, if s.eof then Fail("truncated multipart boundary line") else Return(NeedMore))
    else if s.buf[i..i + 2] == DASHES then (s.Consume(i + 2).(phase := Finished), Again)
    else if s.buf[i..i + 2] == CRLF_BYTES then
      var s1 := s.Consume(i + 2).(parts := s.parts + 1);
      if s1.parts > MAX_PARTS then (s1, Return(Failed(TooManyParts)))
      else (s1.(scanFrom := 0, phase := Headers), Again)
    else (s, Fail("invalid bytes after multipart boundary"))
  }

  function HeadersTurn(s: State): (State, Verdict) {
    if s.ScanStart() > |s.buf| then (s, Return(Panicked))
    else match Find(s.buf[s.ScanStart()..], BLANK_LINE)
      case Some(j) =>
        var i := j + s.ScanStart();
        var rest := s.Consume(i + 4);
        (match HeadersOf(s.buf[..i])
         case Err(e) => (rest, Return(Failed(e)))
         case Ok(meta) => (rest.(scanFrom := 0, phase := Body), Return(Ready(PartHeaders(meta)))))
      case None =>
        if |s.buf| > MAX_PART_HEADER_BYTES then (s, Return(Failed(HeadersTooLarge)))
        else if s.eof then (s, Fail("truncated multipart part headers"))
        else (s.(scanFrom := |s.buf|), Return(NeedMore))
  }

  function BodyTurn(s: State): (State, Verdict) {
    match Find(s.buf, s.delim)
    case Some(i) =>
      if i == 0 then (s.Consume(|s.delim|).(phase := AfterBoundary), Return(Ready(EndOfPart)))
      else (s.Consume(i), Return(Ready(Data(s.buf[..i]))))
    case None =>
      var emit := |s.buf| - s.Holdback();
      if emit > 0 then (s.Consume(emit), Return(Ready(Data(s.buf[..emit]))))
      else (s, if s.eof then Fail("truncated multipart body") else Return(NeedMore))
  }

  function Turn(s: State): (r: (State, Verdict))
    ensures r.1.Again? ==> |r.0.buf| < |s.buf|
  {
    match s.phase
    case Finished => (s, Return(Ready(Done)))
    case Preamble => PreambleTurn(s)
    case AfterBoundary => AfterBoundaryTurn(s)
    case Headers => HeadersTurn(s)
    case Body => BodyTurn(s)
  }

  /** One call of `next_event`. */
  function Next(s: State): (State, Poll)
    decreases |s.buf|
  {
    match Turn(s)
    case (s', Again) => Next(s')
    case (s', Return(p)) => (s', p)
  }

  /**
   * The scan cursor is honest: in the header phase the bytes before it hold no blank line;
   * entering the phase resets it. Every state of a run up to the first error satisfies this.
   */
  ghost predicate Valid(s: State) {
    s.phase.Headers? ==> s.scanFrom <= |s.buf| && Find(s.buf[..s.scanFrom], BLANK_LINE).None?
  }

  /** Resuming three bytes before the cursor finds what a scan from the start finds. */
  lemma ScanIsComplete(s: State)
    requires Valid(s) && s.phase.Headers?
    ensures s.ScanStart() <= |s.buf|
    ensures Find(s.buf, BLANK_LINE) ==
            match Find(s.buf[s.ScanStart()..], BLANK_LINE) {
              case None => None case Some(j) => Some(j + s.ScanStart()) }
  {
    if s.scanFrom < 3 {
      ResumedScan(s.buf, BLANK_LINE, s.scanFrom, 0);
    } else {
      ResumedScan(s.buf, BLANK_LINE, s.scanFrom, s.scanFrom - 3);
    }
  }

  /** What a turn keeps, consumes and leaves buffered, from an honest state. */
  ghost predicate TurnBounds(s: State, s': State, v: Verdict) {
    && s'.delim == s.delim && s'.eof == s.eof && |s'.buf| <= |s.buf|
    && s'.buf == s.buf[|s.buf| - |s'.buf|..]
    && v != Return(Panicked)
    && (!(v.Return? && v.poll.Failed?) ==> Valid(s'))
    && (v.Return? && v.poll.Ready? && !v.poll.event.Done? ==> |s'.buf| < |s.buf|)
    && (v == Return(NeedMore) ==>
          !s.eof && |s'.buf| <= Max(|s.delim| - 1, MAX_PART_HEADER_BYTES + 1))
  }

  lemma HeadersTurnKeeps(s: State)
    requires Valid(s) && s.phase.Headers?
    ensures TurnBounds(s, HeadersTurn(s).0, HeadersTurn(s).1)
  {
    hide HeadersOf, Find;
    ScanIsComplete(s);
    match Find(s.buf[s.ScanStart()..], BLANK_LINE)
    case None => assert s.buf[..|s.buf|] == s.buf;
    case Some(j) =>
      var i := j + s.ScanStart();
      assert |s.buf[i + 4..]| == |s.buf| - (i + 4);
  }

  lemma PreambleTurnKeeps(s: State)
    requires s.phase.Preamble?
    ensures TurnBounds(s, PreambleTurn(s).0, PreambleTurn(s).1)
  {
    hide Find;
  }

  lemma AfterBoundaryTurnKeeps(s: State)
    requires s.phase.AfterBoundary?
    ensures TurnBounds(s, AfterBoundaryTurn(s).0, AfterBoundaryTurn(s).1)
  {
    hide Find, OccursAt, TurnBounds;
    var i := PadRun(s.buf);
    if i > MAX_PART_HEADER_BYTES || |s.buf| < i + 2 {
      StaysBounded(s, AfterBoundaryTurn(s).1);
    } else {
      var (s', v) := AfterBoundaryTurn(s);
      if s' == s { StaysBounded(s, v); } else { LineBounded(s, s', v, i + 2); }
    }
  }

  /** Returning with nothing consumed: an error, or a request for more before the end of input. */
  lemma StaysBounded(s: State, v: Verdict)
    requires !s.phase.Headers? && v.Return?
    requires (v.poll.Failed? || (v.poll.NeedMore? && !s.eof && |s.buf| <= MAX_PART_HEADER_BYTES + 1))
    ensures TurnBounds(s, s, v)
  {
  }

  /** A boundary line consumed. */
  lemma LineBounded(s: State, s': State, v: Verdict, n: nat)
    requires 0 < n <= |s.buf| && s' == s.Consume(n).(phase := s'.phase, parts := s'.parts, scanFrom := s'.scanFrom)
    requires s'.phase.Headers? ==> s'.scanFrom == 0 || (v.Return? && v.poll.Failed?)
    requires v.Again? || (v.Return? && v.poll.Failed?)
    ensures TurnBounds(s, s', v)
  {
    hide Find, OccursAt;
    NothingScanned(s'.buf);
  }

  lemma NothingScanned(b: seq<Byte>)
    ensures Find(b[..0], BLANK_LINE).None?
  {
    assert b[..0] == [];
  }

  lemma BodyTurnKeeps(s: State)
    requires s.phase.Body?
    ensures TurnBounds(s, BodyTurn(s).0, BodyTurn(s).1)
  {
    hide Find;
  }

  lemma TurnKeeps(s: State)
    requires Valid(s)
    ensures TurnBounds(s, Turn(s).0, Turn(s).1)
  {
    match s.phase
    case Headers => HeadersTurnKeeps(s);
    case Preamble => PreambleTurnKeeps(s);
    case AfterBoundary => AfterBoundaryTurnKeeps(s);
    case Body => BodyTurnKeeps(s);
    case Finished =>
  }

  lemma BoundsCompose(s: State, s1: State, s2: State, v: Verdict)
    requires TurnBounds(s, s1, Again) && TurnBounds(s1, s2, v)
    ensures TurnBounds(s, s2, v)
  {
    var n1, n2 := |s.buf| - |s1.buf|, |s1.buf| - |s2.buf|;
    assert s.buf[n1..][n2..] == s.buf[n1 + n2..];
  }

  /**
   * Progress, bound and safety of one call on an honest state: every event but `Done`
   * consumes input; `NeedMore` never follows `finish`, leaves at most
   * max(|delimiter| - 1, MAX_PART_HEADER_BYTES + 1) bytes buffered, and no slice is out of range.
   */
  lemma {:induction false} NextKeeps(s: State)
    requires Valid(s)
    ensures TurnBounds(s, Next(s).0, Return(Next(s).1))
    decreases |s.buf|
  {
    TurnKeeps(s);
    var s1, v := Turn(s).0, Turn(s).1;
    if v.Again? {
      NextKeeps(s1);
      BoundsCompose(s, s1, Next(s1).0, Return(Next(s1).1));
    }
  }

  // ---------- the source's mutable parser ----------

  class Parser {
    const delimiter: Delimiter
    var buf: seq<Byte>
    var phase: Phase
    var parts: nat
    var eof: bool
    var headerScanFrom: nat

    function Abs(): State
      reads this
    {
      State(delimiter, buf, phase, parts, eof, headerScanFrom)
    }

    constructor (boundary: seq<Byte>)
      ensures Abs() == Init(CRLF_BYTES + DASHES + boundary)
    {
      delimiter := CRLF_BYTES + DASHES + boundary;
      buf, phase, parts, eof, headerScanFrom := [], Preamble, 0, false, 0;
    }

    method Feed(chunk: seq<Byte>)
      modifies this
      ensures Abs() == old(Abs()).Feed(chunk)
    {
      buf := buf + chunk;
    }

    method Finish()
      modifies this
      ensures Abs() == old(Abs()).Finish()
    {
      eof := true;
    }

    method NextEvent() returns (r: Poll)
      modifies this
      ensures (Abs(), r) == Next(old(Abs()))
    {
      while true
        invariant Next(Abs()) == Next(old(Abs()))
        decreases |buf|
      {
        var v;
        match phase {
          case Finished => v := Return(Ready(Done));
          case Preamble => v := InPreamble();
          case AfterBoundary => v := InAfterBoundary();
          case Headers => v := InHeaders();
          case Body => v := InBody();
        }
        if v.Return? { return v.poll; }
      }
    }

    method InPreamble() returns (v: Verdict)
      modifies this
      ensures (Abs(), v) == PreambleTurn(old(Abs()))
    {
      var bare := delimiter[2..];
      if |buf| >= |bare| && buf[..|bare|] == bare {
        buf := buf[|bare|..];
        phase := AfterBoundary;
        return Again;
      }
      var hit := Find(buf, delimiter);
      if hit == None {
        if eof { return Fail("no multipart boundary found"); }
        var keep := Min(|delimiter| - 1, |buf|);
        buf := buf[|buf| - keep..];
        return Return(NeedMore);
      }
      buf := buf[hit.value + |delimiter|..];
      phase := AfterBoundary;
      v := Again;
    }

    method InAfterBoundary() returns (v: Verdict)
      modifies this
      ensures (Abs(), v) == AfterBoundaryTurn(old(Abs()))
    {
      var i := SkipPadding();
      if i > MAX_PART_HEADER_BYTES { return Fail("excessive padding after multipart boundary"); }
      if |buf| < i + 2 {
        return if eof then Fail("truncated multipart boundary line") else Return(NeedMore);
      }
      if buf[i..i + 2] == DASHES {
        buf := buf[i + 2..];
        phase := Finished;
        return Again;
      }
      if buf[i..i + 2] == CRLF_BYTES {
        buf := buf[i + 2..];
        parts := parts + 1;
        if parts > MAX_PARTS { return Return(Failed(TooManyParts)); }
        headerScanFrom := 0;
        phase := Headers;
        return Again;
      }
      v := Fail("invalid bytes after multipart boundary");
    }

    method InHeaders() returns (v: Verdict)
      modifies this
      ensures (Abs(), v) == HeadersTurn(old(Abs()))
    {
      hide HeadersOf;
      var start := if headerScanFrom >= 3 then headerScanFrom - 3 else 0;
      if start > |buf| { return Return(Panicked); }
      var hit := Find(buf[start..], BLANK_LINE);
      if hit == None {
        if |buf| > MAX_PART_HEADER_BYTES { return Return(Failed(HeadersTooLarge)); }
        if eof { return Fail("truncated multipart part headers"); }
        headerScanFrom := |buf|;
        return Return(NeedMore);
      }
      var i := hit.value + start;
      var block := buf[..i];
      buf := buf[i + 4..];
      var parsed := ParsePartHeaders(block);
      if parsed.Err? { return Return(Failed(parsed.error)); }
      headerScanFrom := 0;
      phase := Body;
      v := Return(Ready(PartHeaders(parsed.value)));
    }

    method InBody() returns (v: Verdict)
      modifies this
      ensures (Abs(), v) == BodyTurn(old(Abs()))
    {
      var hit := Find(buf, delimiter);
      if hit == None {
        var emit := |buf| - Min(|delimiter| - 1, |buf|);
        if emit > 0 {
          v := Return(Ready(Data(buf[..emit])));
          buf := buf[emit..];
          return;
        }
        return if eof then Fail("truncated multipart body") else Return(NeedMore);
      }
      if hit.value == 0 {
        buf := buf[|delimiter|..];
        phase := AfterBoundary;
        return Return(Ready(EndOfPart));
      }
      v := Return(Ready(Data(buf[..hit.value])));
      buf := buf[hit.value..];
    }

    method SkipPadding() returns (i: nat)
      ensures i == PadRun(buf)
    {
      i := 0;
      while i < |buf| && IsPad(buf[i])
        invariant i <= |buf| && PadRun(buf) == i + PadRun(buf[i..])
      {
        assert buf[i..][1..] == buf[i + 1..];
        i := i + 1;
      }
    }
  }
}
