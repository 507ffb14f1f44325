/**
 * The grammar of the parser's events, and the `Multipart` reader on top of it: its
 * "internal error" arms are unreachable, and a part's bytes do not depend on the chunking.
 */
module MultipartReader {
  import opened Basics
  import opened Search
  import Text
  import opened PartHeaders
  import opened MultipartParser
  import opened MultipartStream

  // ---------- the grammar (PartHeaders Data* EndOfPart)* Done ----------

  /** Whether we are inside a part after `events`, or `None` if they break the grammar. */
  function Scan(inPart: bool, events: seq<Event>): Option<bool>
    decreases events
  {
    if events == [] then Some(inPart)
    else match events[0]
      case PartHeaders(_) => if inPart then None else Scan(true, events[1..])
      case Data(_) => if inPart then Scan(true, events[1..]) else None
      case EndOfPart => if inPart then Scan(false, events[1..]) else None
      case Done => None
  }

  /** What one pass of the loop may report, by the phase it starts and ends in. */
  ghost predicate Grammatical(s: State, s': State, v: Verdict) {
    match v
    case Again => !s.phase.Body? && !s'.phase.Body?
    case Return(p) =>
      && (p.NeedMore? ==> s'.phase == s.phase)
      && (p.Ready? ==> if p.event.Done? then !s.phase.Body? && s'.phase.Finished?
                       else Scan(s.phase.Body?, [p.event]) == Some(s'.phase.Body?))
  }

  lemma {:induction false} TurnGrammar(s: State)
    ensures Grammatical(s, Turn(s).0, Turn(s).1)
  {
    hide PreambleTurn, AfterBoundaryTurn, HeadersTurn, BodyTurn;
    match s.phase
    case Preamble => PreambleGrammar(s);
    case AfterBoundary => LineGrammar(s);
    case Headers => HeadersGrammar(s);
    case Body => BodyGrammar(s);
    case Finished =>
  }

  lemma PreambleGrammar(s: State)
    requires s.phase.Preamble?
    ensures Grammatical(s, PreambleTurn(s).0, PreambleTurn(s).1)
  {
  }

  lemma LineGrammar(s: State)
    requires s.phase.AfterBoundary?
    ensures Grammatical(s, AfterBoundaryTurn(s).0, AfterBoundaryTurn(s).1)
  {
  }

  lemma HeadersGrammar(s: State)
    requires s.phase.Headers?
    ensures Grammatical(s, HeadersTurn(s).0, HeadersTurn(s).1)
  {
    hide HeadersOf, Scan;
    var v := HeadersTurn(s).1;
    if v.poll.Ready? { HeadersOpenAPart(v.poll.event.meta); }
  }

  lemma HeadersOpenAPart(meta: PartMeta)
    ensures Scan(false, [PartHeaders(meta)]) == Some(true)
  {
    assert [PartHeaders(meta)][1..] == [];
  }

  lemma BodyGrammar(s: State)
    requires s.phase.Body?
    ensures Grammatical(s, BodyTurn(s).0, BodyTurn(s).1)
  {
    assert forall e: Event :: [e][1..] == [];
  }

  lemma {:induction false} NextGrammar(s: State)
    ensures var (s', p) := Next(s);
            && (p.NeedMore? ==> s'.phase.Body? == s.phase.Body?)
            && (p.Ready? ==> if p.event.Done? then !s.phase.Body? && s'.phase.Finished?
                             else Scan(s.phase.Body?, [p.event]) == Some(s'.phase.Body?))
    decreases |s.buf|
  {
    hide PreambleTurn, AfterBoundaryTurn, HeadersTurn, BodyTurn;
    TurnGrammar(s);
    if Turn(s).1.Again? { NextGrammar(Turn(s).0); }
  }

  lemma {:induction false} ScanCons(inPart: bool, e: Event, events: seq<Event>)
    requires Scan(inPart, [e]).Some?
    ensures Scan(inPart, [e] + events) == Scan(Scan(inPart, [e]).value, events)
  {
    assert [e][1..] == [] && ([e] + events)[1..] == events;
  }

  lemma ScanNil(inPart: bool)
    ensures Scan(inPart, []) == Some(inPart)
  {
  }

  /**
   * Over every run up to the first error: the events are a prefix of the grammar, complete when
   * the run completes; there are at most as many of them as bytes; the run neither stalls after
   * the end of input nor slices out of range.
   */
  lemma {:induction false} RunGrammar(s: State, chunks: seq<seq<Byte>>)
    requires Valid(s)
    ensures var t := Drive(s, chunks);
            && Scan(s.phase.Body?, t.events).Some?
            && (t.outcome.Completed? ==> Scan(s.phase.Body?, t.events) == Some(false))
            && |t.events| <= |Ahead(s, chunks)|
            && !t.outcome.Stalled? && !t.outcome.Crashed?
    decreases |chunks| + (if s.eof then 0 else 1), |s.buf|
  {
    hide Next, Turn, Scan;
    NextKeeps(s);
    NextGrammar(s);
    var s', p := Next(s).0, Next(s).1;
    ScanNil(s.phase.Body?);
    if p.NeedMore? {
      FeedValid(s', if chunks == [] then [] else chunks[0]);
      ResumeKeepsAhead(s', chunks);
      RunGrammar(Resume(s', chunks).0, Resume(s', chunks).1);
    } else if p.Ready? && !p.event.Done? {
      RunGrammar(s', chunks);
      assert |Ahead(s', chunks)| < |Ahead(s, chunks)|;
      ScanCons(s.phase.Body?, p.event, Drive(s', chunks).events);
    }
  }

  // ---------- what the reader should return ----------

  /** How a read can end badly; `Crash` is a panic of the parser. */
  datatype ReadError = Parse(error: ParseError) | PartTooLarge | Internal(what: string) | Crash

  function Tail(t: Trace): Trace requires t.events != [] { t.(events := t.events[1..]) }

  /** The trace after the current part's end. */
  function AfterPart(t: Trace): Trace
    decreases |t.events|
  {
    if t.events == [] then t else if t.events[0].EndOfPart? then Tail(t) else AfterPart(Tail(t))
  }

  function Failure(o: Outcome): ReadError {
    match o
    case Broken(e) => Parse(e)
    case _ => Internal("multipart parser stalled after end of input")
  }

  /** The next part's description at the head of a trace. */
  function HeadPart(t: Trace): Result<Option<PartMeta>, ReadError> {
    if t.events != [] && t.events[0].PartHeaders? then Ok(Some(t.events[0].meta))
    else if t.events == [] && t.outcome.Completed? then Ok(None)
    else Err(Failure(t.outcome))
  }

  /** The part's data appended to `out`, unless it grows past `cap` or the parse breaks. */
  function Gather(t: Trace, cap: nat, out: seq<Byte>): Result<seq<Byte>, ReadError>
    decreases |t.events|
  {
    if t.events == [] then (if t.outcome.Completed? then Ok(out) else Err(Failure(t.outcome)))
    else match t.events[0]
      case Data(b) => if |out| + |b| > cap then Err(PartTooLarge) else Gather(Tail(t), cap, out + b)
      case _ => Ok(out)
  }

  lemma {:induction false} GatherPush(e: Event, t: Trace, cap: nat, out: seq<Byte>)
    ensures Gather(Push(e, t), cap, out) == Gather(t.(events := [e] + t.events), cap, out)
  {
    var flat := t.(events := [e] + t.events);
    assert Tail(flat) == t;
    if e.Data? && t.events != [] && t.events[0].Data? {
      var b := t.events[0].bytes;
      var joined := Push(e, t);
      assert Tail(joined) == Tail(t);
      assert out + (e.bytes + b) == out + e.bytes + b;
    }
  }

  /** A part's bytes depend only on the merged trace, hence not on how data was chunked. */
  lemma {:induction false} GatherMerged(t: Trace, cap: nat, out: seq<Byte>)
    ensures Gather(Merged(t), cap, out) == Gather(t, cap, out)
    decreases |t.events|
  {
    if t.events != [] {
      var e, rest := t.events[0], Tail(t);
      GatherPush(e, Merged(rest), cap, out);
      var flat := Merged(rest).(events := [e] + Merged(rest).events);
      assert Tail(flat) == Merged(rest);
      if e.Data? { GatherMerged(rest, cap, out + e.bytes); }
    }
  }

  /** Two chunkings with the same merged trace give the same bytes (or the same error). */
  lemma {:induction false} BytesAreChunkFree(s: State, a: seq<seq<Byte>>, b: seq<seq<Byte>>, cap: nat)
    requires Valid(s) && Run(s, a) == Run(s, b)
    ensures Gather(Drive(s, a), cap, []) == Gather(Drive(s, b), cap, [])
  {
    GatherMerged(Drive(s, a), cap, []);
    GatherMerged(Drive(s, b), cap, []);
  }

  // ---------- pulling one event ----------

  /** Parser, body chunks still to come (`None` once the end of input was signalled), and what was polled. */
  datatype Pull = Pull(state: State, source: Option<seq<seq<Byte>>>, poll: Poll)

  /** Poll, feeding the parser as long as it asks and there is something to feed, from any state whatever. */
  function Pulled(s: State, source: Option<seq<seq<Byte>>>): Pull
    decreases if source.Some? then |source.value| + 1 else 0
  {
    var (s', p) := Next(s);
    if !p.NeedMore? || source.None? then Pull(s', source, p)
    else if source.value == [] then Pulled(s'.Finish(), None)
    else Pulled(s'.Feed(source.value[0]), Some(source.value[1..]))
  }

  function Pending(source: Option<seq<seq<Byte>>>): seq<seq<Byte>> { if source.Some? then source.value else [] }

  function EventOf(p: Poll): Result<Event, ReadError> {
    match p
    case Ready(e) => Ok(e)
    case Failed(e) => Err(Parse(e))
    case NeedMore => Err(Internal("multipart parser stalled after end of input"))
    case Panicked => Err(Crash)
  }

  /** From an honest state a pull gives the head of the run, and never stalls or crashes. */
  lemma {:induction false} PullMeaning(s: State, source: Option<seq<seq<Byte>>>)
    requires Valid(s) && (source.None? <==> s.eof)
    ensures var p := Pulled(s, source);
            var t := Drive(s, Pending(source));
            match p.poll {
              case NeedMore => false
              case Panicked => false
              case Failed(e) => t == Trace([], Broken(e))
              case Ready(e) =>
                && Valid(p.state) && (p.source.None? <==> p.state.eof)
                && (if e.Done? then t == Trace([], Completed) && !s.phase.Body? && p.state.phase.Finished?
                    else
                      && t.events != [] && e == t.events[0] && Drive(p.state, Pending(p.source)) == Tail(t)
                      && Scan(s.phase.Body?, [e]) == Some(p.state.phase.Body?))
            }
    decreases if source.Some? then |source.value| + 1 else 0
  {
    hide Next, Turn, Scan;
    NextKeeps(s);
    NextGrammar(s);
    var s', p := Next(s).0, Next(s).1;
    if p.NeedMore? {
      FeedValid(s', if Pending(source) == [] then [] else Pending(source)[0]);
      if source.value == [] {
        PullMeaning(s'.Finish(), None);
      } else {
        PullMeaning(s'.Feed(source.value[0]), Some(source.value[1..]));
      }
    } else if p.Ready? && !p.event.Done? {
      var t := Drive(s', Pending(source));
      assert ([p.event] + t.events)[1..] == t.events;
    }
  }

  /** The bytes still to be parsed. */
  function Left(s: State, source: Option<seq<seq<Byte>>>): nat { |s.buf| + |Joined(Pending(source))| }

  lemma TurnConsumes(s: State)
    ensures |Turn(s).0.buf| <= |s.buf|
    ensures Turn(s).1.Return? && Turn(s).1.poll.Ready? && !Turn(s).1.poll.event.Done? ==> |Turn(s).0.buf| < |s.buf|
  {
    hide HeadersOf, PreambleTurn, AfterBoundaryTurn, BodyTurn, HeadersTurn, Valid;
    match s.phase
    case Preamble => PreambleTurnKeeps(s);
    case AfterBoundary => AfterBoundaryTurnKeeps(s);
    case Body => BodyTurnKeeps(s);
    case Headers => HeadersTurnConsumes(s);
    case Finished =>
  }

  lemma HeadersTurnConsumes(s: State)
    ensures |HeadersTurn(s).0.buf| <= |s.buf|
    ensures HeadersTurn(s).1.Return?
    ensures HeadersTurn(s).1.poll.Ready? ==> |HeadersTurn(s).0.buf| < |s.buf|
  {
    hide HeadersOf;
  }

  lemma {:induction false} NextConsumes(s: State)
    ensures |Next(s).0.buf| <= |s.buf|
    ensures Next(s).1.Ready? && !Next(s).1.event.Done? ==> |Next(s).0.buf| < |s.buf|
    decreases |s.buf|
  {
    hide Turn;
    TurnConsumes(s);
    if Turn(s).1.Again? { NextConsumes(Turn(s).0); }
  }

  /** Every event but the last consumes input, from any state. */
  lemma {:induction false} PullConsumes(s: State, source: Option<seq<seq<Byte>>>)
    ensures Left(Pulled(s, source).state, Pulled(s, source).source) <= Left(s, source)
    ensures Pulled(s, source).poll.Ready? && !Pulled(s, source).poll.event.Done? ==>
              Left(Pulled(s, source).state, Pulled(s, source).source) < Left(s, source)
    decreases if source.Some? then |source.value| + 1 else 0
  {
    hide Next;
    NextConsumes(s);
    var s', p := Next(s).0, Next(s).1;
    if p.NeedMore? && source.Some? {
      if source.value == [] {
        PullConsumes(s'.Finish(), None);
      } else {
        PullConsumes(s'.Feed(source.value[0]), Some(source.value[1..]));
      }
    }
  }

  // ---------- the reader ----------

  class Multipart {
    const parser: Parser
    var source: Option<seq<seq<Byte>>>
    var partCap: nat
    var inPart: bool
    var done: bool

    /** Parser and flags agree. Holds until the first error. */
    ghost predicate Synced()
      reads this, parser
    {
      && Valid(parser.Abs())
      && (inPart <==> parser.phase.Body?)
      && (source.None? <==> parser.eof)
      && (done ==> parser.phase.Finished?)
    }

    /** Everything the parser will still report. */
    function Rest(): Trace
      requires Valid(parser.Abs())
      reads this, parser
    {
      Drive(parser.Abs(), Pending(source))
    }

    constructor FromBuffered(boundary: seq<Byte>, body: seq<Byte>)
      ensures Synced() && fresh(parser) && !done && !inPart
      ensures Rest() == Drive(Init(CRLF_BYTES + DASHES + boundary).Feed(body).Finish(), [])
    {
      parser := new Parser(boundary);
      source, partCap, inPart, done := None, 8 * 1024 * 1024, false, false;
      new;
      parser.Feed(body);
      parser.Finish();
    }

    constructor FromStream(boundary: seq<Byte>, chunks: seq<seq<Byte>>)
      ensures Synced() && fresh(parser) && !done && !inPart
      ensures parser.Abs() == Init(CRLF_BYTES + DASHES + boundary) && source == Some(chunks)
      ensures Rest() == Drive(Init(CRLF_BYTES + DASHES + boundary), chunks)
    {
      parser := new Parser(boundary);
      source, partCap, inPart, done := Some(chunks), 8 * 1024 * 1024, false, false;
    }

    /** The next event, feeding the parser as it asks; callable in any state, after an error too. */
    method PullEvent() returns (r: Result<Event, ReadError>)
      modifies this`source, parser
      ensures var p := Pulled(old(parser.Abs()), old(source));
              p == Pull(parser.Abs(), source, p.poll) && r == EventOf(p.poll)
      ensures r.Ok? && !r.value.Done? ==> Left(parser.Abs(), source) < old(Left(parser.Abs(), source))
      ensures old(Synced()) && r.Ok? ==> Valid(parser.Abs()) && (source.None? <==> parser.eof)
      ensures old(Synced()) && r.Ok? && r.value.Done? ==>
                old(Rest()) == Trace([], Completed) && !old(inPart) && parser.phase.Finished?
      ensures old(Synced()) && r.Ok? && !r.value.Done? ==>
                && old(Rest()).events != [] && r.value == old(Rest()).events[0] && Rest() == Tail(old(Rest()))
                && Scan(old(inPart), [r.value]) == Some(parser.phase.Body?)
      ensures old(Synced()) && r.Err? ==> r.error.Parse? && old(Rest()) == Trace([], Broken(r.error.error))
    {
      ghost var want := Pulled(parser.Abs(), source);
      PullConsumes(parser.Abs(), source);
      if Synced() { PullMeaning(parser.Abs(), source); }
      while true
        invariant Pulled(parser.Abs(), source) == want
        decreases if source.Some? then |source.value| + 1 else 0
      {
        ghost var before := parser.Abs();
        var p := parser.NextEvent();
        assert Next(before) == (parser.Abs(), p);
        match p {
          case Ready(e) => return Ok(e);
          case Failed(e) => return Err(Parse(e));
          case Panicked => return Err(Crash);
          case NeedMore =>
            if source == None {
              return Err(Internal("multipart parser stalled after end of input"));
            } else if source.value != [] {
              parser.Feed(source.value[0]);
              source := Some(source.value[1..]);
            } else {
              parser.Finish();
              source := None;
            }
        }
      }
      assert false;
    }

    /** The next part, discarding what is unread of the current one. */
    method NextPart() returns (r: Result<Option<PartMeta>, ReadError>)
      modifies this, parser
      ensures old(Synced()) ==>
                r == if old(done) then Ok(None)
                     else HeadPart(if old(inPart) then AfterPart(old(Rest())) else old(Rest()))
      ensures old(Synced()) && r.Err? ==> !r.error.Internal? && !r.error.Crash?
      ensures old(Synced()) && r.Ok? ==> Synced()
      ensures old(Synced()) && r.Ok? && r.value.Some? ==>
                && inPart
                && Rest() == Tail(if old(inPart) then AfterPart(old(Rest())) else old(Rest()))
      ensures r.Ok? && r.value.None? ==> done
      ensures !old(done) && !old(inPart) ==>
                var p := Pulled(old(parser.Abs()), old(source));
                && p == Pull(parser.Abs(), source, p.poll)
                && (EventOf(p.poll).Err? ==> r == Err(EventOf(p.poll).error) && !done && !inPart)
    {
      hide Pulled, Drive, AfterPart, Valid, Scan;
      if done { return Ok(None); }
      ghost var ok := Synced();
      ghost var target := if ok then (if inPart then AfterPart(Rest()) else Rest()) else Trace([], Stalled);
      while inPart
        invariant !done && (ok ==> Synced() && target == if inPart then AfterPart(Rest()) else Rest())
        invariant inPart == old(inPart) || old(inPart)
        invariant !old(inPart) ==> parser.Abs() == old(parser.Abs()) && source == old(source)
        decreases Left(parser.Abs(), source), if inPart then 1 else 0
      {
        ghost var rest := if ok then Rest() else Trace([], Stalled);
        var got := PullEvent();
        if got.Err? {
          if ok { SkippedToError(rest, got.error); }
          return Err(got.error);
        }
        if ok { InsidePart(rest, got.value, parser.phase.Body?); }
        match got.value {
          case EndOfPart => inPart := false;
          case Done => done := true; return Ok(None);
          case Data(_) =>
          case PartHeaders(_) => return Err(Internal("multipart parser yielded headers mid-part"));
        }
      }
      ghost var rest := if ok then Rest() else Trace([], Stalled);
      var got := PullEvent();
      if got.Err? { return Err(got.error); }
      if ok { OutsidePart(rest, got.value, parser.phase.Body?); }
      match got.value {
        case PartHeaders(meta) =>
          inPart := true;
          r := Ok(Some(meta));
        case Done =>
          done := true;
          r := Ok(None);
        case Data(_) => r := Err(Internal("multipart parser yielded data outside a part"));
        case EndOfPart => r := Err(Internal("multipart parser yielded data outside a part"));
      }
    }

    /** The next chunk of the current part, or `None` at its end. */
    method Chunk() returns (r: Result<Option<seq<Byte>>, ReadError>)
      modifies this, parser
      ensures partCap == old(partCap)
      ensures !old(inPart) ==> r == Ok(None) && !inPart && done == old(done)
      ensures !old(inPart) ==> parser.Abs() == old(parser.Abs()) && source == old(source)
      ensures r.Ok? && r.value.Some? ==> Left(parser.Abs(), source) < old(Left(parser.Abs(), source))
      ensures old(Synced()) && old(inPart) && r.Ok? ==>
                && Synced() && old(Rest()).events != [] && Rest() == Tail(old(Rest()))
                && (if r.value.Some? then inPart && old(Rest()).events[0] == Data(r.value.value)
                    else !inPart && old(Rest()).events[0] == EndOfPart)
      ensures old(Synced()) && r.Err? ==> r.error.Parse? && old(Rest()) == Trace([], Broken(r.error.error))
    {
      hide Pulled, Drive, Valid, Scan;
      if !inPart { return Ok(None); }
      ghost var ok := Synced();
      ghost var rest := if ok then Rest() else Trace([], Stalled);
      var got := PullEvent();
      if got.Err? { return Err(got.error); }
      if ok { InsidePart(rest, got.value, parser.phase.Body?); }
      match got.value {
        case Data(b) => r := Ok(Some(b));
        case EndOfPart =>
          inPart := false;
          r := Ok(None);
        case Done =>
          inPart, done := false, true;
          r := Ok(None);
        case PartHeaders(_) => r := Err(Internal("multipart parser yielded headers mid-part"));
      }
    }

    /** The whole of the current part, capped. */
    method Bytes() returns (r: Result<seq<Byte>, ReadError>)
      modifies this, parser
      ensures old(Synced()) && old(inPart) ==> r == Gather(old(Rest()), old(partCap), [])
      ensures old(Synced()) && r.Err? ==> !r.error.Internal? && !r.error.Crash?
      ensures old(Synced()) && r.Ok? ==> Synced() && !inPart
    {
      hide Pulled, Drive, Valid;
      var out := [];
      ghost var ok := Synced();
      ghost var want := if ok then Gather(Rest(), partCap, []) else Ok([]);
      while true
        invariant partCap == old(partCap) && (ok ==> Synced())
        invariant ok && old(inPart) ==> want == if inPart then Gather(Rest(), partCap, out) else Ok(out)
        decreases Left(parser.Abs(), source)
      {
        var got := Chunk();
        if got.Err? { return Err(got.error); }
        if got.value == None { return Ok(out); }
        if |out| + |got.value.value| > partCap { return Err(PartTooLarge); }
        out := out + got.value.value;
      }
      assert false;
    }
  }

  /** Inside a part only data and the part's end can come. */
  lemma InsidePart(t: Trace, e: Event, inPart: bool)
    requires !e.Done? && Scan(true, [e]) == Some(inPart)
    ensures e.Data? || e.EndOfPart?
    ensures inPart <==> e.Data?
    ensures t.events != [] && t.events[0] == e ==> AfterPart(t) == if e.EndOfPart? then Tail(t) else AfterPart(Tail(t))
  {
    assert [e][1..] == [];
  }

  /** Outside one only headers and the end of all. */
  lemma OutsidePart(t: Trace, e: Event, inPart: bool)
    requires !e.Done? ==> Scan(false, [e]) == Some(inPart)
    ensures e.Done? || (e.PartHeaders? && inPart)
  {
    assert [e][1..] == [];
  }

  lemma SkippedToError(t: Trace, e: ReadError)
    requires e.Parse? && t == Trace([], Broken(e.error))
    ensures AfterPart(t) == t && HeadPart(t) == Err(e)
  {
  }

  // ---------- asking again after an error ----------

  /** Eight bytes that are no UTF-8, let alone a header. */
  const Junk: seq<Byte> := [255, 255, 255, 255, 255, 255, 255, 255]

  /** A boundary line and a bad header block, and its blank line in a chunk of its own. */
  const Line1: seq<Byte> := [45, 45, 66, 13, 10] + Junk

  function Delim(): Delimiter { CRLF_BYTES + DASHES + [66] }

  lemma NoBlankIn(b: seq<Byte>)
    requires forall i :: 0 <= i < |b| ==> b[i] == 255
    ensures Find(b, BLANK_LINE).None?
  {
    forall j ensures !OccursAt(b, BLANK_LINE, j) {
      if 0 <= j && j + 4 <= |b| { assert b[j..j + 4][0] == 255; }
    }
    FindNone(b, BLANK_LINE);
  }

  lemma JunkIsNoHeader()
    ensures HeadersOf(Junk) == Err(Malformed("part headers are not valid UTF-8"))
  {
    hide WithLines;
    assert Text.DecodeChar(Junk).None?;
  }

  /** Up to the header block: the junk has been scanned, and more is wanted. */
  lemma JunkIsScanned()
    ensures Next(Init(Delim())) == (Init(Delim()), NeedMore)
    ensures Next(Init(Delim()).Feed(Line1)) == (State(Delim(), Junk, Headers, 1, false, 8), NeedMore)
  {
    hide Turn;
    EmptyPreambleWaits(Delim());
    BoundaryIsPassed();
    LineIsPassed();
    BlockIsScanned();
    var s := State(Delim(), Line1, Preamble, 0, false, 0);
    var s1 := State(Delim(), [13, 10] + Junk, AfterBoundary, 0, false, 0);
    var s2 := State(Delim(), Junk, Headers, 1, false, 0);
    assert Init(Delim()).Feed(Line1) == s;
    assert Next(s2) == (State(Delim(), Junk, Headers, 1, false, 8), NeedMore);
    assert Next(s1) == Next(s2);
    assert Next(s) == Next(s1);
  }

  lemma BoundaryIsPassed()
    ensures Turn(State(Delim(), Line1, Preamble, 0, false, 0)) ==
            (State(Delim(), [13, 10] + Junk, AfterBoundary, 0, false, 0), Again)
  {
    hide Find;
    var d := Delim();
    assert d[2..] == [45, 45, 66] && Line1[0..3] == [45, 45, 66] && Line1[3..] == [13, 10] + Junk;
    assert OccursAt(Line1, d[2..], 0);
  }

  lemma LineIsPassed()
    ensures Turn(State(Delim(), [13, 10] + Junk, AfterBoundary, 0, false, 0)) ==
            (State(Delim(), Junk, Headers, 1, false, 0), Again)
  {
    hide Find;
    var b: seq<Byte> := [13, 10] + Junk;
    assert PadRun(b) == 0 && b[0..2] == CRLF_BYTES && b[2..] == Junk;
  }

  lemma BlockIsScanned()
    ensures Turn(State(Delim(), Junk, Headers, 1, false, 0)) ==
            (State(Delim(), Junk, Headers, 1, false, 8), Return(NeedMore))
  {
    hide HeadersOf, Find;
    NoBlankIn(Junk);
    assert Junk[0..] == Junk;
  }

  lemma EmptyPreambleWaits(d: Delimiter)
    ensures Next(Init(d)) == (Init(d), NeedMore)
  {
    FindNone([], d);
    assert Turn(Init(d)) == (Init(d), Return(NeedMore));
  }

  /** The blank line arrives: the block fails to parse, is consumed, and the cursor stays behind. */
  lemma JunkFails()
    ensures Next(State(Delim(), Junk + BLANK_LINE, Headers, 1, false, 8)) ==
            (State(Delim(), [], Headers, 1, false, 8), Failed(Malformed("part headers are not valid UTF-8")))
    ensures Next(State(Delim(), [], Headers, 1, false, 8)).1.Panicked?
  {
    hide HeadersOf;
    var buf := Junk + BLANK_LINE;
    var s := State(Delim(), buf, Headers, 1, false, 8);
    assert buf[5..] == [255, 255, 255] + BLANK_LINE;
    forall j | 0 <= j < 3 ensures !OccursAt(buf[5..], BLANK_LINE, j) { assert buf[5..][j..j + 4][0] == 255; }
    assert buf[5..][3..7] == BLANK_LINE;
    FindIs(buf[5..], BLANK_LINE, 3);
    assert buf[..8] == Junk && buf[12..] == [];
    JunkIsNoHeader();
    assert Turn(s) ==
           (State(Delim(), [], Headers, 1, false, 8), Return(Failed(Malformed("part headers are not valid UTF-8"))));
    assert Turn(State(Delim(), [], Headers, 1, false, 8)).1 == Return(Panicked);
  }

  /**
   * The stale cursor is reached from a fresh reader: a body with one bad header block, arriving in
   * two chunks, fails the first `next_part` as it should, and panics the second.
   */
  method AskedAgainItPanics()
    returns (first: Result<Option<PartMeta>, ReadError>, second: Result<Option<PartMeta>, ReadError>)
    ensures first == Err(Parse(Malformed("part headers are not valid UTF-8"))) && second == Err(Crash)
  {
    hide Next, Drive, Valid;
    var reader := new Multipart.FromStream([66], [Line1, BLANK_LINE]);
    JunkIsScanned();
    JunkFails();
    var s := Init(Delim());
    var s1 := s.Feed(Line1);
    var s2 := State(Delim(), Junk, Headers, 1, false, 8);
    assert [Line1, BLANK_LINE][1..] == [BLANK_LINE] && [BLANK_LINE][1..] == [];
    assert s2.Feed(BLANK_LINE) == State(Delim(), Junk + BLANK_LINE, Headers, 1, false, 8);
    ghost var stuck := State(Delim(), [], Headers, 1, false, 8);
    assert Pulled(s2.Feed(BLANK_LINE), Some([])).state == stuck;
    assert Pulled(s1, Some([BLANK_LINE])) == Pulled(s2.Feed(BLANK_LINE), Some([]));
    assert Pulled(s, Some([Line1, BLANK_LINE])) == Pulled(s1, Some([BLANK_LINE]));
    first := reader.NextPart();
    assert reader.parser.Abs() == stuck;
    second := reader.NextPart();
  }
}
