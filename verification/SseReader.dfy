/** The server-sent-events reader itself: two loops over a chunked source, with reused buffers. */
module SseReader {
  import opened Bytes
  import opened Sequences
  import opened Utf8
  import opened SseSpec
  import ChunkReader

  datatype LineRead = GotLine | NoLine | LineFailed(error: Error)

  datatype EventRead = GotEvent(data: Bytes) | NoEvent | EventFailed(error: Error)

  /** The parse of a stream under the limits as configured, zero limits included. */
  function LimitedParse(s: Bytes, maxLine: nat, maxEvent: nat): Parse {
    if maxEvent == 0 then Parse([], Broken(ZeroEventLimit))
    else if maxLine == 0 then Parse([], Broken(ZeroLineLimit))
    else ParseStream(Lines(s), Bounded(maxLine, maxEvent))
  }

  /** A limit of zero is an error whatever the stream, even an empty one; that of the event is looked at first. */
  lemma ZeroLimitFails(s: Bytes, maxLine: nat, maxEvent: nat)
    ensures maxEvent == 0 ==> LimitedParse(s, maxLine, maxEvent) == Parse([], Broken(ZeroEventLimit))
    ensures maxEvent > 0 && maxLine == 0 ==> LimitedParse(s, maxLine, maxEvent) == Parse([], Broken(ZeroLineLimit))
  {
  }

  /** How the next line must end on a stream, whatever the chunks. */
  function NextLine(s: Bytes, maxLine: nat): LineRead {
    if maxLine == 0 then LineFailed(ZeroLineLimit)
    else if s == [] then NoLine
    else if |FirstLine(s)| > maxLine then LineFailed(LineTooLarge)
    else GotLine
  }

  /** How the next call must end, and what it leaves to be parsed. */
  ghost predicate NextCall(s: Bytes, maxLine: nat, maxEvent: nat, r: EventRead, after: Bytes) {
    if maxEvent == 0 then r == EventFailed(ZeroEventLimit)
    else if maxLine == 0 then r == EventFailed(ZeroLineLimit)
    else EndsAs(NextEvent(Lines(s), START, Bounded(maxLine, maxEvent)), r, after)
  }

  ghost predicate EndsAs(next: Next, r: EventRead, after: Bytes) {
    match next
    case Finished => r == NoEvent
    case Failed(error) => r == EventFailed(error)
    case Event(data, rest) => r == GotEvent(data) && Lines(after) == rest
  }

  /** The event in progress will come to next. */
  ghost predicate WillBe(next: Next, s: Bytes, p: Progress, b: Bound) {
    next == NextEvent(Lines(s), p, b)
  }

  /** The end of the stream, or a line that is too long, decides the event. */
  lemma NoLineDecides(next: Next, s: Bytes, p: Progress, maxLine: nat, maxEvent: nat)
    requires maxLine > 0 && WillBe(next, s, p, Bounded(maxLine, maxEvent))
    ensures var read := NextLine(s, maxLine);
      && (read.LineFailed? ==> next == Failed(read.error))
      && (read.NoLine? ==> next == if p.count == 0 then Finished else Event(p.data, []))
  {
    if s != [] {
      assert Lines(s)[0] == FirstLine(s);
    }
  }

  /** A line decides the event, or takes it further. */
  lemma LineDecides(next: Next, s: Bytes, p: Progress, b: Bound)
    requires s != [] && WillBe(next, s, p, b)
    ensures var turn, rest := Step(FirstLine(s), p, b), s[LineLength(s)..];
      && (turn.Stop? ==> next == Failed(turn.error))
      && (turn.Complete? ==> next == Event(p.data, Lines(rest)))
      && (turn.Continue? ==> WillBe(next, rest, turn.progress, b))
  {
    assert Lines(s)[0] == FirstLine(s) && Lines(s)[1..] == Lines(s[LineLength(s)..]);
  }

  /** What a line has done: the event failed, is complete, or goes on with what is now in the buffer. */
  ghost predicate Turned(next: Next, turn: Turn, p: Progress, buffer: Bytes, rest: Bytes, b: Bound) {
    match turn
    case Stop(error) => next == Failed(error)
    case Complete => buffer == p.data && next == Event(p.data, Lines(rest))
    case Continue(q) => q.data == buffer && (q.count == 0 ==> buffer == []) && WillBe(next, rest, q, b)
  }

  lemma LineTurns(next: Next, s: Bytes, p: Progress, b: Bound, turn: Turn, buffer: Bytes)
    requires s != [] && WillBe(next, s, p, b) && (p.count == 0 ==> p.data == [])
    requires turn == Step(FirstLine(s), p, b)
    requires buffer == if turn.Continue? then turn.progress.data else p.data
    ensures Turned(next, turn, p, buffer, s[LineLength(s)..], b)
  {
    LineDecides(next, s, p, b);
  }

  /** The state that the event stream carries from one call to the next. */
  class EventStream {
    const reader: ChunkReader.Reader
    const maxLine: nat
    const maxEvent: nat
    var lineBytes: Bytes
    var buffer: Bytes

    /** Neither buffer is ever left over its limit. */
    ghost predicate Valid()
      reads this, reader
    {
      reader.Valid() && |lineBytes| <= maxLine && |buffer| <= maxEvent
    }

    constructor (reader: ChunkReader.Reader, maxLine: nat, maxEvent: nat)
      requires reader.Valid()
      ensures Valid()
      ensures this.reader == reader && this.maxLine == maxLine && this.maxEvent == maxEvent
    {
      this.reader, this.maxLine, this.maxEvent := reader, maxLine, maxEvent;
      lineBytes, buffer := [], [];
    }

    /** One line with its LF, independent of how it was chunked. */
    method ReadNextLine() returns (r: LineRead)
      requires Valid()
      modifies this`lineBytes, reader
      ensures Valid()
      ensures r == NextLine(old(reader.Remaining()), maxLine)
      ensures r == GotLine ==>
        && lineBytes == FirstLine(old(reader.Remaining()))
        && reader.Remaining() == old(reader.Remaining())[LineLength(old(reader.Remaining()))..]
      ensures r == NoLine ==> lineBytes == [] && reader.Remaining() == []
    {
      if maxLine == 0 {
        return LineFailed(ZeroLineLimit);
      }
      ghost var s := reader.Remaining();
      lineBytes := [];
      while true
        invariant Valid()
        invariant s == lineBytes + reader.Remaining()
        invariant Absent(lineBytes, LF, |lineBytes|)
        decreases |reader.Remaining()|
      {
        var buf := reader.FillBuf();
        if buf == [] {
          assert s == lineBytes;
          UnterminatedLine(s);
          return if lineBytes == [] then NoLine else GotLine;
        }
        var pos := FirstIndex(buf, LF);
        var take := if pos < |buf| then pos + 1 else |buf|;
        ExtendByChunk(s, lineBytes, reader.Remaining(), buf, take);
        if |lineBytes| + take > maxLine {
          PrefixOfLine(s, lineBytes + buf[..take]);
          return LineFailed(LineTooLarge);
        }
        reader.Consume(take);
        lineBytes := lineBytes + buf[..take];
        if pos < |buf| {
          return GotLine;
        }
      }
    }

    /** What the line in lineBytes does to the event in progress; data fields go to the buffer. */
    method ApplyLine(count: nat) returns (turn: Turn)
      requires Valid()
      requires count == 0 ==> buffer == []
      modifies this`buffer
      ensures Valid()
      ensures turn == Step(lineBytes, Progress(count, old(buffer)), Bounded(maxLine, maxEvent))
      ensures buffer == if turn.Continue? then turn.progress.data else old(buffer)
    {
      if !IsUtf8(lineBytes) {
        return Stop(InvalidUtf8);
      }
      match FieldOf(lineBytes) {
        case Blank =>
          return if count == 0 then Continue(Progress(count, buffer)) else Complete;
        case Skipped =>
          return Continue(Progress(count, buffer));
        case Data(value) =>
          var separatorBytes := if count > 0 then 1 else 0;
          if |buffer| + separatorBytes + |value| > maxEvent {
            return Stop(EventTooLarge);
          }
          if separatorBytes == 1 {
            buffer := buffer + [LF];
          }
          buffer := buffer + value;
          return Continue(Progress(count + 1, buffer));
      }
    }

    /** Reads a line and, when there is one, lets it take effect on the event in progress, which will come to
        next. */
    method TakeLine(count: nat, ghost next: Next) returns (got: LineRead, turn: Turn)
      requires Valid()
      requires count == 0 ==> buffer == []
      requires maxLine > 0 ==> WillBe(next, reader.Remaining(), Progress(count, buffer), Bounded(maxLine, maxEvent))
      modifies this`lineBytes, this`buffer, reader
      ensures Valid()
      ensures maxLine == 0 ==> got == LineFailed(ZeroLineLimit)
      ensures maxLine > 0 && got.LineFailed? ==> next == Failed(got.error)
      ensures got == NoLine ==>
        reader.Remaining() == [] && buffer == old(buffer) && next == if count == 0 then Finished else Event(buffer, [])
      ensures got == GotLine ==> |reader.Remaining()| < |old(reader.Remaining())|
      ensures got == GotLine ==>
        Turned(next, turn, Progress(count, old(buffer)), buffer, reader.Remaining(), Bounded(maxLine, maxEvent))
    {
      ghost var s, p := reader.Remaining(), Progress(count, buffer);
      turn := Complete;
      got := ReadNextLine();
      if maxLine > 0 {
        NoLineDecides(next, s, p, maxLine, maxEvent);
      }
      if got == GotLine {
        turn := ApplyLine(count);
        LineTurns(next, s, p, Bounded(maxLine, maxEvent), turn, buffer);
      }
    }

    /** The next event's data; the count of data fields starts at zero on every call. */
    method ReadNextEvent() returns (r: EventRead)
      requires Valid()
      modifies this`lineBytes, this`buffer, reader
      ensures Valid()
      ensures NextCall(old(reader.Remaining()), maxLine, maxEvent, r, reader.Remaining())
    {
      if maxEvent == 0 {
        return EventFailed(ZeroEventLimit);
      }
      ghost var b := Bounded(maxLine, maxEvent);
      ghost var next := NextEvent(Lines(reader.Remaining()), START, b);
      buffer := [];
      var count: nat := 0;
      while true
        invariant Valid()
        invariant count == 0 ==> buffer == []
        invariant maxLine > 0 ==> WillBe(next, reader.Remaining(), Progress(count, buffer), b)
        decreases |reader.Remaining()|
      {
        var got, turn := TakeLine(count, next);
        if got.LineFailed? {
          return EventFailed(got.error);
        }
        if got == NoLine {
          if count == 0 {
            return NoEvent;
          }
          r := TakeBuffer();
          return;
        }
        if turn.Stop? {
          return EventFailed(turn.error);
        }
        if turn.Complete? {
          r := TakeBuffer();
          return;
        }
        count := turn.progress.count;
      }
    }

    method TakeBuffer() returns (r: EventRead)
      requires Valid()
      modifies this`buffer
      ensures Valid() && buffer == []
      ensures r == GotEvent(old(buffer))
    {
      r := GotEvent(buffer);
      buffer := [];
    }

    /** Polls the stream to its end; the first error ends it too. */
    method ReadAll() returns (r: Parse)
      requires Valid()
      modifies this`lineBytes, this`buffer, reader
      ensures Valid()
      ensures r == LimitedParse(old(reader.Remaining()), maxLine, maxEvent)
    {
      ghost var s := reader.Remaining();
      var events := [];
      while true
        invariant Valid()
        invariant maxLine == 0 || maxEvent == 0 ==> events == []
        invariant maxLine > 0 && maxEvent > 0 ==>
          var whole := ParseStream(Lines(s), Bounded(maxLine, maxEvent));
          var rest := ParseStream(Lines(reader.Remaining()), Bounded(maxLine, maxEvent));
          whole == Parse(events + rest.events, rest.end)
        decreases |Lines(reader.Remaining())|
      {
        var next := ReadNextEvent();
        match next {
          case NoEvent => return Parse(events, Clean);
          case EventFailed(e) => return Parse(events, Broken(e));
          case GotEvent(data) =>
            AppendAssoc(events, [data], ParseStream(Lines(reader.Remaining()), Bounded(maxLine, maxEvent)).events);
            events := events + [data];
        }
      }
    }
  }
}
