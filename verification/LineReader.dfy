/** Reading size-limited lines from a JSON-RPC peer (read_line_limited_into). */
module LineReader {
  import opened Bytes
  import opened Sequences
  import ChunkReader

  datatype Outcome = MoreLine | EndOfInput | TooLarge

  /** The payload of one raw line: its LF goes, and one CR before that LF. */
  function Strip(line: Bytes): (payload: Bytes)
    ensures payload <= line
  {
    if EndsWith(line, LF) then
      var body := line[..|line| - 1];
      if EndsWith(body, CR) then body[..|body| - 1] else body
    else
      line
  }

  /** A line feed at the end is taken off, with the one carriage return before it if there is one; where there is no
      line feed nothing is. */
  lemma StripIs(text: Bytes)
    requires Absent(text, LF, |text|)
    ensures Strip(text) == text
    ensures Strip(text + [LF]) == if EndsWith(text, CR) then text[..|text| - 1] else text
  {
    assert (text + [LF])[..|text|] == text;
  }

  /** How the next read on a stream must end, whatever the chunks. */
  function NextOutcome(s: Bytes, maxBytes: nat): Outcome {
    if s == [] then EndOfInput
    else if |Strip(FirstLine(s))| > maxBytes then TooLarge
    else MoreLine
  }

  /** The next read on a stream ends with r and buf, and leaves after to be read. */
  ghost predicate ReadsAs(s: Bytes, maxBytes: nat, r: Outcome, buf: Bytes, after: Bytes) {
    && r == NextOutcome(s, maxBytes)
    && (r == MoreLine ==> buf == Strip(FirstLine(s)) && after == s[LineLength(s)..])
    && (r == EndOfInput ==> buf == [] && after == [])
    && |buf| <= maxBytes + 2
  }

  /** A prefix of a line that is too long even with its ending taken off dooms the line. */
  lemma LongPrefixIsTooLarge(s: Bytes, p: Bytes, maxBytes: nat)
    requires p <= s && Absent(p, LF, |p| - 1)
    requires |p| > maxBytes + (if EndsWith(p, LF) then 2 else 1)
    ensures NextOutcome(s, maxBytes) == TooLarge
  {
    PrefixOfLine(s, p);
    assert EndsWith(p, LF) ==> s[|p| - 1] == LF;
  }

  lemma EndsTooLarge(s: Bytes, p: Bytes, maxBytes: nat, buf: Bytes, after: Bytes)
    requires p <= s && Absent(p, LF, |p| - 1) && |buf| <= maxBytes + 1
    requires |p| > maxBytes + (if EndsWith(p, LF) then 2 else 1)
    ensures ReadsAs(s, maxBytes, TooLarge, buf, after)
  {
    LongPrefixIsTooLarge(s, p, maxBytes);
  }

  /** The stream ends before its line does. */
  lemma EndsUnterminated(s: Bytes, maxBytes: nat)
    requires Absent(s, LF, |s|) && |s| <= maxBytes + 1
    ensures ReadsAs(s, maxBytes, if |s| > maxBytes then TooLarge else if s == [] then EndOfInput else MoreLine, s, [])
  {
    UnterminatedLine(s);
  }

  /** The line is there, with its LF. */
  lemma EndsTerminated(s: Bytes, line: Bytes, maxBytes: nat)
    requires s != [] && FirstLine(s) == line && |line| <= maxBytes + 2
    ensures var r := if |Strip(line)| > maxBytes then TooLarge else MoreLine;
      ReadsAs(s, maxBytes, r, Strip(line), s[LineLength(s)..])
  {
  }

  method ReadLineLimitedInto(reader: ChunkReader.Reader, maxBytes: nat) returns (r: Outcome, buf: Bytes)
    requires reader.Valid()
    modifies reader
    ensures reader.Valid()
    ensures ReadsAs(old(reader.Remaining()), maxBytes, r, buf, reader.Remaining())
  {
    ghost var s := reader.Remaining();
    buf := [];
    while true
      invariant reader.Valid()
      invariant s == buf + reader.Remaining()
      invariant Absent(buf, LF, |buf|)
      invariant |buf| <= maxBytes + 1
      decreases |reader.Remaining()|
    {
      var available := reader.FillBuf();
      if available == [] {
        assert s == buf;
        EndsUnterminated(s, maxBytes);
        if |buf| > maxBytes {
          return TooLarge, buf;
        }
        return if buf == [] then EndOfInput else MoreLine, buf;
      }
      var pos := FirstIndex(available, LF);
      var hasNewline := pos < |available|;
      var take := if hasNewline then pos + 1 else |available|;
      var slack := if hasNewline then 2 else 1;
      ExtendByChunk(s, buf, reader.Remaining(), available, take);
      if |buf| + take > maxBytes + slack {
        EndsTooLarge(s, buf + available[..take], maxBytes, buf, reader.Remaining());
        return TooLarge, buf;
      }
      reader.Consume(take);
      buf := buf + available[..take];
      if hasNewline {
        EndsTerminated(s, buf, maxBytes);
        break;
      }
    }
    buf := Strip(buf);
    if |buf| > maxBytes {
      return TooLarge, buf;
    }
    return MoreLine, buf;
  }

  /** Everything a reader gets out of a stream: its messages, and whether it came to the end. */
  datatype Reading = Reading(messages: seq<Bytes>, complete: bool)

  /** The messages carried by a sequence of raw lines, up to the first that is too long. */
  function Accept(ls: seq<Bytes>, maxBytes: nat): Reading {
    if ls == [] then Reading([], true)
    else if |Strip(ls[0])| > maxBytes then Reading([], false)
    else
      var rest := Accept(ls[1..], maxBytes);
      Reading([Strip(ls[0])] + rest.messages, rest.complete)
  }

  // ---- The client's loop ----

  /** SPACE, TAB, LF, FF or CR. */
  predicate IsAsciiWhitespace(b: Byte) {
    b == SPACE || b == 9 || b == LF || b == 12 || b == CR
  }

  predicate IsBlank(line: Bytes) {
    forall i :: 0 <= i < |line| ==> IsAsciiWhitespace(line[i])
  }

  datatype SessionEnd = InputEnded | LineTooLarge | Halted

  /** The messages that were handled, and why no more were. */
  datatype Session = Session(handled: seq<Bytes>, end: SessionEnd)

  /** Whether a message, after those handled before it, parses, is handled with success and leaves the connection
      open. That depends on queues and peers too, but no two messages of a session come after the same ones, so
      there is such a function for whatever they do. */
  type GoesOn = (seq<Bytes>, Bytes) -> bool

  /** What a client handles of a reading, having handled some messages already. */
  function Serve(r: Reading, before: seq<Bytes>, goesOn: GoesOn): Session
    decreases |r.messages|
  {
    if r.messages == [] then Session(before, if r.complete then InputEnded else LineTooLarge)
    else
      var line, rest := r.messages[0], Reading(r.messages[1..], r.complete);
      if IsBlank(line) then Serve(rest, before, goesOn)
      else if !goesOn(before, line) then Session(before + [line], Halted)
      else Serve(rest, before + [line], goesOn)
  }

  /** Blank lines are skipped; reading stops at the end of input, at a line that is too long, and after the first
      message that the connection does not survive. */
  method ReadAll(reader: ChunkReader.Reader, maxBytes: nat, goesOn: GoesOn) returns (r: Session)
    requires reader.Valid()
    modifies reader
    ensures r == Serve(Accept(Lines(old(reader.Remaining())), maxBytes), [], goesOn)
  {
    ghost var whole := Serve(Accept(Lines(reader.Remaining()), maxBytes), [], goesOn);
    var handled := [];
    while true
      invariant reader.Valid()
      invariant whole == Serve(Accept(Lines(reader.Remaining()), maxBytes), handled, goesOn)
      decreases |reader.Remaining()|
    {
      ghost var before := reader.Remaining();
      var outcome, line := ReadLineLimitedInto(reader, maxBytes);
      NextMessage(before, maxBytes);
      if outcome == EndOfInput {
        return Session(handled, InputEnded);
      }
      if outcome == TooLarge {
        return Session(handled, LineTooLarge);
      }
      if !IsBlank(line) {
        if !goesOn(handled, line) {
          return Session(handled + [line], Halted);
        }
        handled := handled + [line];
      }
    }
  }

  /** The first message of a stream, and the rest. */
  lemma NextMessage(s: Bytes, maxBytes: nat)
    ensures var outcome, r := NextOutcome(s, maxBytes), Accept(Lines(s), maxBytes);
      && (outcome == EndOfInput ==> r == Reading([], true))
      && (outcome == TooLarge ==> r == Reading([], false))
      && (outcome == MoreLine ==>
           var rest := Accept(Lines(s[LineLength(s)..]), maxBytes);
           && r.messages != [] && r.messages[0] == Strip(FirstLine(s))
           && r.messages[1..] == rest.messages && r.complete == rest.complete)
  {
    if s != [] {
      assert Lines(s)[0] == FirstLine(s) && Lines(s)[1..] == Lines(s[LineLength(s)..]);
    }
  }

  function NonBlank(messages: seq<Bytes>): seq<Bytes> {
    if messages == [] then []
    else (if IsBlank(messages[0]) then [] else [messages[0]]) + NonBlank(messages[1..])
  }

  /** Only lines of space, tab, form feed, CR and LF are skipped. */
  lemma BlankIff(line: Bytes)
    ensures IsBlank(line) <==> forall b :: b in line ==> b in {9, 10, 12, 13, 32}
  {
    assert forall i :: 0 <= i < |line| ==> line[i] in line;
  }

  /** A message with anything to see in it is not skipped. */
  lemma {:induction false} VisibleIsKept(messages: seq<Bytes>, i: nat, k: nat)
    requires i < |messages| && k < |messages[i]| && messages[i][k] > 32
    ensures messages[i] in NonBlank(messages)
  {
    if i == 0 {
      BlankIff(messages[0]);
      assert messages[0][k] in messages[0];
    } else {
      VisibleIsKept(messages[1..], i - 1, k);
    }
  }

  /** The session is what handling these messages in turn comes to, after those before them. */
  ghost predicate Serves(session: Session, before: seq<Bytes>, all: seq<Bytes>, complete: bool, goesOn: GoesOn) {
    var n := |session.handled|;
    && before <= session.handled <= before + all
    && (forall i :: |before| <= i < n - 1 ==> goesOn(session.handled[..i], session.handled[i]))
    && (session.end == Halted ==> n > |before| && !goesOn(session.handled[..n - 1], session.handled[n - 1]))
    && (session.end != Halted ==>
         && (n > |before| ==> goesOn(session.handled[..n - 1], session.handled[n - 1]))
         && session.handled == before + all && (session.end == InputEnded <==> complete))
  }

  lemma ServesOneMore(line: Bytes, session: Session, before: seq<Bytes>, all: seq<Bytes>, complete: bool,
                      goesOn: GoesOn)
    requires Serves(session, before + [line], all, complete, goesOn) && goesOn(before, line)
    ensures Serves(session, before, [line] + all, complete, goesOn)
  {
    assert before + ([line] + all) == (before + [line]) + all;
    assert session.handled[..|before|] == before && session.handled[|before|] == line;
  }

  lemma ServesLast(line: Bytes, before: seq<Bytes>, all: seq<Bytes>, complete: bool, goesOn: GoesOn)
    requires !goesOn(before, line)
    ensures Serves(Session(before + [line], Halted), before, [line] + all, complete, goesOn)
  {
    assert (before + [line])[..|before|] == before;
    assert before + ([line] + all) == (before + [line]) + all;
  }

  /** The messages handled are those that are not blank, in order, up to the first that the connection does not
      survive; without one it is the input that ends the session. */
  lemma {:induction false} ServeExact(r: Reading, before: seq<Bytes>, goesOn: GoesOn)
    ensures Serves(Serve(r, before, goesOn), before, NonBlank(r.messages), r.complete, goesOn)
    decreases |r.messages|
  {
    if r.messages == [] {
      assert before + NonBlank(r.messages) == before;
    } else {
      var line, rest := r.messages[0], Reading(r.messages[1..], r.complete);
      if IsBlank(line) {
        ServeExact(rest, before, goesOn);
        assert NonBlank(r.messages) == NonBlank(rest.messages);
      } else if goesOn(before, line) {
        ServeExact(rest, before + [line], goesOn);
        ServesOneMore(line, Serve(rest, before + [line], goesOn), before, NonBlank(rest.messages), r.complete, goesOn);
      } else {
        ServesLast(line, before, NonBlank(rest.messages), r.complete, goesOn);
      }
    }
  }

  // ---- What is accepted ----

  /** The messages are exactly the stripped lines before the first oversized one. */
  lemma {:induction false} AcceptExact(ls: seq<Bytes>, maxBytes: nat)
    ensures var r := Accept(ls, maxBytes);
      && |r.messages| <= |ls|
      && (forall i :: 0 <= i < |r.messages| ==> r.messages[i] == Strip(ls[i]) && |Strip(ls[i])| <= maxBytes)
      && (r.complete <==> |r.messages| == |ls|)
      && (!r.complete ==> |Strip(ls[|r.messages|])| > maxBytes)
  {
    if ls != [] {
      AcceptExact(ls[1..], maxBytes);
    }
  }

  /** Newline-delimited framing, as serialize_json_line writes it. */
  function Frame(messages: seq<Bytes>): (lines: seq<Bytes>)
    ensures |lines| == |messages|
    ensures forall i :: 0 <= i < |lines| ==> lines[i] == messages[i] + [LF]
  {
    seq(|messages|, i requires 0 <= i < |messages| => messages[i] + [LF])
  }

  /** What a message must be like for newline framing to carry it. */
  predicate Carried(m: Bytes, maxBytes: nat) {
    Absent(m, LF, |m|) && !EndsWith(m, CR) && |m| <= maxBytes
  }

  lemma StripFramed(m: Bytes)
    ensures Strip(m + [LF]) == if EndsWith(m, CR) then m[..|m| - 1] else m
  {
    assert (m + [LF])[..|m|] == m;
  }

  /** No message that was read holds an LF. */
  lemma ReadHasNoLf(s: Bytes, maxBytes: nat, i: nat)
    requires i < |Accept(Lines(s), maxBytes).messages|
    ensures var m := Accept(Lines(s), maxBytes).messages[i]; Absent(m, LF, |m|)
  {
    AcceptExact(Lines(s), maxBytes);
    LinesShape(s);
    StrippedHasNoLf(Lines(s)[i]);
  }

  lemma StrippedHasNoLf(line: Bytes)
    requires RawLine(line)
    ensures Absent(Strip(line), LF, |Strip(line)|)
  {
    if !EndsWith(line, LF) {
      assert line[|line| - 1] != LF;
    }
  }

  lemma AcceptFramed(messages: seq<Bytes>, maxBytes: nat)
    requires forall i :: 0 <= i < |messages| ==> Absent(messages[i], LF, |messages[i]|)
    ensures Accept(Frame(messages), maxBytes) == Reading(messages, true)
      <==> forall i :: 0 <= i < |messages| ==> Carried(messages[i], maxBytes)
  {
    AcceptExact(Frame(messages), maxBytes);
    forall i | 0 <= i < |messages|
      ensures Strip(Frame(messages)[i]) == messages[i] <==> !EndsWith(messages[i], CR)
    {
      StripFramed(messages[i]);
    }
  }

  /** Framing is undone by reading exactly when every message can be carried. */
  lemma FramingRoundTrip(messages: seq<Bytes>, maxBytes: nat)
    ensures Accept(Lines(Flatten(Frame(messages))), maxBytes) == Reading(messages, true)
      <==> forall i :: 0 <= i < |messages| ==> Carried(messages[i], maxBytes)
  {
    if forall i :: 0 <= i < |messages| ==> Absent(messages[i], LF, |messages[i]|) {
      assert forall i :: 0 <= i < |messages| ==> Terminated(Frame(messages)[i]);
      LinesOfFlatten(Frame(messages));
      AcceptFramed(messages, maxBytes);
    } else {
      var i :| 0 <= i < |messages| && !Absent(messages[i], LF, |messages[i]|);
      assert !Carried(messages[i], maxBytes);
      if Accept(Lines(Flatten(Frame(messages))), maxBytes).messages == messages {
        ReadHasNoLf(Flatten(Frame(messages)), maxBytes, i);
      }
    }
  }
}
