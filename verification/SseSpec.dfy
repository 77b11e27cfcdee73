/** What a stream of server-sent events means, line by line, and laws of that meaning. */
module SseSpec {
  import opened Bytes
  import opened Sequences
  import opened Utf8

  datatype Bound = Unbounded | Bounded(maxLine: nat, maxEvent: nat) {
    predicate FitsLine(n: nat) {
      Bounded? ==> n <= maxLine
    }

    predicate FitsEvent(n: nat) {
      Bounded? ==> n <= maxEvent
    }
  }

  datatype Error = ZeroLineLimit | ZeroEventLimit | LineTooLarge | EventTooLarge | InvalidUtf8

  datatype End = Clean | Broken(error: Error)

  datatype Parse = Parse(events: seq<Bytes>, end: End)

  /** The event being assembled: how many data fields it has, and their joined text. */
  datatype Progress = Progress(count: nat, data: Bytes)

  const START := Progress(0, [])

  datatype Next = Event(data: Bytes, rest: seq<Bytes>) | Finished | Failed(error: Error)

  datatype Field = Blank | Skipped | Data(value: Bytes)

  /** The text "data". */
  const DATA: Bytes := [100, 97, 116, 97]

  /** The line without the CRs and LFs at its end. */
  function TrimEnd(line: Bytes): (text: Bytes)
    ensures text <= line
    ensures !EndsWith(text, CR) && !EndsWith(text, LF)
  {
    if EndsWith(line, CR) || EndsWith(line, LF) then TrimEnd(line[..|line| - 1]) else line
  }

  /** Meaning of one raw line of well-formed text. */
  function FieldOf(line: Bytes): Field {
    var text := TrimEnd(line);
    if text == [] then Blank
    else if text[0] == COLON then Skipped
    else
      var i := FirstIndex(text, COLON);
      var rest := if i < |text| then text[i + 1..] else [];
      var value := if rest != [] && rest[0] == SPACE then rest[1..] else rest;
      if text[..i] == DATA then Data(value) else Skipped
  }

  /** The event after one more data field. */
  function Extend(p: Progress, value: Bytes): Progress {
    Progress(p.count + 1, if p.count > 0 then p.data + [LF] + value else value)
  }

  /** What one raw line does to the event in progress. */
  datatype Turn = Continue(progress: Progress) | Complete | Stop(error: Error)

  function Step(line: Bytes, p: Progress, b: Bound): Turn {
    if !b.FitsLine(|line|) then Stop(LineTooLarge)
    else if !IsUtf8(line) then Stop(InvalidUtf8)
    else
      match FieldOf(line)
      case Blank => if p.count == 0 then Continue(p) else Complete
      case Skipped => Continue(p)
      case Data(value) =>
        if b.FitsEvent(|Extend(p, value).data|) then Continue(Extend(p, value)) else Stop(EventTooLarge)
  }

  /** One call of the reader: the next event, or why there is none. */
  function NextEvent(ls: seq<Bytes>, p: Progress, b: Bound): (r: Next)
    ensures r.Event? ==> |r.rest| <= |ls| && (p.count == 0 ==> |r.rest| < |ls|)
  {
    if ls == [] then (if p.count == 0 then Finished else Event(p.data, []))
    else
      match Step(ls[0], p, b)
      case Stop(e) => Failed(e)
      case Complete => Event(p.data, ls[1..])
      case Continue(q) => NextEvent(ls[1..], q, b)
  }

  /** Successive calls until one ends the stream. */
  function ParseStream(ls: seq<Bytes>, b: Bound): Parse
    decreases |ls|
  {
    match NextEvent(ls, START, b)
    case Finished => Parse([], Clean)
    case Failed(e) => Parse([], Broken(e))
    case Event(data, rest) => Emit(data, ParseStream(rest, b))
  }

  function Emit(data: Bytes, r: Parse): Parse {
    Parse([data] + r.events, r.end)
  }

  /** The same meaning as a single fold over the lines. */
  function Run(ls: seq<Bytes>, p: Progress, b: Bound): Parse {
    if ls == [] then Parse(if p.count == 0 then [] else [p.data], Clean)
    else
      match Step(ls[0], p, b)
      case Stop(e) => Parse([], Broken(e))
      case Complete => Emit(p.data, Run(ls[1..], START, b))
      case Continue(q) => Run(ls[1..], q, b)
  }

  lemma {:induction false} RunUntilEvent(ls: seq<Bytes>, p: Progress, b: Bound)
    requires p.count == 0 ==> p == START
    ensures Run(ls, p, b) ==
      match NextEvent(ls, p, b)
      case Finished => Parse([], Clean)
      case Failed(e) => Parse([], Broken(e))
      case Event(data, rest) => Emit(data, Run(rest, START, b))
  {
    if ls != [] && Step(ls[0], p, b).Continue? {
      RunUntilEvent(ls[1..], Step(ls[0], p, b).progress, b);
    }
  }

  /** Reading call by call is one pure fold over the lines. */
  lemma {:induction false} CallsAreOneFold(ls: seq<Bytes>, b: Bound)
    ensures ParseStream(ls, b) == Run(ls, START, b)
    decreases |ls|
  {
    RunUntilEvent(ls, START, b);
    var r := NextEvent(ls, START, b);
    if r.Event? {
      CallsAreOneFold(r.rest, b);
    }
  }

  // ---- The events as blocks between blank lines ----

  /** The data values of each block of lines, blocks being cut at blank lines. */
  function Blocks(ls: seq<Bytes>, block: seq<Bytes>): seq<seq<Bytes>> {
    if ls == [] then [block]
    else
      match FieldOf(ls[0])
      case Blank => [block] + Blocks(ls[1..], [])
      case Skipped => Blocks(ls[1..], block)
      case Data(value) => Blocks(ls[1..], block + [value])
  }

  /** One event a block that has data: its values, joined with one LF between neighbours. */
  function JoinedBlocks(blocks: seq<seq<Bytes>>): seq<Bytes> {
    if blocks == [] then []
    else (if blocks[0] == [] then [] else [Join(blocks[0], LF)]) + JoinedBlocks(blocks[1..])
  }

  lemma {:induction false} RunIsBlocks(ls: seq<Bytes>, block: seq<Bytes>)
    requires forall i :: 0 <= i < |ls| ==> IsUtf8(ls[i])
    ensures Run(ls, Progress(|block|, Join(block, LF)), Unbounded) == Parse(JoinedBlocks(Blocks(ls, block)), Clean)
  {
    if ls == [] {
      assert JoinedBlocks([block]) == if block == [] then [] else [Join(block, LF)];
    } else {
      var turn := Step(ls[0], Progress(|block|, Join(block, LF)), Unbounded);
      match FieldOf(ls[0])
      case Blank =>
        assert turn == if block == [] then Continue(START) else Complete;
        RunIsBlocks(ls[1..], []);
      case Skipped => RunIsBlocks(ls[1..], block);
      case Data(value) =>
        JoinSnoc(block, value, LF);
        assert turn == Continue(Progress(|block + [value]|, Join(block + [value], LF)));
        RunIsBlocks(ls[1..], block + [value]);
    }
  }

  /** Without limits and with well-formed text, the events are the joined blocks. */
  lemma EventsAreJoinedBlocks(ls: seq<Bytes>)
    requires forall i :: 0 <= i < |ls| ==> IsUtf8(ls[i])
    ensures ParseStream(ls, Unbounded) == Parse(JoinedBlocks(Blocks(ls, [])), Clean)
  {
    CallsAreOneFold(ls, Unbounded);
    RunIsBlocks(ls, []);
  }

  // ---- Comments and other fields ----

  /** A comment, or a field other than data, within the line limit. */
  predicate Ignorable(line: Bytes, b: Bound) {
    b.FitsLine(|line|) && IsUtf8(line) && FieldOf(line) == Skipped
  }

  function Relevant(ls: seq<Bytes>, b: Bound): seq<Bytes> {
    if ls == [] then []
    else (if Ignorable(ls[0], b) then [] else [ls[0]]) + Relevant(ls[1..], b)
  }

  /** Ignorable lines, wherever they stand, have no effect. */
  lemma {:induction false} OnlyRelevantLinesCount(ls: seq<Bytes>, p: Progress, b: Bound)
    ensures Run(Relevant(ls, b), p, b) == Run(ls, p, b)
  {
    if ls != [] {
      var rest := Relevant(ls[1..], b);
      assert Relevant(ls, b) == if Ignorable(ls[0], b) then rest else [ls[0]] + rest;
      OnlyRelevantLinesCount(ls[1..], p, b);
      if b.FitsLine(|ls[0]|) && IsUtf8(ls[0]) {
        match FieldOf(ls[0])
        case Blank => OnlyRelevantLinesCount(ls[1..], START, b);
        case Skipped =>
        case Data(value) => OnlyRelevantLinesCount(ls[1..], Extend(p, value), b);
      }
    }
  }

  lemma {:induction false} RelevantAppend(a: seq<Bytes>, c: seq<Bytes>, b: Bound)
    ensures Relevant(a + c, b) == Relevant(a, b) + Relevant(c, b)
  {
    if a == [] {
      assert a + c == c;
    } else {
      RelevantAppend(a[1..], c, b);
      assert (a + c)[1..] == a[1..] + c;
      AppendAssoc(if Ignorable(a[0], b) then [] else [a[0]], Relevant(a[1..], b), Relevant(c, b));
    }
  }

  /** A comment line, or a field other than data, put in at any line start changes no event. */
  lemma InsertIgnorable(before: Bytes, line: Bytes, after: Bytes, b: Bound)
    requires before == [] || EndsWith(before, LF)
    requires Terminated(line) && Ignorable(line, b)
    ensures ParseStream(Lines(before + (line + after)), b) == ParseStream(Lines(before + after), b)
  {
    LinesAppend(before, line + after);
    LinesAppend(before, after);
    TerminatedHead(line, after);
    RelevantAppend(Lines(before), [line] + Lines(after), b);
    RelevantAppend(Lines(before), Lines(after), b);
    assert Relevant([line] + Lines(after), b) == Relevant(Lines(after), b) by {
      assert ([line] + Lines(after))[1..] == Lines(after);
    }
    OnlyRelevantLinesCount(Lines(before + (line + after)), START, b);
    OnlyRelevantLinesCount(Lines(before + after), START, b);
    CallsAreOneFold(Lines(before + (line + after)), b);
    CallsAreOneFold(Lines(before + after), b);
  }
}
