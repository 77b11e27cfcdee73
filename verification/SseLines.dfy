/** The lines of an event stream as they are written, and what a stream of them means: every stream of well-formed text
    is one, so this is the meaning of all streams. */
module SseLines {
  import opened Bytes
  import opened Sequences
  import opened Utf8
  import opened SseSpec

  // ---- Lines as they are written ----

  /** A line without what ends it: nothing at all, a name alone, or a name and a value after a colon and one space
      or none. A comment has the empty name. */
  datatype Written = Empty | Bare(name: Bytes) | Named(name: Bytes, space: bool, value: Bytes)

  /** There is one way only to write a line as one of these. */
  predicate WellWritten(l: Written) {
    match l
    case Empty => true
    case Bare(name) => name != [] && Absent(name, COLON, |name|)
    case Named(name, space, value) =>
      Absent(name, COLON, |name|) && (space || value == [] || value[0] != SPACE)
  }

  function Text(l: Written): Bytes {
    match l
    case Empty => []
    case Bare(name) => name
    case Named(name, space, value) => name + [COLON] + (if space then [SPACE] else []) + value
  }

  /** What may end a line: CRs and LFs, in any number and order. */
  predicate Ends(ending: Bytes) {
    forall i :: 0 <= i < |ending| ==> ending[i] == CR || ending[i] == LF
  }

  /** The raw line is this one, and ends as a line may. */
  ghost predicate Spells(line: Bytes, l: Written) {
    && WellWritten(l) && !EndsWith(Text(l), CR) && !EndsWith(Text(l), LF)
    && Text(l) <= line && Ends(line[|Text(l)|..])
  }

  // ---- What a line means ----

  lemma {:induction false} TrimTakesEnding(text: Bytes, ending: Bytes)
    requires !EndsWith(text, CR) && !EndsWith(text, LF) && Ends(ending)
    ensures TrimEnd(text + ending) == text
  {
    if ending == [] {
      assert text + ending == text;
    } else {
      var init := ending[..|ending| - 1];
      TrimTakesEnding(text, init);
      assert (text + ending)[..|text + ending| - 1] == text + init;
    }
  }

  lemma ColonAfterName(name: Bytes, rest: Bytes)
    requires Absent(name, COLON, |name|)
    ensures FirstIndex(name + [COLON] + rest, COLON) == |name|
  {
    assert (name + [COLON] + rest)[|name|] == COLON;
  }

  lemma NoColon(name: Bytes)
    requires Absent(name, COLON, |name|)
    ensures FirstIndex(name, COLON) == |name|
  {
  }

  /** The field of a line: of "data", with no colon, with a colon, with a colon and a space. */
  function Meaning(l: Written): Field {
    match l
    case Empty => Blank
    case Bare(name) => if name == DATA then Data([]) else Skipped
    case Named(name, _, value) => if name == DATA then Data(value) else Skipped
  }

  function WithoutSpace(rest: Bytes): Bytes {
    if rest != [] && rest[0] == SPACE then rest[1..] else rest
  }

  lemma CutAtColon(name: Bytes, rest: Bytes)
    requires Absent(name, COLON, |name|)
    ensures var text := name + [COLON] + rest;
      var i := FirstIndex(text, COLON);
      && i == |name| < |text| && text[..i] == name && text[i + 1..] == rest
      && (text[0] == COLON <==> name == [])
  {
    ColonAfterName(name, rest);
  }

  lemma FieldWithColon(text: Bytes, name: Bytes, rest: Bytes)
    requires text == name + [COLON] + rest && Absent(name, COLON, |name|) && TrimEnd(text) == text
    ensures FieldOf(text) == if name == DATA then Data(WithoutSpace(rest)) else Skipped
  {
    CutAtColon(name, rest);
  }

  lemma NamedMeans(name: Bytes, space: bool, value: Bytes)
    requires WellWritten(Named(name, space, value))
    requires TrimEnd(Text(Named(name, space, value))) == Text(Named(name, space, value))
    ensures FieldOf(Text(Named(name, space, value))) == Meaning(Named(name, space, value))
  {
    var rest := (if space then [SPACE] else []) + value;
    assert Text(Named(name, space, value)) == name + [COLON] + rest;
    FieldWithColon(Text(Named(name, space, value)), name, rest);
    assert WithoutSpace(rest) == value;
  }

  /** The reader takes every line for what it is. */
  lemma SpelledMeans(line: Bytes, l: Written)
    requires Spells(line, l)
    ensures FieldOf(line) == Meaning(l)
  {
    var text := Text(l);
    assert line == text + line[|text|..];
    TrimTakesEnding(text, line[|text|..]);
    TrimTakesEnding(text, []);
    assert text + [] == text;
    assert FieldOf(line) == FieldOf(text);
    match l
    case Empty =>
    case Bare(name) => NoColon(name);
    case Named(name, space, value) => NamedMeans(name, space, value);
  }

  lemma NamedIsWritten(name: Bytes, rest: Bytes) returns (l: Written)
    requires Absent(name, COLON, |name|)
    ensures WellWritten(l) && Text(l) == name + [COLON] + rest
  {
    if rest != [] && rest[0] == SPACE {
      l := Named(name, true, rest[1..]);
      assert rest == [SPACE] + rest[1..];
    } else {
      l := Named(name, false, rest);
    }
  }

  lemma EveryTextIsWritten(text: Bytes) returns (l: Written)
    ensures WellWritten(l) && Text(l) == text
  {
    var i := FirstIndex(text, COLON);
    if text == [] {
      l := Empty;
    } else if i == |text| {
      l := Bare(text);
    } else {
      CutAt(text, i);
      l := NamedIsWritten(text[..i], text[i + 1..]);
    }
  }

  /** Every raw line is some line as it is written. */
  lemma EveryLineIsSpelled(line: Bytes) returns (l: Written)
    ensures Spells(line, l)
  {
    TrimIsEnding(line);
    l := EveryTextIsWritten(TrimEnd(line));
  }

  lemma {:induction false} TrimIsEnding(line: Bytes)
    ensures Ends(line[|TrimEnd(line)|..])
  {
    if EndsWith(line, CR) || EndsWith(line, LF) {
      var init := line[..|line| - 1];
      TrimIsEnding(init);
      assert line[|TrimEnd(line)|..] == init[|TrimEnd(line)|..] + [line[|line| - 1]];
    }
  }

  // ---- What a stream means ----

  /** The values of the data fields of each block, blocks being cut at empty lines. */
  function BlocksOf(ls: seq<Written>, block: seq<Bytes>): seq<seq<Bytes>> {
    if ls == [] then [block]
    else
      match ls[0]
      case Empty => [block] + BlocksOf(ls[1..], [])
      case Bare(name) => BlocksOf(ls[1..], if name == DATA then block + [[]] else block)
      case Named(name, _, value) => BlocksOf(ls[1..], if name == DATA then block + [value] else block)
  }

  ghost predicate AllSpelled(lines: seq<Bytes>, ls: seq<Written>) {
    |lines| == |ls| && forall i :: 0 <= i < |ls| ==> Spells(lines[i], ls[i])
  }

  lemma {:induction false} BlocksAreSpelled(lines: seq<Bytes>, ls: seq<Written>, block: seq<Bytes>)
    requires AllSpelled(lines, ls)
    ensures Blocks(lines, block) == BlocksOf(ls, block)
  {
    if ls != [] {
      var more := if Meaning(ls[0]).Data? then block + [Meaning(ls[0]).value] else block;
      SpelledMeans(lines[0], ls[0]);
      assert AllSpelled(lines[1..], ls[1..]);
      BlocksAreSpelled(lines[1..], ls[1..], if Meaning(ls[0]).Blank? then [] else more);
    }
  }

  /** Without limits, a stream of well-formed text has one event for each block with a data field, and the event is the
      values of those fields with one LF between neighbours; comments and all other fields are nothing to it. */
  lemma StreamMeans(lines: seq<Bytes>, ls: seq<Written>)
    requires AllSpelled(lines, ls) && forall i :: 0 <= i < |lines| ==> IsUtf8(lines[i])
    ensures ParseStream(lines, Unbounded) == Parse(JoinedBlocks(BlocksOf(ls, [])), Clean)
  {
    EventsAreJoinedBlocks(lines);
    BlocksAreSpelled(lines, ls, []);
  }

  /** Every stream is lines as they are written, so the above is what it means. */
  lemma {:induction false} EveryStreamIsSpelled(lines: seq<Bytes>) returns (ls: seq<Written>)
    ensures AllSpelled(lines, ls)
  {
    ls := [];
    if lines != [] {
      var first := EveryLineIsSpelled(lines[0]);
      var rest := EveryStreamIsSpelled(lines[1..]);
      ls := [first] + rest;
      assert forall i :: 0 < i < |ls| ==> lines[i] == lines[1..][i - 1] && ls[i] == rest[i - 1];
    }
  }

  // ---- One line in a stream ----

  predicate Readable(line: Bytes, b: Bound) {
    b.FitsLine(|line|) && IsUtf8(line)
  }

  /** A comment, or a field with another name than "data". */
  predicate Unread(l: Written) {
    !l.Empty? && l.name != DATA
  }

  /** Such a line, put in at any line start, changes nothing. */
  lemma InsertUnread(before: Bytes, line: Bytes, l: Written, after: Bytes, b: Bound)
    requires before == [] || EndsWith(before, LF)
    requires Terminated(line) && Readable(line, b) && Spells(line, l) && Unread(l)
    ensures ParseStream(Lines(before + (line + after)), b) == ParseStream(Lines(before + after), b)
  {
    SpelledMeans(line, l);
    InsertIgnorable(before, line, after, b);
  }

  lemma {:induction false} RunReplaced(before: seq<Bytes>, line: Bytes, other: Bytes, after: seq<Bytes>,
                                       p: Progress, b: Bound)
    requires Readable(line, b) && Readable(other, b) && FieldOf(line) == FieldOf(other)
    ensures Run(before + ([line] + after), p, b) == Run(before + ([other] + after), p, b)
  {
    var a, c := before + ([line] + after), before + ([other] + after);
    if before == [] {
      assert a == [line] + after && c == [other] + after;
      assert a[1..] == c[1..] == after;
    } else {
      assert a[0] == c[0] == before[0];
      assert a[1..] == before[1..] + ([line] + after) && c[1..] == before[1..] + ([other] + after);
      match Step(before[0], p, b)
      case Stop(_) =>
      case Complete => RunReplaced(before[1..], line, other, after, START, b);
      case Continue(q) => RunReplaced(before[1..], line, other, after, q, b);
    }
  }

  lemma LinesAround(before: Bytes, line: Bytes, after: Bytes)
    requires before == [] || EndsWith(before, LF)
    requires Terminated(line)
    ensures Lines(before + (line + after)) == Lines(before) + ([line] + Lines(after))
  {
    LinesAppend(before, line + after);
    TerminatedHead(line, after);
  }

  /** Lines that mean the same can stand for each other: the space after the colon of a data field is optional where the
      value does not start with one, only one space is taken off, and a bare name is a field with no value. */
  lemma SameMeaning(before: Bytes, line: Bytes, l: Written, other: Bytes, k: Written, after: Bytes, b: Bound)
    requires before == [] || EndsWith(before, LF)
    requires Terminated(line) && Readable(line, b) && Spells(line, l)
    requires Terminated(other) && Readable(other, b) && Spells(other, k)
    requires Meaning(l) == Meaning(k)
    ensures ParseStream(Lines(before + (line + after)), b) == ParseStream(Lines(before + (other + after)), b)
  {
    SpelledMeans(line, l);
    SpelledMeans(other, k);
    LinesAround(before, line, after);
    LinesAround(before, other, after);
    CallsAreOneFold(Lines(before + (line + after)), b);
    CallsAreOneFold(Lines(before + (other + after)), b);
    RunReplaced(Lines(before), line, other, Lines(after), START, b);
  }

  lemma DataIsSpelled(space: bool, value: Bytes, ending: Bytes)
    requires !EndsWith(value, CR) && !EndsWith(value, LF) && Ends(ending)
    requires space || value == [] || value[0] != SPACE
    ensures Spells(Text(Named(DATA, space, value)) + ending, Named(DATA, space, value))
  {
    var text := Text(Named(DATA, space, value));
    assert (text + ending)[|text|..] == ending;
    if value == [] {
      assert text[|text| - 1] == if space then SPACE else COLON;
    } else {
      assert text[|text| - 1] == value[|value| - 1];
    }
  }

  /** "data:" and "data: " before the same value, when it does not start with a space, give the same parse. */
  lemma SpaceIsOptional(before: Bytes, value: Bytes, ending: Bytes, after: Bytes, b: Bound)
    requires before == [] || EndsWith(before, LF)
    requires !EndsWith(value, CR) && !EndsWith(value, LF) && (value == [] || value[0] != SPACE) && Ends(ending)
    requires var line := DATA + [COLON] + value + ending; Terminated(line) && Readable(line, b)
    requires var line := DATA + [COLON] + [SPACE] + value + ending; Terminated(line) && Readable(line, b)
    ensures ParseStream(Lines(before + ((DATA + [COLON] + value + ending) + after)), b)
         == ParseStream(Lines(before + ((DATA + [COLON] + [SPACE] + value + ending) + after)), b)
  {
    DataIsSpelled(false, value, ending);
    DataIsSpelled(true, value, ending);
    assert DATA + [COLON] + [] + value == DATA + [COLON] + value;
    SameMeaning(before, DATA + [COLON] + value + ending, Named(DATA, false, value),
                DATA + [COLON] + [SPACE] + value + ending, Named(DATA, true, value), after, b);
  }

  // ---- A blank line cuts ----

  /** One parse after another, when the first comes to its end. */
  function Then(first: Parse, second: Parse): Parse {
    if first.end == Clean then Parse(first.events + second.events, second.end) else first
  }

  lemma EmitThen(data: Bytes, first: Parse, second: Parse)
    ensures Then(Emit(data, first), second) == Emit(data, Then(first, second))
  {
    AppendAssoc([data], first.events, second.events);
  }

  lemma {:induction false} RunCut(before: seq<Bytes>, blank: Bytes, after: seq<Bytes>, p: Progress, b: Bound)
    requires Readable(blank, b) && FieldOf(blank) == Blank
    requires p.count == 0 ==> p == START
    ensures Run(before + ([blank] + after), p, b) == Then(Run(before, p, b), Run(after, START, b))
  {
    var all, rest := before + ([blank] + after), Run(after, START, b);
    if before == [] {
      assert all == [blank] + after && all[1..] == after;
      assert [] + rest.events == rest.events;
    } else {
      assert all[0] == before[0] && all[1..] == before[1..] + ([blank] + after);
      match Step(before[0], p, b)
      case Stop(_) =>
      case Complete =>
        RunCut(before[1..], blank, after, START, b);
        EmitThen(p.data, Run(before[1..], START, b), rest);
      case Continue(q) => RunCut(before[1..], blank, after, q, b);
    }
  }

  /** A line of nothing but CRs before its LF ends the event in progress: what stands before it and what comes after are
      parsed each by itself. */
  lemma BlankLineCuts(before: Bytes, blank: Bytes, after: Bytes, b: Bound)
    requires before == [] || EndsWith(before, LF)
    requires Terminated(blank) && Readable(blank, b) && Ends(blank)
    ensures ParseStream(Lines(before + (blank + after)), b)
         == Then(ParseStream(Lines(before), b), ParseStream(Lines(after), b))
  {
    TrimTakesEnding([], blank);
    assert [] + blank == blank;
    LinesAround(before, blank, after);
    CallsAreOneFold(Lines(before + (blank + after)), b);
    CallsAreOneFold(Lines(before), b);
    CallsAreOneFold(Lines(after), b);
    RunCut(Lines(before), blank, Lines(after), START, b);
  }
}
