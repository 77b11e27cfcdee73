/** Encoding payloads as server-sent events, and what a reader gets back. */
module SseRoundTrip {
  import opened Bytes
  import opened Sequences
  import opened Utf8
  import opened SseSpec

  /** The text "data: ". */
  const PREFIX: Bytes := [100, 97, 116, 97, 58, 32]

  /** One data field a piece. */
  function DataLines(pieces: seq<Bytes>): seq<Bytes> {
    if pieces == [] then [] else [PREFIX + pieces[0] + [LF]] + DataLines(pieces[1..])
  }

  /** A payload on the wire: its LF-separated lines as data fields, and a blank line. */
  function EncodeEvent(payload: Bytes): seq<Bytes> {
    DataLines(Split(payload, LF)) + [[LF]]
  }

  function Encode(payloads: seq<Bytes>): seq<Bytes> {
    if payloads == [] then [] else EncodeEvent(payloads[0]) + Encode(payloads[1..])
  }

  function Wire(payloads: seq<Bytes>): Bytes {
    Flatten(Encode(payloads))
  }

  function Trimmed(pieces: seq<Bytes>): (r: seq<Bytes>)
    ensures |r| == |pieces|
    ensures forall i :: 0 <= i < |pieces| ==> r[i] == TrimEnd(pieces[i])
  {
    seq(|pieces|, i requires 0 <= i < |pieces| => TrimEnd(pieces[i]))
  }

  /** What comes back for a payload: the CRs at the end of each of its lines are lost. */
  function Recovered(payload: Bytes): Bytes {
    Join(Trimmed(Split(payload, LF)), LF)
  }

  /** The encoding of the payload and the payload itself stay within the limits. */
  ghost predicate Fits(payload: Bytes, b: Bound) {
    && b.FitsEvent(|Recovered(payload)|)
    && forall i :: 0 <= i < |Split(payload, LF)| ==> b.FitsLine(|PREFIX| + |Split(payload, LF)[i]| + 1)
  }

  // ---- One line ----

  lemma {:induction false} TrimAfterPrefix(piece: Bytes)
    ensures TrimEnd(PREFIX + piece) == PREFIX + TrimEnd(piece)
  {
    if EndsWith(piece, CR) || EndsWith(piece, LF) {
      TrimAfterPrefix(piece[..|piece| - 1]);
      assert (PREFIX + piece)[..|PREFIX + piece| - 1] == PREFIX + piece[..|piece| - 1];
    } else if piece == [] {
      assert PREFIX + piece == PREFIX;
    }
  }

  lemma DataLineField(piece: Bytes)
    ensures FieldOf(PREFIX + piece + [LF]) == Data(TrimEnd(piece))
  {
    var line := PREFIX + piece + [LF];
    assert line[..|line| - 1] == PREFIX + piece;
    TrimAfterPrefix(piece);
    var text := PREFIX + TrimEnd(piece);
    assert TrimEnd(line) == text;
    assert text[0] == 100 && text[1] == 97 && text[2] == 116 && text[3] == 97 && text[4] == COLON;
    assert FirstIndex(text, COLON) == 4;
    assert text[..4] == DATA;
    assert text[5..][0] == SPACE && text[5..][1..] == TrimEnd(piece);
  }

  lemma {:induction false} AsciiIsUtf8(s: Bytes)
    requires forall i :: 0 <= i < |s| ==> s[i] < 0x80
    ensures IsUtf8(s)
  {
    if s != [] {
      AsciiIsUtf8(s[1..]);
    }
  }

  lemma {:induction false} PiecesAreUtf8(s: Bytes)
    requires IsUtf8(s)
    ensures forall i :: 0 <= i < |Split(s, LF)| ==> IsUtf8(Split(s, LF)[i])
    decreases |s|
  {
    var i := FirstIndex(s, LF);
    if i < |s| {
      assert s == s[..i] + [LF] + s[i + 1..];
      Utf8CutAtAscii(s[..i], LF, s[i + 1..]);
      PiecesAreUtf8(s[i + 1..]);
    }
  }

  lemma DataLineIsUtf8(piece: Bytes)
    requires IsUtf8(piece)
    ensures IsUtf8(PREFIX + piece + [LF])
  {
    PrefixIsUtf8();
    Utf8Append(PREFIX, piece);
    Utf8Append(PREFIX + piece, [LF]);
  }

  lemma PrefixIsUtf8()
    ensures IsUtf8(PREFIX) && IsUtf8([LF])
  {
    AsciiIsUtf8(PREFIX);
    AsciiIsUtf8([LF]);
  }

  // ---- One event ----

  lemma {:induction false} JoinGrows(a: seq<Bytes>, c: seq<Bytes>)
    ensures |Join(a, LF)| <= |Join(a + c, LF)|
    decreases |c|
  {
    if c == [] {
      assert a + c == a;
    } else {
      JoinSnoc(a, c[0], LF);
      JoinGrows(a + [c[0]], c[1..]);
      assert a + c == a + [c[0]] + c[1..];
    }
  }

  lemma RunDataLine(piece: Bytes, rest: seq<Bytes>, p: Progress, b: Bound)
    requires IsUtf8(piece) && b.FitsLine(|PREFIX| + |piece| + 1)
    requires b.FitsEvent(|Extend(p, TrimEnd(piece)).data|)
    ensures Run([PREFIX + piece + [LF]] + rest, p, b) == Run(rest, Extend(p, TrimEnd(piece)), b)
  {
    DataLineIsUtf8(piece);
    DataLineField(piece);
    assert ([PREFIX + piece + [LF]] + rest)[1..] == rest;
  }

  lemma RunBlankLine(rest: seq<Bytes>, p: Progress, b: Bound)
    requires b.FitsLine(1) && p.count > 0
    ensures Run([[LF]] + rest, p, b) == Emit(p.data, Run(rest, START, b))
  {
    AsciiIsUtf8([LF]);
    assert TrimEnd([LF]) == [];
    assert ([[LF]] + rest)[1..] == rest;
  }

  /** What remains of the event after its next data field. */
  lemma NextPiece(piece: Bytes, pieces: seq<Bytes>, done: seq<Bytes>)
    ensures var next := done + [TrimEnd(piece)];
      && Extend(Progress(|done|, Join(done, LF)), TrimEnd(piece)) == Progress(|next|, Join(next, LF))
      && done + Trimmed([piece] + pieces) == next + Trimmed(pieces)
      && |Join(next, LF)| <= |Join(next + Trimmed(pieces), LF)|
  {
    var next := done + [TrimEnd(piece)];
    assert Extend(Progress(|done|, Join(done, LF)), TrimEnd(piece)) == Progress(|next|, Join(next, LF)) by {
      JoinSnoc(done, TrimEnd(piece), LF);
    }
    TrimmedNext(piece, pieces, done);
    JoinGrows(next, Trimmed(pieces));
  }

  lemma TrimmedNext(piece: Bytes, pieces: seq<Bytes>, done: seq<Bytes>)
    ensures done + Trimmed([piece] + pieces) == (done + [TrimEnd(piece)]) + Trimmed(pieces)
  {
    assert Trimmed([piece] + pieces) == [TrimEnd(piece)] + Trimmed(pieces);
  }

  /** The data fields of an event build up its joined data, and the blank line emits it. */
  lemma {:induction false} RunDataLines(pieces: seq<Bytes>, done: seq<Bytes>, tail: seq<Bytes>, b: Bound)
    requires pieces != [] || done != []
    requires forall i :: 0 <= i < |pieces| ==> IsUtf8(pieces[i]) && b.FitsLine(|PREFIX| + |pieces[i]| + 1)
    requires b.FitsLine(1)
    requires b.FitsEvent(|Join(done + Trimmed(pieces), LF)|)
    ensures Run(DataLines(pieces) + ([[LF]] + tail), Progress(|done|, Join(done, LF)), b)
         == Emit(Join(done + Trimmed(pieces), LF), Run(tail, START, b))
    decreases |pieces|
  {
    var p := Progress(|done|, Join(done, LF));
    if pieces == [] {
      assert DataLines(pieces) + ([[LF]] + tail) == [[LF]] + tail;
      assert done + Trimmed(pieces) == done;
      RunBlankLine(tail, p, b);
    } else {
      NextPiece(pieces[0], pieces[1..], done);
      assert pieces == [pieces[0]] + pieces[1..];
      AppendAssoc([PREFIX + pieces[0] + [LF]], DataLines(pieces[1..]), [[LF]] + tail);
      RunDataLine(pieces[0], DataLines(pieces[1..]) + ([[LF]] + tail), p, b);
      RunDataLines(pieces[1..], done + [TrimEnd(pieces[0])], tail, b);
    }
  }

  lemma RunEncodedEvent(payload: Bytes, tail: seq<Bytes>, b: Bound)
    requires IsUtf8(payload) && Fits(payload, b)
    ensures Run(EncodeEvent(payload) + tail, START, b) == Emit(Recovered(payload), Run(tail, START, b))
  {
    var pieces := Split(payload, LF);
    PiecesAreUtf8(payload);
    assert b.FitsLine(|PREFIX| + |pieces[0]| + 1);
    assert [] + Trimmed(pieces) == Trimmed(pieces);
    AppendAssoc(DataLines(pieces), [[LF]], tail);
    RunDataLines(pieces, [], tail, b);
  }

  // ---- The stream ----

  lemma {:induction false} DataLinesTerminated(pieces: seq<Bytes>)
    requires forall i :: 0 <= i < |pieces| ==> Absent(pieces[i], LF, |pieces[i]|)
    ensures forall i :: 0 <= i < |DataLines(pieces)| ==> Terminated(DataLines(pieces)[i])
  {
    if pieces != [] {
      DataLinesTerminated(pieces[1..]);
      var line := PREFIX + pieces[0] + [LF];
      assert Absent(line, LF, |line| - 1);
    }
  }

  lemma {:induction false} EncodeTerminated(payloads: seq<Bytes>)
    ensures forall i :: 0 <= i < |Encode(payloads)| ==> Terminated(Encode(payloads)[i])
  {
    if payloads != [] {
      DataLinesTerminated(Split(payloads[0], LF));
      EncodeTerminated(payloads[1..]);
    }
  }

  function AllRecovered(payloads: seq<Bytes>): (r: seq<Bytes>)
    ensures |r| == |payloads|
    ensures forall i :: 0 <= i < |payloads| ==> r[i] == Recovered(payloads[i])
  {
    if payloads == [] then [] else [Recovered(payloads[0])] + AllRecovered(payloads[1..])
  }

  lemma {:induction false} RunEncoded(payloads: seq<Bytes>, b: Bound)
    requires forall i :: 0 <= i < |payloads| ==> IsUtf8(payloads[i]) && Fits(payloads[i], b)
    ensures Run(Encode(payloads), START, b) == Parse(AllRecovered(payloads), Clean)
  {
    if payloads != [] {
      RunEncodedEvent(payloads[0], Encode(payloads[1..]), b);
      RunEncoded(payloads[1..], b);
    }
  }

  /** Every encoded sequence is read back, up to the CRs at the ends of its lines. */
  lemma ReadBack(payloads: seq<Bytes>, b: Bound)
    requires forall i :: 0 <= i < |payloads| ==> IsUtf8(payloads[i]) && Fits(payloads[i], b)
    ensures ParseStream(Lines(Wire(payloads)), b) == Parse(AllRecovered(payloads), Clean)
  {
    EncodeTerminated(payloads);
    LinesOfFlatten(Encode(payloads));
    CallsAreOneFold(Encode(payloads), b);
    RunEncoded(payloads, b);
  }

  /** No line of the payload ends in CR. */
  ghost predicate NoTrailingCr(payload: Bytes) {
    forall i :: 0 <= i < |Split(payload, LF)| ==> !EndsWith(Split(payload, LF)[i], CR)
  }

  lemma RecoveredIff(payload: Bytes)
    ensures Recovered(payload) == payload <==> NoTrailingCr(payload)
  {
    var pieces := Split(payload, LF);
    JoinSplit(payload, LF);
    if NoTrailingCr(payload) {
      forall i | 0 <= i < |pieces|
        ensures TrimEnd(pieces[i]) == pieces[i]
      {
        assert !EndsWith(pieces[i], LF);
      }
      assert Trimmed(pieces) == pieces;
    } else {
      var i :| 0 <= i < |pieces| && EndsWith(pieces[i], CR);
      SplitJoin(Trimmed(pieces), LF);
      assert Trimmed(pieces)[i] != pieces[i];
    }
  }

  /** The round trip is exact for precisely the payloads without a CR at the end of a line. */
  lemma RoundTrip(payloads: seq<Bytes>, b: Bound)
    requires forall i :: 0 <= i < |payloads| ==> IsUtf8(payloads[i]) && Fits(payloads[i], b)
    ensures ParseStream(Lines(Wire(payloads)), b) == Parse(payloads, Clean)
      <==> forall i :: 0 <= i < |payloads| ==> NoTrailingCr(payloads[i])
  {
    ReadBack(payloads, b);
    forall i | 0 <= i < |payloads|
      ensures AllRecovered(payloads)[i] == payloads[i] <==> NoTrailingCr(payloads[i])
    {
      RecoveredIff(payloads[i]);
    }
  }
}
