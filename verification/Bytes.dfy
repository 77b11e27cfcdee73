/** Byte strings, and how a byte stream splits into lines after each LF. */
module Bytes {
  import opened Sequences

  type Byte = b: int | 0 <= b < 256

  type Bytes = seq<Byte>

  const LF: Byte := 10
  const CR: Byte := 13
  const SPACE: Byte := 32
  const COLON: Byte := 58

  /** Length of the first line of s, counting its LF when it has one. */
  function LineLength(s: Bytes): (n: nat)
    ensures n <= |s|
    ensures s != [] ==> 0 < n
  {
    var i := FirstIndex(s, LF);
    if i < |s| then i + 1 else i
  }

  function FirstLine(s: Bytes): (line: Bytes)
    ensures |line| == LineLength(s)
    ensures line <= s
  {
    s[..LineLength(s)]
  }

  /** The lines of s, each with the LF that ends it; only the last may lack one. */
  function Lines(s: Bytes): (lines: seq<Bytes>)
    decreases |s|
  {
    if s == [] then [] else [FirstLine(s)] + Lines(s[LineLength(s)..])
  }

  /** A line proper: an LF in the last place and nowhere else. */
  predicate Terminated(line: Bytes) {
    EndsWith(line, LF) && Absent(line, LF, |line| - 1)
  }

  lemma TerminatedFirst(line: Bytes, rest: Bytes)
    requires Terminated(line)
    ensures FirstLine(line + rest) == line
    ensures LineLength(line + rest) == |line|
    ensures (line + rest)[|line|..] == rest
  {
    assert (line + rest)[|line| - 1] == LF;
    assert Absent(line + rest, LF, |line| - 1);
  }

  lemma TerminatedHead(line: Bytes, rest: Bytes)
    requires Terminated(line)
    ensures Lines(line + rest) == [line] + Lines(rest)
  {
    TerminatedFirst(line, rest);
  }

  /** The first line is a line proper unless it is the whole unterminated stream. */
  lemma FirstLineShape(s: Bytes)
    requires s != []
    ensures s == FirstLine(s) + s[LineLength(s)..]
    ensures Absent(FirstLine(s), LF, LineLength(s) - 1)
    ensures Terminated(FirstLine(s)) || (LineLength(s) == |s| && Absent(s, LF, |s|))
  {
  }

  lemma UnterminatedLine(s: Bytes)
    requires Absent(s, LF, |s|)
    ensures FirstLine(s) == s && LineLength(s) == |s| && s[|s|..] == []
  {
  }

  /** What is read of a line before its end is no longer than the line. */
  lemma PrefixOfLine(s: Bytes, p: Bytes)
    requires p <= s && Absent(p, LF, |p| - 1)
    ensures |p| <= LineLength(s)
  {
    assert forall k :: 0 <= k < |p| ==> s[k] == p[k];
  }

  /** Lines partitions the stream. */
  lemma {:induction false} LinesPartition(s: Bytes)
    ensures Flatten(Lines(s)) == s
    decreases |s|
  {
    if s != [] {
      FirstLineShape(s);
      LinesPartition(s[LineLength(s)..]);
    }
  }

  /** An LF occurs at most in the last place of a raw line. */
  predicate RawLine(line: Bytes) {
    line != [] && Absent(line, LF, |line| - 1)
  }

  lemma {:induction false} LinesShape(s: Bytes)
    ensures forall i :: 0 <= i < |Lines(s)| ==> RawLine(Lines(s)[i])
    ensures forall i :: 0 <= i < |Lines(s)| - 1 ==> Terminated(Lines(s)[i])
    decreases |s|
  {
    if s != [] {
      FirstLineShape(s);
      LinesShape(s[LineLength(s)..]);
    }
  }

  /** One more piece of a line whose beginning is held in buf. */
  lemma ExtendLine(s: Bytes, buf: Bytes, rest: Bytes, take: nat)
    requires s == buf + rest && Absent(buf, LF, |buf|)
    requires 0 < take <= |rest| && Absent(rest, LF, take - 1)
    ensures s == (buf + rest[..take]) + rest[take..]
    ensures Absent(buf + rest[..take], LF, |buf| + take - 1)
    ensures EndsWith(buf + rest[..take], LF) <==> rest[take - 1] == LF
    ensures rest[take - 1] == LF ==> FirstLine(s) == buf + rest[..take] && s[LineLength(s)..] == rest[take..]
  {
    var p := buf + rest[..take];
    assert p[|p| - 1] == rest[take - 1];
    if rest[take - 1] == LF {
      TerminatedFirst(p, rest[take..]);
    }
  }

  /** What the next piece of a chunk, up to and including its first LF, adds to a line begun in buf. */
  lemma ExtendByChunk(s: Bytes, buf: Bytes, rest: Bytes, chunk: Bytes, take: nat)
    requires s == buf + rest && Absent(buf, LF, |buf|) && chunk != [] && chunk <= rest
    requires take == if FirstIndex(chunk, LF) < |chunk| then FirstIndex(chunk, LF) + 1 else |chunk|
    ensures var line := buf + chunk[..take];
      && 0 < take && s == line + rest[take..] && line <= s && Absent(line, LF, |line| - 1)
      && (EndsWith(line, LF) <==> FirstIndex(chunk, LF) < |chunk|)
      && (FirstIndex(chunk, LF) < |chunk| ==> FirstLine(s) == line && s[LineLength(s)..] == rest[take..])
      && (FirstIndex(chunk, LF) == |chunk| ==> Absent(line, LF, |line|))
  {
    assert chunk[..take] == rest[..take];
    assert forall k :: 0 <= k < take - 1 ==> rest[k] == chunk[k] != LF;
    assert rest[take - 1] == chunk[take - 1];
    ExtendLine(s, buf, rest, take);
  }

  lemma LinesAppendStep(line: Bytes, rest: Bytes, b: Bytes)
    requires Terminated(line) && Lines(rest + b) == Lines(rest) + Lines(b)
    ensures Lines((line + rest) + b) == Lines(line + rest) + Lines(b)
  {
    AppendAssoc(line, rest, b);
    TerminatedHead(line, rest + b);
    TerminatedHead(line, rest);
    AppendAssoc([line], Lines(rest), Lines(b));
  }

  /** Splitting is compositional at any point that follows an LF. */
  lemma {:induction false} LinesAppend(a: Bytes, b: Bytes)
    requires a == [] || EndsWith(a, LF)
    ensures Lines(a + b) == Lines(a) + Lines(b)
    decreases |a|
  {
    if a == [] {
      assert a + b == b;
    } else {
      FirstLineShape(a);
      var line, rest := FirstLine(a), a[LineLength(a)..];
      LinesAppend(rest, b);
      LinesAppendStep(line, rest, b);
    }
  }

  /** A sequence of terminated lines is its own split. */
  lemma {:induction false} LinesOfFlatten(ls: seq<Bytes>)
    requires forall i :: 0 <= i < |ls| ==> Terminated(ls[i])
    ensures Lines(Flatten(ls)) == ls
  {
    if ls != [] {
      TerminatedHead(ls[0], Flatten(ls[1..]));
      LinesOfFlatten(ls[1..]);
    }
  }
}
