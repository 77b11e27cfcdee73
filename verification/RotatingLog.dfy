/** The size-rotated log of the peer's lines (stdout_log.rs). */
module RotatingLog {
  import opened Basics
  import opened Bytes
  import opened Sequences
  import opened Segments

  /** The directory entries that matter: the log file itself and the names of its segments.
      Nobody else touches them, and file-system calls do not fail. */
  class Directory {
    var live: Option<Bytes>
    var segments: Table

    constructor (live: Option<Bytes>, segments: Table)
      ensures this.live == live && this.segments == segments
    {
      this.live, this.segments := live, segments;
    }

    /** Opens the log file for appending, creating it when it is missing. */
    method OpenAppend()
      modifies this`live
      ensures live == Some(old(LiveBytes()))
    {
      if live.None? {
        live := Some([]);
      }
    }

    function LiveBytes(): Bytes
      reads this`live
    {
      if live.Some? then live.value else []
    }

    /** Everything in the log: its parts in index order, then the live file. */
    ghost function Contents(): Bytes
      reads this
    {
      Concat(segments, END) + LiveBytes()
    }
  }

  /** The number after the highest part, as far as numbers go. */
  method NextRotatingLogPart(dir: Directory) returns (next: u32)
    ensures 1 <= next && Numbered(dir.segments, next)
    ensures next == 1 || next - 1 in Parts(dir.segments) || (next == MAX_PART && MAX_PART in Parts(dir.segments))
  {
    var todo := dir.segments.Keys;
    var maxPart: u32 := 0;
    while todo != {}
      invariant todo <= dir.segments.Keys
      invariant forall p :: p in Parts(dir.segments) && p !in todo ==> p <= maxPart
      invariant maxPart == 0 || maxPart in Parts(dir.segments)
      decreases |todo|
    {
      var p :| p in todo;
      todo := todo - {p};
      if dir.segments[p].File? && p > maxPart {
        maxPart := p;
      }
    }
    next := if maxPart < MAX_PART then maxPart + 1 else MAX_PART;
  }

  /** Renames the live file to the first free segment name; exhausted when there is none. */
  method RotateLogFile(dir: Directory, first: u32) returns (next: Option<u32>)
    modifies dir
    ensures var p := FirstFree(old(dir.segments), first);
      if p == -1 then
        next == None && dir.live == old(dir.live) && dir.segments == old(dir.segments)
      else if old(dir.live).None? then
        next == Some(p) && dir.live == None && dir.segments == old(dir.segments)
      else
        && next == Some(if p < MAX_PART then p + 1 else p)
        && dir.live == None
        && dir.segments == old(dir.segments)[p := File(old(dir.live).value)]
  {
    var part: u32 := first;
    while part in dir.segments
      invariant FirstFree(dir.segments, part) == FirstFree(dir.segments, first)
      decreases MAX_PART - part
    {
      if part == MAX_PART {
        return None;
      }
      part := part + 1;
    }
    if dir.live.None? {
      return Some(part);
    }
    dir.segments := dir.segments[part := File(dir.live.value)];
    dir.live := None;
    return Some(if part < MAX_PART then part + 1 else part);
  }

  /** The indices of the regular files, lowest first. */
  method ListSortedParts(dir: Directory) returns (parts: seq<u32>)
    ensures Ascending(parts)
    ensures forall p :: p in parts <==> p in Parts(dir.segments)
    ensures |parts| == |Parts(dir.segments)|
  {
    var todo := Parts(dir.segments);
    parts := [];
    while todo != {}
      invariant todo <= Parts(dir.segments)
      invariant Ascending(parts)
      invariant forall p :: p in parts <==> p in Parts(dir.segments) - todo
      invariant forall i, q :: 0 <= i < |parts| && q in todo ==> parts[i] < q
      invariant |parts| + |todo| == |Parts(dir.segments)|
      decreases |todo|
    {
      var least := Least(todo);
      parts := parts + [least];
      todo := todo - {least};
    }
  }

  method Least(s: set<u32>) returns (m: u32)
    requires s != {}
    ensures m in s && forall p :: p in s ==> m <= p
  {
    m :| m in s;
    var todo := s - {m};
    while todo != {}
      invariant todo <= s && m in s
      invariant forall p :: p in s && p !in todo ==> m <= p
      decreases |todo|
    {
      var p :| p in todo;
      todo := todo - {p};
      if p < m {
        m := p;
      }
    }
  }

  /** Removes the lowest parts until no more than maxParts are left; a limit of 0 is none. */
  method PruneRotatingLogParts(dir: Directory, maxParts: u32)
    modifies dir`segments
    ensures PrunedTo(old(dir.segments), dir.segments, if maxParts == 0 then None else Some(maxParts))
  {
    if maxParts == 0 {
      return;
    }
    var parts := ListSortedParts(dir);
    if |parts| <= maxParts {
      return;
    }
    var remove := |parts| - maxParts;
    ghost var t := dir.segments;
    var i := 0;
    forall q | q in Parts(t)
      ensures parts[0] <= q
    {
      var k :| 0 <= k < |parts| && parts[k] == q;
    }
    assert t == Above(t, parts[0]) by {
      assert forall q: u32 :: q in t && t[q].File? ==> q in Parts(t);
    }
    while i < remove
      invariant 0 <= i <= remove
      invariant dir.segments == Above(t, parts[i])
      invariant |Parts(dir.segments)| == |parts| - i
    {
      forall q | q in Parts(t) && parts[i] < q
        ensures parts[i + 1] <= q
      {
        var k :| 0 <= k < |parts| && parts[k] == q;
      }
      RemoveLowest(t, parts[i], parts[i + 1]);
      dir.segments := dir.segments - {parts[i]};
      i := i + 1;
    }
    AboveRemains(t, parts[remove]);
  }

  /** A line as the log holds it: with an LF at its end. */
  function Ended(line: Bytes): (r: Bytes)
    ensures EndsWith(r, LF) && line <= r && |r| <= |line| + 1
    ensures r == line <==> EndsWith(line, LF)
  {
    if EndsWith(line, LF) then line else line + [LF]
  }

  function AllEnded(lines: seq<Bytes>): Bytes {
    if lines == [] then [] else Ended(lines[0]) + AllEnded(lines[1..])
  }

  class LogState {
    const dir: Directory
    const maxBytesPerPart: u64
    const maxParts: Option<u32>
    var currentLen: u64
    var nextPart: u32

    ghost var history: Bytes
    ghost var openedLen: nat
    ghost var openedParts: nat
    ghost var rotated: seq<u32>

    /** The log as a value. */
    ghost function Model(): Log
      reads this, dir
    {
      Log(dir.segments, dir.LiveBytes(), maxBytesPerPart, maxParts, nextPart, history, openedLen, openedParts, rotated)
    }

    /** The tracked length is the true one, and the log is sound. */
    ghost predicate Valid()
      reads this, dir
    {
      dir.live.Some? && currentLen == |dir.live.value| && Model().Sound()
    }

    constructor (dir: Directory, maxBytes: u64, maxParts: Option<u32>)
      requires |dir.LiveBytes()| <= 0xFFFF_FFFF_FFFF_FFFF
      modifies dir
      ensures Valid()
      ensures this.dir == dir
      ensures maxBytesPerPart == if maxBytes == 0 then 1 else maxBytes
      ensures this.maxParts == if maxParts == Some(0) then None else maxParts
      ensures history == old(dir.Contents()) && rotated == []
      ensures openedLen == |old(dir.LiveBytes())| && openedParts == |Parts(old(dir.segments))|
      ensures dir.LiveBytes() == old(dir.LiveBytes())
      ensures PrunedTo(old(dir.segments), dir.segments, this.maxParts)
    {
      var limit := if maxParts == Some(0) then None else maxParts;
      this.dir := dir;
      this.maxBytesPerPart := if maxBytes == 0 then 1 else maxBytes;
      this.maxParts := limit;
      this.history := dir.Contents();
      this.openedLen := |dir.LiveBytes()|;
      this.openedParts := |Parts(dir.segments)|;
      this.rotated := [];
      dir.OpenAppend();
      this.currentLen := |dir.live.value|;
      var next := NextRotatingLogPart(dir);
      this.nextPart := next;
      new;
      ghost var asOpened := Model();
      Prune();
      PruneKeeps(asOpened, dir.segments);
    }

    /** Removes the parts that are too many, if there is a limit. */
    method Prune()
      requires maxParts != Some(0)
      modifies dir`segments
      ensures PrunedTo(old(dir.segments), dir.segments, maxParts)
    {
      if maxParts.Some? {
        PruneRotatingLogParts(dir, maxParts.value);
      }
    }

    /** Moves the live file to the first free segment. */
    method Turn() returns (ok: bool)
      requires dir.live.Some?
      modifies this`nextPart, this`rotated, dir
      ensures var before := old(Model());
        var p := FirstFree(before.table, before.nextPart);
        && (ok <==> p != -1)
        && (ok ==> Model() == before.Rotate(p) && dir.live.None?)
        && (!ok ==> Model() == before && dir.live == old(dir.live))
    {
      ghost var p := FirstFree(dir.segments, nextPart);
      var next := RotateLogFile(dir, nextPart);
      if next.None? {
        return false;
      }
      nextPart := next.value;
      rotated := rotated + [p];
      return true;
    }

    /** Moves the full live file to the first free segment and starts an empty one. */
    method Rotate() returns (ok: bool)
      requires Valid() && currentLen >= maxBytesPerPart
      modifies this, dir
      ensures Valid()
      ensures Rotated(old(Model()), Model(), ok)
    {
      ghost var before := Model();
      ok := Turn();
      if ok {
        RotateCounts(before);
        Prune();
        dir.OpenAppend();
        currentLen := 0;
        RotationKeeps(before, Model());
      }
    }

    /** Puts bytes that fit at the end of the live file. */
    method Append(bytes: Bytes)
      requires Valid() && currentLen + |bytes| <= maxBytesPerPart
      modifies this, dir`live
      ensures Valid()
      ensures Model() == old(Model()).Append(bytes)
    {
      AppendSound(Model(), bytes);
      dir.live := Some(dir.live.value + bytes);
      currentLen := currentLen + |bytes|;
      history := history + bytes;
    }

    /** It is the same log, with the same rotations so far and perhaps more. */
    twostate predicate GoesOn()
      reads this
    {
      openedLen == old(openedLen) && openedParts == old(openedParts) && old(rotated) <= rotated
    }

    /** No segment name is left to rotate to. */
    ghost predicate Exhausted()
      reads this, dir
    {
      forall p: u32 :: nextPart <= p ==> p in dir.segments
    }

    /** Appends bytes, cutting them over as many parts as they need. */
    method WriteBytesWithRotation(bytes: Bytes) returns (ok: bool, ghost unwritten: Bytes)
      requires Valid()
      modifies this, dir
      ensures Valid()
      ensures history + unwritten == old(history) + bytes && GoesOn()
      ensures if ok then unwritten == [] else unwritten != [] && Exhausted()
      ensures |unwritten| <= |bytes|
    {
      var rest := bytes;
      while rest != []
        invariant Valid()
        invariant history + rest == old(history) + bytes && GoesOn()
        invariant |rest| <= |bytes|
        decreases |rest|, currentLen
      {
        var remaining := if maxBytesPerPart > currentLen then maxBytesPerPart - currentLen else 0;
        if remaining == 0 {
          var rotatedNow := Rotate();
          if !rotatedNow {
            return false, rest;
          }
        } else {
          var take := if remaining < |rest| then remaining else |rest|;
          CutAppend(history, rest, take);
          Append(rest[..take]);
          rest := rest[take..];
        }
      }
      return true, [];
    }

    /** Logs one line, with an LF added only when it has none. */
    method WriteLineBytes(line: Bytes) returns (ok: bool, ghost unwritten: Bytes)
      requires Valid()
      modifies this, dir
      ensures Valid()
      ensures history + unwritten == old(history) + Ended(line) && GoesOn()
      ensures if ok then unwritten == [] else unwritten != [] && Exhausted()
      ensures |unwritten| <= |Ended(line)|
    {
      ghost var start := history;
      ok, unwritten := WriteBytesWithRotation(line);
      if !EndsWith(line, LF) {
        AppendAssoc(start, line, [LF]);
        AppendAssoc(history, unwritten, [LF]);
        if ok {
          ok, unwritten := WriteBytesWithRotation([LF]);
        } else {
          unwritten := unwritten + [LF];
        }
      }
    }

    /** No more parts were made than may be kept. */
    ghost predicate WithinLimit()
      reads this
    {
      maxParts.None? || openedParts + |rotated| <= maxParts.value
    }

    /** Until there are more parts than may be kept everything ever logged is still there. */
    lemma AllIsKept()
      requires Valid()
      ensures WithinLimit() ==> dir.Contents() == history
    {
    }

    /** Logs lines one by one; after the first failure no more are logged. */
    method WriteEach(lines: seq<Bytes>) returns (ok: bool, ghost unwritten: Bytes)
      requires Valid()
      modifies this, dir
      ensures Valid()
      ensures history + unwritten == old(history) + AllEnded(lines) && GoesOn()
      ensures if ok then unwritten == [] else unwritten != [] && Exhausted()
    {
      ghost var goal := history + AllEnded(lines);
      ok, unwritten := true, [];
      var i := 0;
      while ok && i < |lines|
        invariant 0 <= i <= |lines|
        invariant Valid() && GoesOn()
        invariant history + (unwritten + AllEnded(lines[i..])) == goal
        invariant if ok then unwritten == [] else unwritten != [] && Exhausted()
      {
        ghost var before := history;
        assert [] + AllEnded(lines[i..]) == AllEnded(lines[i..]);
        ok, unwritten := WriteLineBytes(lines[i]);
        OneLineDone(before, lines, i, history, unwritten);
        i := i + 1;
      }
      unwritten := unwritten + AllEnded(lines[i..]);
    }

    /** Logs the lines of a session. Until more parts were made than may be kept, everything is there in order; and
        there are always as many parts as were made, up to the limit. */
    method WriteLines(lines: seq<Bytes>) returns (ok: bool, ghost unwritten: Bytes)
      requires Valid()
      modifies this, dir
      ensures Valid()
      ensures history + unwritten == old(history) + AllEnded(lines) && GoesOn()
      ensures if ok then unwritten == [] else unwritten != [] && Exhausted()
      ensures WithinLimit() ==> dir.Contents() + unwritten == old(dir.Contents()) + AllEnded(lines)
      ensures WithinLimit() ==> |Parts(dir.segments)| == openedParts + |rotated|
      ensures !WithinLimit() ==> |Parts(dir.segments)| == maxParts.value
    {
      AllIsKept();
      ok, unwritten := WriteEach(lines);
      AllIsKept();
    }
  }

  /** A session that was logged can be read back line by line. */
  lemma {:induction false} LogReadsBack(lines: seq<Bytes>)
    requires forall i :: 0 <= i < |lines| ==> Absent(lines[i], LF, |lines[i]| - 1)
    ensures |Lines(AllEnded(lines))| == |lines|
    ensures forall i :: 0 <= i < |lines| ==> Lines(AllEnded(lines))[i] == Ended(lines[i])
  {
    if lines != [] {
      var rest := Lines(AllEnded(lines[1..]));
      LogReadsBack(lines[1..]);
      EndedIsLine(lines[0]);
      TerminatedHead(Ended(lines[0]), AllEnded(lines[1..]));
      assert forall i :: 0 < i < |lines| ==>
        ([Ended(lines[0])] + rest)[i] == rest[i - 1] && lines[1..][i - 1] == lines[i];
    }
  }

  lemma EndedIsLine(line: Bytes)
    requires Absent(line, LF, |line| - 1)
    ensures Terminated(Ended(line))
  {
    assert Ended(line) == line || Ended(line) == line + [LF];
  }

  /** After line i, what is neither in the log nor yet to come was left unwritten. */
  lemma OneLineDone(before: Bytes, lines: seq<Bytes>, i: nat, after: Bytes, unwritten: Bytes)
    requires i < |lines| && after + unwritten == before + Ended(lines[i])
    ensures after + (unwritten + AllEnded(lines[i + 1..])) == before + AllEnded(lines[i..])
  {
    assert lines[i..][1..] == lines[i + 1..];
    AppendAssoc(before, Ended(lines[i]), AllEnded(lines[i + 1..]));
    AppendAssoc(after, unwritten, AllEnded(lines[i + 1..]));
  }

  lemma CutAppend(a: Bytes, rest: Bytes, take: nat)
    requires take <= |rest|
    ensures (a + rest[..take]) + rest[take..] == a + rest
  {
  }
}
