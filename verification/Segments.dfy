/** The numbered segments of a rotating log, as values: order, contents, numbering, pruning. */
module Segments {
  import opened Basics
  import opened Bytes
  import opened Sequences

  const MAX_PART: u32 := 0xFFFF_FFFF
  const END: nat := 0x1_0000_0000

  /** What stands under a segment name; only regular files belong to the log. */
  datatype Entry = File(bytes: Bytes) | Other

  type Table = map<u32, Entry>

  /** The indices of the regular files. */
  function Parts(t: Table): set<u32> {
    set p | p in t && t[p].File? :: p
  }

  /** What a part holds, or nothing where there is none. */
  function BytesOf(t: Table, p: u32): Bytes {
    if p in t && t[p].File? then t[p].bytes else []
  }

  /** The bytes of all parts with an index below n, in index order. */
  function Concat(t: Table, n: nat): Bytes
    requires n <= END
  {
    if n == 0 then []
    else Concat(t, n - 1) + BytesOf(t, n - 1)
  }

  ghost predicate IsSuffix(s: Bytes, whole: Bytes) {
    |s| <= |whole| && whole[|whole| - |s|..] == s
  }

  lemma SuffixGrows(s: Bytes, whole: Bytes, more: Bytes)
    requires IsSuffix(s, whole)
    ensures IsSuffix(s + more, whole + more)
  {
  }

  lemma SuffixOfSuffix(a: Bytes, b: Bytes, c: Bytes)
    requires IsSuffix(a, b) && IsSuffix(b, c)
    ensures IsSuffix(a, c)
  {
    assert a == b[|b| - |a|..] == c[|c| - |b|..][|b| - |a|..];
  }

  // ---- Adding a part after all others ----

  lemma {:induction false} ConcatFrame(t: Table, u: Table, n: nat)
    requires n <= END
    requires forall p: u32 :: p < n ==> (p in t && t[p].File? <==> p in u && u[p].File?)
    requires forall p: u32 :: p < n && p in t && t[p].File? ==> t[p] == u[p]
    ensures Concat(t, n) == Concat(u, n)
  {
    if n > 0 {
      ConcatFrame(t, u, n - 1);
    }
  }

  lemma {:induction false} ConcatBeyond(t: Table, from: nat, n: nat)
    requires from <= n <= END
    requires forall p: u32 :: from <= p < n ==> !(p in t && t[p].File?)
    ensures Concat(t, n) == Concat(t, from)
  {
    if from < n {
      ConcatBeyond(t, from, n - 1);
    }
  }

  /** A part numbered above every other one comes last in the log. */
  lemma AddLastPart(t: Table, p: u32, bytes: Bytes)
    requires p !in t
    requires forall q :: q in Parts(t) ==> q < p
    ensures Concat(t[p := File(bytes)], END) == Concat(t, END) + bytes
  {
    var u := t[p := File(bytes)];
    assert forall q: u32 :: p < q && q in u && u[q].File? ==> q in Parts(t);
    assert forall q: u32 :: p <= q && q in t && t[q].File? ==> q in Parts(t);
    ConcatFrame(t, u, p);
    ConcatBeyond(u, p + 1, END);
    ConcatBeyond(t, p, END);
  }

  // ---- Numbering ----

  /** The least index at or above part that no entry occupies. */
  function FirstFree(t: Table, part: u32): (r: int)
    ensures r == -1 || (part <= r <= MAX_PART && r !in t)
    ensures forall q: u32 :: part <= q && (r == -1 || q < r) ==> q in t
    decreases MAX_PART - part
  {
    if part !in t then part else if part == MAX_PART then -1 else FirstFree(t, part + 1)
  }

  /** Every part is below next, except that the last index of all may be taken. */
  ghost predicate Numbered(t: Table, next: u32) {
    forall p :: p in Parts(t) ==> p < next || (p == next == MAX_PART)
  }

  /** Rotation at or above next puts a part above all others, and keeps the numbering. */
  lemma RotationIsLast(t: Table, next: u32, bytes: Bytes)
    requires Numbered(t, next) && FirstFree(t, next) != -1
    ensures var p := FirstFree(t, next);
      && (forall q :: q in Parts(t) ==> q < p)
      && Parts(t[p := File(bytes)]) == Parts(t) + {p}
      && Numbered(t[p := File(bytes)], if p < MAX_PART then p + 1 else p)
  {
    var p := FirstFree(t, next);
    var u := t[p := File(bytes)];
    assert forall q: u32 :: q in u && u[q].File? <==> q == p || (q in t && t[q].File?);
    assert forall q: u32 :: q in Parts(u) <==> q in Parts(t) + {p};
  }

  // ---- Pruning ----

  /** The table without the parts below a threshold; other entries stay. */
  function Above(t: Table, threshold: nat): Table {
    map p | p in t && (t[p].Other? || threshold <= p) :: t[p]
  }

  /** One more of the lowest parts removed. */
  lemma RemoveLowest(t: Table, p: u32, next: nat)
    requires p in Parts(t) && p < next
    requires forall q :: q in Parts(t) && p < q ==> next <= q
    ensures Above(t, p) - {p} == Above(t, next)
    ensures |Parts(Above(t, next))| == |Parts(Above(t, p))| - 1
  {
    var u, v := Above(t, p), Above(t, next);
    forall q: u32
      ensures q in v <==> q in u && q != p
    {
      assert q in t && t[q].File? ==> q in Parts(t);
    }
    assert forall q: u32 :: q in v ==> v[q] == u[q];
    assert p in u && u[p].File? && p !in v;
    assert forall q: u32 :: q in Parts(u) <==> q in u && u[q].File?;
    assert forall q: u32 :: q in Parts(v) <==> q in v && v[q].File?;
    assert Parts(u) == Parts(v) + {p} && p !in Parts(v);
  }

  function AtMost(n: nat, limit: Option<u32>): nat {
    if limit.Some? && limit.value < n then limit.value else n
  }

  /** Some of the parts are left, unchanged and the highest numbered, and everything that is no part. */
  ghost predicate Remains(before: Table, after: Table) {
    && (forall p :: p in after ==> p in before && after[p] == before[p])
    && (forall p :: p in before && p !in after ==> before[p].File?)
    && (forall p, q :: p in before && p !in after && q in Parts(after) ==> p < q)
  }

  /** As many parts are left as the limit allows. */
  ghost predicate PrunedTo(before: Table, after: Table, limit: Option<u32>) {
    Remains(before, after) && |Parts(after)| == AtMost(|Parts(before)|, limit)
  }

  lemma AboveRemains(t: Table, threshold: nat)
    ensures Remains(t, Above(t, threshold))
  {
  }

  /** Below a part that was dropped nothing is left. */
  lemma NothingBelow(t: Table, u: Table, p: u32)
    requires Remains(t, u) && p in t && p !in u
    ensures Concat(u, p + 1) == []
  {
    assert forall q: u32 :: q in u && u[q].File? ==> q in Parts(u);
    ConcatBeyond(u, 0, p + 1);
  }

  /** Dropping the lowest parts drops a prefix of the log. */
  lemma {:induction false} PruneKeepsSuffix(t: Table, u: Table, n: nat)
    requires Remains(t, u) && n <= END
    ensures IsSuffix(Concat(u, n), Concat(t, n))
  {
    if n > 0 {
      if n - 1 in t && n - 1 !in u {
        NothingBelow(t, u, n - 1);
      } else {
        PruneKeepsSuffix(t, u, n - 1);
        assert BytesOf(u, n - 1) == BytesOf(t, n - 1);
        SuffixGrows(Concat(u, n - 1), Concat(t, n - 1), BytesOf(t, n - 1));
      }
    }
  }

  /** Pruning to a number of parts that is not exceeded changes nothing. */
  lemma NothingToPrune(t: Table, u: Table)
    requires Remains(t, u) && |Parts(u)| == |Parts(t)|
    ensures u == t
  {
    SmallerSubset(Parts(u), Parts(t));
    assert forall p: u32 :: p in t && t[p].File? ==> p in Parts(t);
  }

  lemma SmallerSubset(a: set<u32>, b: set<u32>)
    requires a <= b
    ensures a != b ==> |a| < |b|
  {
    if a != b {
      var x :| x in b && x !in a;
      Subset(a, b - {x});
    }
  }

  lemma Subset(a: set<u32>, b: set<u32>)
    requires a <= b
    ensures |a| <= |b|
  {
    assert b == a + (b - a);
  }

  // ---- The log as a value ----

  ghost predicate Ascending(parts: seq<u32>) {
    forall i, j :: 0 <= i < j < |parts| ==> parts[i] < parts[j]
  }

  /** The log and what its writer knows of it.
      history is everything that was ever in the log since it was opened, oldest first;
      openedLen and openedParts are the length of the live file and the number of parts at that moment;
      rotated holds the indices that rotation gave out, in order. */
  datatype Log = Log(
    table: Table, live: Bytes, maxBytes: u64, maxParts: Option<u32>, nextPart: u32,
    history: Bytes, openedLen: nat, openedParts: nat, rotated: seq<u32>)
  {
    function Contents(): Bytes {
      Concat(table, END) + live
    }

    /** The size that the i-th rotation finds the live file at. */
    function RotatedSize(i: nat): nat {
      if i == 0 && openedLen > maxBytes then openedLen else maxBytes
    }

    /** The live file has room up to its limit, and every part rotated out is exactly full. */
    ghost predicate Sized() {
      && maxBytes >= 1
      && |live| <= RotatedSize(|rotated|)
      && (rotated == [] && openedLen > maxBytes ==> |live| == openedLen)
      && forall i :: 0 <= i < |rotated| && rotated[i] in Parts(table) ==>
           |table[rotated[i]].bytes| == RotatedSize(i)
    }

    ghost predicate Ordered() {
      && Numbered(table, nextPart)
      && Ascending(rotated)
      && forall i :: 0 <= i < |rotated| ==>
           rotated[i] < nextPart || (rotated[i] == MAX_PART && MAX_PART in Parts(table))
    }

    /** How many parts there were when it was opened, and were added since. */
    function Made(): nat {
      openedParts + |rotated|
    }

    /** Nothing is lost but the oldest parts, and nothing at all while there are no more than may be kept. */
    ghost predicate Retained() {
      && IsSuffix(Contents(), history)
      && (maxParts.None? || Made() <= maxParts.value ==> Contents() == history)
    }

    /** As many parts are there as were made, up to the limit. */
    ghost predicate CountedAs(made: nat) {
      |Parts(table)| == AtMost(made, maxParts) && (maxParts.Some? ==> maxParts.value > 0)
    }

    ghost predicate Sound() {
      Sized() && Ordered() && Retained() && CountedAs(Made())
    }

    function Append(bytes: Bytes): Log {
      this.(live := live + bytes, history := history + bytes)
    }

    /** The live file becomes part p and is empty again. */
    function Rotate(p: u32): Log {
      this.(table := table[p := File(live)], live := [], rotated := rotated + [p],
            nextPart := if p < MAX_PART then p + 1 else p)
    }
  }

  lemma AppendSound(log: Log, bytes: Bytes)
    requires log.Sound() && |log.live| + |bytes| <= log.maxBytes
    ensures log.Append(bytes).Sound()
  {
    SuffixGrows(log.Contents(), log.history, bytes);
    AppendAssoc(Concat(log.table, END), log.live, bytes);
  }

  lemma RotateSized(log: Log, p: u32)
    requires log.Sized() && p !in log.table && |log.live| >= log.maxBytes
    requires forall i :: 0 <= i < |log.rotated| ==> log.rotated[i] != p
    ensures log.Rotate(p).Sized()
  {
    var after := log.Rotate(p);
    forall i | 0 <= i < |after.rotated| && after.rotated[i] in Parts(after.table)
      ensures |after.table[after.rotated[i]].bytes| == after.RotatedSize(i)
    {
      if i < |log.rotated| {
        assert after.rotated[i] == log.rotated[i] && log.rotated[i] in Parts(log.table);
      }
    }
  }

  /** The new part is the highest, so it is the last and comes after all that rotation gave out before. */
  lemma RotateOrdered(log: Log)
    requires log.Ordered() && FirstFree(log.table, log.nextPart) != -1
    ensures log.Rotate(FirstFree(log.table, log.nextPart)).Ordered()
    ensures forall i :: 0 <= i < |log.rotated| ==> log.rotated[i] != FirstFree(log.table, log.nextPart)
  {
    var p := FirstFree(log.table, log.nextPart);
    RotationIsLast(log.table, log.nextPart, log.live);
    forall i | 0 <= i < |log.rotated|
      ensures log.rotated[i] < p
    {
      assert MAX_PART in Parts(log.table) ==> p < MAX_PART;
    }
  }

  /** Read in order, parts and live file hold the same bytes before and after. */
  lemma RotateContents(log: Log)
    requires Numbered(log.table, log.nextPart) && FirstFree(log.table, log.nextPart) != -1
    ensures log.Rotate(FirstFree(log.table, log.nextPart)).Contents() == log.Contents()
  {
    var p := FirstFree(log.table, log.nextPart);
    RotationIsLast(log.table, log.nextPart, log.live);
    AddLastPart(log.table, p, log.live);
    assert log.Contents() + [] == log.Contents();
  }

  /** How many parts there may be before pruning: one too many at most for what is left of those that were made. */
  ghost predicate Countable(log: Log) {
    && |Parts(log.table)| <= log.Made()
    && AtMost(|Parts(log.table)|, log.maxParts) == AtMost(log.Made(), log.maxParts)
    && (log.maxParts.Some? ==> log.maxParts.value > 0)
  }

  /** Rotation adds one part. */
  lemma RotateCounts(log: Log)
    requires Numbered(log.table, log.nextPart) && FirstFree(log.table, log.nextPart) != -1
    ensures var after := log.Rotate(FirstFree(log.table, log.nextPart));
      |Parts(after.table)| == |Parts(log.table)| + 1 && after.Made() == log.Made() + 1
  {
    RotationIsLast(log.table, log.nextPart, log.live);
    assert FirstFree(log.table, log.nextPart) !in Parts(log.table);
  }

  /** Rotation at the first free index keeps all but the limit on the number of parts. */
  lemma RotateKeeps(log: Log)
    requires log.Sound() && |log.live| >= log.maxBytes
    requires FirstFree(log.table, log.nextPart) != -1
    ensures var after := log.Rotate(FirstFree(log.table, log.nextPart));
      && after.Sized() && after.Ordered() && after.Retained() && Countable(after)
      && after.Contents() == log.Contents()
      && |Parts(after.table)| == |Parts(log.table)| + 1
  {
    RotateOrdered(log);
    RotateContents(log);
    RotateSized(log, FirstFree(log.table, log.nextPart));
    RotateCounts(log);
  }

  /** Pruning leaves a suffix of the log, the sizes and the numbering, and as many parts as the limit allows. */
  lemma PruneKeeps(log: Log, u: Table)
    requires log.Sized() && log.Ordered() && log.Retained() && Countable(log)
    requires PrunedTo(log.table, u, log.maxParts)
    ensures log.(table := u).Sound()
  {
    var kept, all := Concat(u, END), Concat(log.table, END);
    PruneKeepsSuffix(log.table, u, END);
    SuffixGrows(kept, all, log.live);
    SuffixOfSuffix(kept + log.live, log.Contents(), log.history);
    assert forall p :: p in Parts(u) ==> p in Parts(log.table);
    if log.maxParts.None? || log.Made() <= log.maxParts.value {
      NothingToPrune(log.table, u);
    } else {
      HighestStays(log, u);
    }
  }

  /** With a limit that is not 0, the highest part is kept. */
  lemma HighestStays(log: Log, u: Table)
    requires PrunedTo(log.table, u, log.maxParts) && log.maxParts.Some? && log.maxParts.value > 0
    ensures MAX_PART in Parts(log.table) ==> MAX_PART in Parts(u)
  {
    if MAX_PART in Parts(log.table) {
      assert |Parts(u)| > 0;
      var q :| q in Parts(u);
      assert MAX_PART in u || MAX_PART < q;
    }
  }

  /** A rotation fails, changing nothing, exactly when no index is left. Otherwise the live file becomes the part with
      the first free one; and as many parts are kept as may be, the highest numbered. */
  ghost predicate Rotated(before: Log, after: Log, ok: bool) {
    var p := FirstFree(before.table, before.nextPart);
    && (ok <==> p != -1)
    && (!ok ==> after == before)
    && (ok ==>
         && after == before.Rotate(p).(table := after.table)
         && PrunedTo(before.Rotate(p).table, after.table, before.maxParts)
         && |Parts(after.table)| == AtMost(|Parts(before.table)| + 1, before.maxParts))
  }

  /** A log that was sound is so after a rotation. */
  lemma RotationKeeps(before: Log, after: Log)
    requires before.Sound() && |before.live| >= before.maxBytes && Rotated(before, after, true)
    ensures after.Sound()
  {
    RotateKeeps(before);
    PruneKeeps(before.Rotate(FirstFree(before.table, before.nextPart)), after.table);
  }
}
