/** What a batch of requests is promised in every run: one word, one crossing, one array, and when none. */
module BatchPromises {
  import opened Basics
  import opened Bytes
  import opened RequestIds
  import opened BatchDispatch
  import opened BatchWriter
  import opened BatchInvariant

  /** In every run the word is exactly the number of incomplete slots and the finished bit: no
      completion ever borrows from the bit. Each slot completes once at most. */
  lemma WordIsExact(job: Job, actions: seq<Action>)
    requires |job.due| < FINISHED_BIT
    ensures var s := Run(job, actions);
      && Pending(s.word) == Active(s.slots)
      && (s.word >= FINISHED_BIT <==> IsFinished(s.reader))
      && (forall k, l :: 0 <= k < l < |s.completed| ==> s.completed[k] != s.completed[l])
  {
    var s := Run(job, actions);
    RunKeeps(job, actions);
    LastOneExact(s.word, Active(s.slots), IsFinished(s.reader));
  }

  lemma WrittenOnce(s: Batch)
    requires Inv(s)
    ensures s.written == [] || (s.written == [s.pushed] && s.pushed != [] && s.crossings == [Looked])
  {
    if who :| FlushedBy(s, who) {
      assert s.written == [];
    }
  }

  /** One step crosses to finished with nothing pending, never two. At most one array is written, and it
      holds everything that was pushed. */
  lemma OneCrossingOneArray(job: Job, actions: seq<Action>)
    requires |job.due| < FINISHED_BIT
    ensures var s := Run(job, actions);
      && |s.crossings| == (if IsFinished(s.reader) && Active(s.slots) == 0 then 1 else 0)
      && (s.written == [] || (s.written == [s.pushed] && s.pushed != [] && s.crossings == [Looked]))
  {
    RunKeeps(job, actions);
    WrittenOnce(Run(job, actions));
  }

  /** What a batch should come to: nothing when nothing was pushed, else one array of everything. */
  function OneArray(pushed: seq<Entry>): seq<seq<Entry>> {
    if pushed == [] then [] else [pushed]
  }

  lemma QuietCrossed(s: Batch)
    requires Inv(s) && Quiet(s)
    ensures Settled(s) || (Untouched(s) && s.crossings == [Unseen])
  {
    NoneActive(s.slots);
    assert s.crossings == [s.crossings[0]] && (s.crossings[0] == Looked || s.crossings[0] == Unseen);
    forall who
      ensures !FlushedBy(s, who)
    {
      assert FlushOf(s.slots, s.reader, who).None?;
    }
  }

  // ---- When a reply array is stranded ----

  /** A respond call is dropped when the word says that its slot is the last. */
  predicate Strands(s: Batch, a: Action) {
    a.BySlot? && a.step.Abandon? && SlotEnabled(s, a.i, Abandon) && LastOne(s.word)
  }

  ghost predicate Stranded(job: Job, actions: seq<Action>) {
    exists k :: 0 <= k < |actions| && Strands(Run(job, actions[..k]), actions[k])
  }

  /** The connection is closed, or a process is about to close it because it timed out. */
  ghost predicate Closing(s: Batch) {
    s.closed || exists i :: 0 <= i < |s.slots| && s.slots[i].TimedOut?
  }

  lemma FlushCrosses(s: Batch, who: Who, step: FlushStep)
    requires FlushEnabled(s, who, step) && !Closing(FlushNext(s, who, step))
    ensures !Closing(s)
    ensures FlushNext(s, who, step).crossings == s.crossings
  {
    FlushKeepsShape(s, who, step);
    FlushStaysClosed(s, who, step);
    assert forall i :: 0 <= i < |s.slots| && s.slots[i].TimedOut? ==> FlushNext(s, who, step).slots[i].TimedOut?;
  }

  lemma FlushStaysClosed(s: Batch, who: Who, step: FlushStep)
    requires FlushEnabled(s, who, step)
    ensures s.closed ==> FlushNext(s, who, step).closed
  {
  }

  lemma TimeOutCloses(s: Batch, i: nat)
    requires SlotEnabled(s, i, TimeOut)
    ensures Closing(SlotNext(s, i, TimeOut))
  {
    assert SlotNext(s, i, TimeOut).slots[i].TimedOut?;
  }

  lemma SlotCrosses(s: Batch, i: nat, step: SlotStep)
    requires SlotEnabled(s, i, step) && !Closing(SlotNext(s, i, step))
    ensures !Closing(s)
    ensures Unseen in SlotNext(s, i, step).crossings <==>
      Unseen in s.crossings || (step.Abandon? && LastOne(s.word))
  {
    var after := SlotNext(s, i, step);
    if step.TimeOut? {
      TimeOutCloses(s, i);
    }
    assert forall j :: 0 <= j < |s.slots| && s.slots[j].TimedOut? ==> after.slots[j].TimedOut? || step.CloseForIt?;
  }

  lemma ReaderCrosses(s: Batch, step: ReaderStep)
    requires ReaderEnabled(s, step) && !Closing(ReaderNext(s, step))
    ensures !Closing(s)
    ensures Unseen in ReaderNext(s, step).crossings <==> Unseen in s.crossings
  {
    var after := ReaderNext(s, step);
    assert forall i :: 0 <= i < |s.slots| && s.slots[i].TimedOut? ==> after.slots[i].TimedOut?;
  }

  lemma StepCrosses(s: Batch, a: Action)
    requires !Closing(Next(s, a))
    ensures !Closing(s)
    ensures Unseen in Next(s, a).crossings <==> Unseen in s.crossings || Strands(s, a)
  {
    match a
    case ByReader(step) => if ReaderEnabled(s, step) { ReaderCrosses(s, step); }
    case BySlot(i, step) => if SlotEnabled(s, i, step) { SlotCrosses(s, i, step); }
    case ByFlush(who, step) => if FlushEnabled(s, who, step) { FlushCrosses(s, who, step); }
    case Close =>
  }

  lemma StrandedGrows(job: Job, init: seq<Action>, a: Action)
    ensures Stranded(job, init + [a]) <==> Stranded(job, init) || Strands(Run(job, init), a)
  {
    var actions := init + [a];
    assert forall k | 0 <= k <= |init| :: actions[..k] == init[..k];
    assert init[..|init|] == init;
    if k :| 0 <= k < |init| && Strands(Run(job, init[..k]), init[k]) {
      assert Strands(Run(job, actions[..k]), actions[k]);
    }
    if Strands(Run(job, init), a) {
      assert Strands(Run(job, actions[..|init|]), actions[|init|]);
    }
  }

  /** Unless a close is under way, the crossing went unseen exactly when a respond call was dropped as the last. */
  ghost predicate UnseenMeans(s: Batch, stranded: bool) {
    !Closing(s) ==> (Unseen in s.crossings <==> stranded)
  }

  lemma UnseenStep(s: Batch, a: Action, stranded: bool)
    requires UnseenMeans(s, stranded)
    ensures UnseenMeans(Next(s, a), stranded || Strands(s, a))
  {
    if !Closing(Next(s, a)) {
      StepCrosses(s, a);
    }
  }

  lemma UnseenSnoc(job: Job, init: seq<Action>, a: Action)
    requires UnseenMeans(Run(job, init), Stranded(job, init))
    ensures UnseenMeans(Run(job, init + [a]), Stranded(job, init + [a]))
  {
    RunSnoc(Start(job), init, a);
    StrandedGrows(job, init, a);
    UnseenStep(Run(job, init), a, Stranded(job, init));
  }

  lemma UnseenAtStart(job: Job)
    ensures UnseenMeans(Run(job, []), Stranded(job, []))
  {
  }

  lemma {:induction false} UnseenExact(job: Job, actions: seq<Action>)
    ensures UnseenMeans(Run(job, actions), Stranded(job, actions))
    decreases |actions|
  {
    if actions == [] {
      UnseenAtStart(job);
    } else {
      var init, a := actions[..|actions| - 1], actions[|actions| - 1];
      UnseenExact(job, init);
      UnseenSnoc(job, init, a);
      assert actions == init + [a];
    }
  }

  lemma QuietOutcome(s: Batch)
    requires Inv(s) && Quiet(s) && !s.closed && !s.lost && !TooLong(s.pushed, s.job.limit)
    ensures s.written == OneArray(s.pushed) <==> s.pushed == [] || Unseen !in s.crossings
  {
    QuietCrossed(s);
  }

  /** With the connection open, no flush given up and an array that fits, the replies of a finished batch
      are written, in one array, exactly when there are none or no respond call was dropped as the last. */
  lemma WrittenUnlessStranded(job: Job, actions: seq<Action>)
    requires |job.due| < FINISHED_BIT
    ensures var s := Run(job, actions);
      Quiet(s) && !s.closed && !s.lost && !TooLong(s.pushed, job.limit) ==>
        (s.written == OneArray(s.pushed) <==> s.pushed == [] || !Stranded(job, actions))
  {
    var s := Run(job, actions);
    RunKeeps(job, actions);
    RunConstants(Start(job), actions);
    assert s.job == job;
    UnseenExact(job, actions);
    if Quiet(s) && !s.closed && !s.lost && !TooLong(s.pushed, job.limit) {
      QuietOutcome(s);
    }
  }

  /** Two requests are read, the reader finishes, and the first request is answered. */
  function FirstAnswered(text: Bytes): seq<Action> {
    [ByReader(ReserveSlot)] + [ByReader(ReserveSlot)] + [ByReader(Finish)] +
    [BySlot(0, Claim(text))] + [BySlot(0, Admit)] + [BySlot(0, Push)] + [BySlot(0, Complete)]
  }

  /** Then the respond call of the second is dropped while it waits for the buffer. */
  function LastDropped(text: Bytes, other: Bytes): seq<Action> {
    FirstAnswered(text) + [BySlot(1, Claim(other))] + [BySlot(1, Admit)] + [BySlot(1, Abandon)]
  }

  lemma TwoReserved(job: Job, a: Id, b: Id)
    requires job.due == [Reserve(a), Reserve(b)] && job.ending == Ending.Finished(None)
    ensures Run(job, [ByReader(ReserveSlot)] + [ByReader(ReserveSlot)] + [ByReader(Finish)]) ==
      Start(job).(next := 2, word := FINISHED_BIT + 2, ids := [a, b], slots := [Held, Held], reader := Done)
  {
    var s, p := Start(job), [ByReader(ReserveSlot)];
    RunOne(s, ByReader(ReserveSlot));
    RunSnoc(s, p, ByReader(ReserveSlot));
    RunSnoc(s, p + [ByReader(ReserveSlot)], ByReader(Finish));
  }

  lemma OneOfTwoAnswered(job: Job, a: Id, b: Id, text: Bytes)
    requires job.due == [Reserve(a), Reserve(b)] && job.ending == Ending.Finished(None)
    ensures Run(job, FirstAnswered(text)) ==
      Start(job).(next := 2, word := FINISHED_BIT + 1, ids := [a, b], reader := Done, slots := [Answered(text), Held],
        responses := [FromSlot(0, text)], pushed := [FromSlot(0, text)], completed := [0])
  {
    var s, p := Start(job), [ByReader(ReserveSlot)] + [ByReader(ReserveSlot)] + [ByReader(Finish)];
    TwoReserved(job, a, b);
    RunSnoc(s, p, BySlot(0, Claim(text)));
    RunSnoc(s, p + [BySlot(0, Claim(text))], BySlot(0, Admit));
    RunSnoc(s, p + [BySlot(0, Claim(text))] + [BySlot(0, Admit)], BySlot(0, Push));
    RunSnoc(s, p + [BySlot(0, Claim(text))] + [BySlot(0, Admit)] + [BySlot(0, Push)], BySlot(0, Complete));
  }

  /** The reply that was there is then never written, whatever it says, though it would fit, the connection is open
      and nobody is left to write it. */
  lemma LastDroppedStrands(a: Id, b: Id, text: Bytes, other: Bytes, limit: nat)
    requires !TooLong([FromSlot(0, text)], limit)
    ensures var s := Run(Job([Reserve(a), Reserve(b)], Ending.Finished(None), limit), LastDropped(text, other));
      && Quiet(s) && !s.closed && !s.lost
      && s.pushed == [FromSlot(0, text)] && !TooLong(s.pushed, limit)
      && s.written == []
  {
    var job := Job([Reserve(a), Reserve(b)], Ending.Finished(None), limit);
    var s, p := Start(job), FirstAnswered(text);
    OneOfTwoAnswered(job, a, b, text);
    RunSnoc(s, p, BySlot(1, Claim(other)));
    RunSnoc(s, p + [BySlot(1, Claim(other))], BySlot(1, Admit));
    RunSnoc(s, p + [BySlot(1, Claim(other))] + [BySlot(1, Admit)], BySlot(1, Abandon));
  }

  // ---- After a close ----

  /** The connection is closed and no array has got past its closed check. */
  ghost predicate Shut(s: Batch) {
    s.closed && s.written == [] && NobodySends(s.slots, s.reader)
  }

  lemma FlushStaysShut(s: Batch, who: Who, step: FlushStep)
    requires Shut(s) && FlushEnabled(s, who, step)
    ensures Shut(FlushNext(s, who, step))
  {
  }

  lemma SlotStaysShut(s: Batch, i: nat, step: SlotStep)
    requires Shut(s) && SlotEnabled(s, i, step)
    ensures Shut(SlotNext(s, i, step))
  {
  }

  lemma ReaderStaysShut(s: Batch, step: ReaderStep)
    requires Shut(s) && ReaderEnabled(s, step)
    ensures Shut(ReaderNext(s, step))
  {
  }

  lemma StepStaysShut(s: Batch, a: Action)
    requires Shut(s)
    ensures Shut(Next(s, a))
  {
    match a
    case ByReader(step) => if ReaderEnabled(s, step) { ReaderStaysShut(s, step); }
    case BySlot(i, step) => if SlotEnabled(s, i, step) { SlotStaysShut(s, i, step); }
    case ByFlush(who, step) => if FlushEnabled(s, who, step) { FlushStaysShut(s, who, step); }
    case Close =>
  }

  /** An array whose flush was not admitted when the connection closed is never written, whatever follows. */
  lemma {:induction false} NeverWrittenAfterClose(s: Batch, actions: seq<Action>)
    requires Shut(s)
    ensures Shut(RunFrom(s, actions))
    decreases |actions|
  {
    if actions != [] {
      var init := actions[..|actions| - 1];
      NeverWrittenAfterClose(s, init);
      StepStaysShut(RunFrom(s, init), actions[|actions| - 1]);
    }
  }

  /** The connection is closed, and nothing that was let through before is still to be pushed. */
  ghost predicate Sealed(s: Batch) {
    && s.closed && !s.reader.Saying?
    && forall i :: 0 <= i < |s.slots| ==> !s.slots[i].Admitted?
  }

  lemma FlushStaysSealed(s: Batch, who: Who, step: FlushStep)
    requires Sealed(s) && FlushEnabled(s, who, step)
    ensures Sealed(FlushNext(s, who, step)) && FlushNext(s, who, step).pushed == s.pushed
  {
  }

  lemma SlotStaysSealed(s: Batch, i: nat, step: SlotStep)
    requires Sealed(s) && SlotEnabled(s, i, step)
    ensures Sealed(SlotNext(s, i, step)) && SlotNext(s, i, step).pushed == s.pushed
  {
  }

  lemma ReaderStaysSealed(s: Batch, step: ReaderStep)
    requires Sealed(s) && ReaderEnabled(s, step)
    ensures Sealed(ReaderNext(s, step)) && ReaderNext(s, step).pushed == s.pushed
  {
  }

  lemma StepStaysSealed(s: Batch, a: Action)
    requires Sealed(s)
    ensures Sealed(Next(s, a)) && Next(s, a).pushed == s.pushed
  {
    match a
    case ByReader(step) => if ReaderEnabled(s, step) { ReaderStaysSealed(s, step); }
    case BySlot(i, step) => if SlotEnabled(s, i, step) { SlotStaysSealed(s, i, step); }
    case ByFlush(who, step) => if FlushEnabled(s, who, step) { FlushStaysSealed(s, who, step); }
    case Close =>
  }

  /** After a close nothing more is pushed than what its closed check had let through by then. */
  lemma {:induction false} NothingPushedAfterClose(s: Batch, actions: seq<Action>)
    requires Sealed(s)
    ensures Sealed(RunFrom(s, actions)) && RunFrom(s, actions).pushed == s.pushed
    decreases |actions|
  {
    if actions != [] {
      var init := actions[..|actions| - 1];
      NothingPushedAfterClose(s, init);
      StepStaysSealed(RunFrom(s, init), actions[|actions| - 1]);
    }
  }

  // ---- What goes wrong ----

  /** A respond call that does not get the buffer in time closes the connection, and its reply is not pushed. */
  lemma TimeOutEnds(s: Batch, i: nat)
    requires i < |s.slots| && s.slots[i].Admitted?
    ensures var after := Next(Next(s, BySlot(i, TimeOut)), BySlot(i, CloseForIt));
      && after.closed && after.slots == s.slots[i := GivenUp]
      && after.pushed == s.pushed && after.completed == s.completed + [i]
  {
  }

  /** A write that fails closes the connection, and nothing was written by it. */
  lemma FailedWriteEnds(s: Batch, who: Who, batch: seq<Entry>)
    requires FlushOf(s.slots, s.reader, who) == Some(Sending(batch))
    ensures var after := Next(Next(s, ByFlush(who, Write(false))), ByFlush(who, CloseForFailure));
      after.closed && after.written == s.written && FlushOf(after.slots, after.reader, who).None?
  {
  }

  /** A flush may be cut off until its write has failed, and then comes to nothing. */
  lemma LostFlushEnds(s: Batch, who: Who)
    requires FlushOf(s.slots, s.reader, who).Some? && FlushOf(s.slots, s.reader, who) != Some(Failed)
    ensures var after := Next(s, ByFlush(who, Lose));
      after.lost && after.written == s.written && FlushOf(after.slots, after.reader, who).None?
  {
  }

  // ---- What is written stays written ----

  lemma FlushWritesMore(s: Batch, who: Who, step: FlushStep)
    requires FlushEnabled(s, who, step)
    ensures s.written <= FlushNext(s, who, step).written
  {
  }

  lemma StepWritesMore(s: Batch, a: Action)
    ensures s.written <= Next(s, a).written
  {
    match a
    case ByReader(step) =>
    case BySlot(i, step) =>
    case ByFlush(who, step) => if FlushEnabled(s, who, step) { FlushWritesMore(s, who, step); }
    case Close =>
  }

  lemma {:induction false} RunWritesMore(s: Batch, rest: seq<Action>)
    ensures s.written <= RunFrom(s, rest).written
    decreases |rest|
  {
    if rest != [] {
      var init := rest[..|rest| - 1];
      RunWritesMore(s, init);
      StepWritesMore(RunFrom(s, init), rest[|rest| - 1]);
    }
  }

  /** An array that was written is the only one that ever will be. */
  lemma WrittenStays(s: Batch, rest: seq<Action>)
    requires Inv(s) && s.written != []
    ensures RunFrom(s, rest).written == s.written
  {
    RunWritesMore(s, rest);
    RunFromKeeps(s, rest);
    WrittenOnce(s);
    WrittenOnce(RunFrom(s, rest));
  }

  // ---- A reader that finds the connection closed ----

  lemma StepLeavesUnfinished(s: Batch, a: Action)
    requires s.job.ending.Dropped? && !IsFinished(s.reader)
    ensures !IsFinished(Next(s, a).reader)
  {
    match a
    case ByReader(step) =>
    case BySlot(i, step) =>
    case ByFlush(who, step) => if FlushEnabled(s, who, step) { FlushKeepsShape(s, who, step); }
    case Close =>
  }

  lemma {:induction false} NeverFinishes(job: Job, actions: seq<Action>)
    requires job.ending.Dropped?
    ensures !IsFinished(Run(job, actions).reader)
    decreases |actions|
  {
    if actions != [] {
      var init := actions[..|actions| - 1];
      NeverFinishes(job, init);
      RunConstants(Start(job), init);
      StepLeavesUnfinished(Run(job, init), actions[|actions| - 1]);
    }
  }

  /** If the connection was found closed between the members, the batch is never finished and nothing is written,
      whatever its requests are answered with, and whenever. */
  lemma CutShortWritesNothing(job: Job, actions: seq<Action>)
    requires |job.due| < FINISHED_BIT && job.ending.Dropped?
    ensures Run(job, actions).written == [] && !IsFinished(Run(job, actions).reader)
  {
    NeverFinishes(job, actions);
    RunKeeps(job, actions);
    WrittenOnce(Run(job, actions));
    UnfinishedCounts(Run(job, actions));
  }
}
