/** What a batch with an offender comes to: its reader closes the connection right after finish, and the
    replies of slots that were still pending race with that close. */
module BatchRefusals {
  import opened Basics
  import opened Bytes
  import opened Json
  import opened RequestIds
  import opened BatchDispatch
  import opened BatchWriter
  import opened BatchInvariant
  import opened BatchPromises
  import opened BatchProgress
  import opened BatchReplies

  // ---- The close decides ----

  /** The array was written, or has got past its closed check. */
  ghost predicate LetThrough(s: Batch) {
    s.written != [] || !NobodySends(s.slots, s.reader)
  }

  /** The process has passed its checks, and only its write is still to come. */
  predicate Sends(s: Batch, who: Who) {
    var flush := FlushOf(s.slots, s.reader, who);
    flush.Some? && flush.value.Sending?
  }

  /** The step that a sender takes: it writes, or a sink takes its array, or it is dropped. */
  predicate IsOwnStep(a: Action, who: Who) {
    a.ByFlush? && a.who == who && (a.flush.Write? || a.flush.Vanish? || a.flush.Lose?)
  }

  /** The first step of its own that a sender takes. */
  function OwnNext(rest: seq<Action>, who: Who): Option<FlushStep>
    decreases |rest|
  {
    if rest == [] then None
    else
      var before, last := OwnNext(rest[..|rest| - 1], who), rest[|rest| - 1];
      if before.Some? then before
      else if IsOwnStep(last, who) then Some(last.flush)
      else None
  }

  /** How a sender stands once the connection is closed: it still sends, or its own next step has decided. */
  ghost predicate SenderStands(s: Batch, who: Who, batch: seq<Entry>, own: Option<FlushStep>) {
    match own
    case None =>
      && s.closed && s.written == []
      && FlushOf(s.slots, s.reader, who) == Some(Sending(batch)) && Only(s.slots, s.reader, who)
    case Some(step) => if step == Write(true) then s.written == [batch] else Shut(s)
  }

  /** The sender's own step decides. */
  lemma OwnStepDecides(s: Batch, who: Who, batch: seq<Entry>, a: Action)
    requires SenderStands(s, who, batch, None) && IsOwnStep(a, who)
    ensures SenderStands(Next(s, a), who, batch, Some(a.flush))
  {
  }

  lemma FlushByOthers(s: Batch, who: Who, batch: seq<Entry>, other: Who, step: FlushStep)
    requires SenderStands(s, who, batch, None) && FlushEnabled(s, other, step)
    ensures IsOwnStep(ByFlush(other, step), who)
  {
    assert other == who;
  }

  lemma OthersLeaveSender(s: Batch, who: Who, batch: seq<Entry>, a: Action)
    requires SenderStands(s, who, batch, None) && !IsOwnStep(a, who) && Inv(s)
    ensures SenderStands(Next(s, a), who, batch, None)
  {
    match a
    case ByReader(step) => if ReaderEnabled(s, step) { ReaderLeavesSender(s, who, batch, step); }
    case BySlot(i, step) => if SlotEnabled(s, i, step) { SlotLeavesSender(s, who, batch, i, step); }
    case ByFlush(other, step) => if FlushEnabled(s, other, step) { FlushByOthers(s, who, batch, other, step); }
    case Close =>
  }

  /** When someone sends, every slot is complete and the reader has finished. */
  lemma SenderMeansComplete(s: Batch, who: Who)
    requires Inv(s) && Sends(s, who)
    ensures IsFinished(s.reader) && forall i :: 0 <= i < |s.slots| ==> !IsActive(s.slots[i])
    ensures FlushedBy(s, who)
  {
    TheFlusher(s, who);
    forall i: nat | i < |s.slots| && IsActive(s.slots[i])
      ensures false
    {
      NotCrossed(s, i);
    }
  }

  lemma ReaderLeavesSender(s: Batch, who: Who, batch: seq<Entry>, step: ReaderStep)
    requires SenderStands(s, who, batch, None) && Inv(s) && ReaderEnabled(s, step)
    ensures SenderStands(ReaderNext(s, step), who, batch, None)
  {
    SenderMeansComplete(s, who);
  }

  lemma SlotLeavesSender(s: Batch, who: Who, batch: seq<Entry>, i: nat, step: SlotStep)
    requires SenderStands(s, who, batch, None) && Inv(s) && SlotEnabled(s, i, step)
    ensures SenderStands(SlotNext(s, i, step), who, batch, None)
  {
    SenderMeansComplete(s, who);
  }

  lemma WrittenStands(s: Batch, a: Action)
    requires Inv(s) && s.written != []
    ensures Next(s, a).written == s.written
  {
    StepWritesMore(s, a);
    StepKeeps(s, a);
    WrittenOnce(s);
    WrittenOnce(Next(s, a));
  }

  lemma SenderStep(s: Batch, a: Action, who: Who, batch: seq<Entry>, own: Option<FlushStep>)
    requires Inv(s) && SenderStands(s, who, batch, own)
    ensures SenderStands(Next(s, a), who, batch, if own.None? && IsOwnStep(a, who) then Some(a.flush) else own)
  {
    if own.None? {
      if IsOwnStep(a, who) {
        OwnStepDecides(s, who, batch, a);
      } else {
        OthersLeaveSender(s, who, batch, a);
      }
    } else if own.value == Write(true) {
      WrittenStands(s, a);
    } else {
      StepStaysShut(s, a);
    }
  }

  lemma {:induction false} SenderThroughout(s: Batch, rest: seq<Action>, who: Who, batch: seq<Entry>)
    requires Inv(s) && SenderStands(s, who, batch, None)
    ensures SenderStands(RunFrom(s, rest), who, batch, OwnNext(rest, who))
    decreases |rest|
  {
    if rest != [] {
      var init := rest[..|rest| - 1];
      SenderThroughout(s, init, who, batch);
      RunFromKeeps(s, init);
      SenderStep(RunFrom(s, init), rest[|rest| - 1], who, batch, OwnNext(init, who));
    }
  }

  // ---- The close ----

  lemma ShutAfter(s: Batch, rest: seq<Action>)
    requires s.reader == Refusing && !LetThrough(s)
    ensures RunFrom(Next(s, ByReader(CloseRefused)), rest).written == []
  {
    assert Shut(Next(s, ByReader(CloseRefused)));
    NeverWrittenAfterClose(Next(s, ByReader(CloseRefused)), rest);
  }

  lemma StandsAtClose(s: Batch, who: Who)
    requires Inv(s) && s.reader == Refusing && Sends(s, who)
    ensures SenderStands(Next(s, ByReader(CloseRefused)), who, s.pushed, None)
  {
    TheFlusher(s, who);
  }

  /** The write of a sender at the close comes to what its own next step says, and to nothing without one. */
  lemma SenderDecides(s: Batch, who: Who, rest: seq<Action>)
    requires Inv(s) && s.reader == Refusing && Sends(s, who)
    ensures RunFrom(Next(s, ByReader(CloseRefused)), rest).written
         == if OwnNext(rest, who) == Some(Write(true)) then [s.pushed] else []
  {
    StandsAtClose(s, who);
    StepKeeps(s, ByReader(CloseRefused));
    SenderThroughout(Next(s, ByReader(CloseRefused)), rest, who, s.pushed);
  }

  /** What the close that follows a failed batch leaves to happen, whatever anyone does after it: what was written
      stays written; an array that has not passed its closed check is never written; and of an array whose write
      is still to come, the next step of its sender decides, which may find that the close has put a sink in the
      transport's place, or may be cut off. There is no fourth case. */
  lemma CloseDecides(job: Job, actions: seq<Action>, rest: seq<Action>)
    requires |job.due| < FINISHED_BIT
    ensures var s := Run(job, actions);
      s.reader == Refusing ==>
        var end := RunFrom(Next(s, ByReader(CloseRefused)), rest);
        && (s.written != [] ==> end.written == s.written)
        && (!LetThrough(s) ==> end.written == [])
        && (forall who :: Sends(s, who) ==>
             end.written == if OwnNext(rest, who) == Some(Write(true)) then [s.pushed] else [])
        && (s.written != [] || !LetThrough(s) || exists who :: Sends(s, who))
  {
    var s := Run(job, actions);
    RunKeeps(job, actions);
    if s.reader == Refusing {
      var shut := Next(s, ByReader(CloseRefused));
      if s.written != [] {
        StepKeeps(s, ByReader(CloseRefused));
        WrittenStays(shut, rest);
      }
      if !LetThrough(s) {
        ShutAfter(s, rest);
      }
      forall who | Sends(s, who)
        ensures RunFrom(shut, rest).written == if OwnNext(rest, who) == Some(Write(true)) then [s.pushed] else []
      {
        SenderDecides(s, who, rest);
      }
      SomebodySends(s);
    }
  }

  lemma SomebodySends(s: Batch)
    ensures !NobodySends(s.slots, s.reader) ==> exists who :: Sends(s, who)
  {
    if s.reader.Ending? && s.reader.flush.Sending? {
      assert Sends(s, TheReader);
    } else if i: nat :| i < |s.slots| && s.slots[i].Flushing? && s.slots[i].flush.Sending? {
      assert Sends(s, Responder(i));
    }
  }

  lemma RefusingFinishes(job: Job, actions: seq<Action>)
    requires Run(job, actions).reader == Refusing
    ensures job.ending.Finished? && Run(job, actions).job == job
  {
    RunConstants(Start(job), actions);
    if job.ending.Dropped? {
      NeverFinishes(job, actions);
    }
  }

  /** Whatever has not been written when the connection is closed can still be kept from the wire. */
  lemma CanBeKeptBack(s: Batch) returns (rest: seq<Action>)
    requires Inv(s) && s.reader == Refusing && s.written == [] && s.job.ending.Finished?
    ensures var end := RunFrom(Next(s, ByReader(CloseRefused)), rest);
      Quiet(end) && end.written == []
  {
    var shut := Next(s, ByReader(CloseRefused));
    if NobodySends(s.slots, s.reader) {
      rest := RestIsReached(shut);
      ShutAfter(s, rest);
    } else {
      SomebodySends(s);
      var who :| Sends(s, who);
      StandsAtClose(s, who);
      var sunk := Next(shut, ByFlush(who, Vanish));
      OwnStepDecides(shut, who, s.pushed, ByFlush(who, Vanish));
      VanishGoesOn(shut, who);
      var more := RestIsReached(sunk);
      rest := [ByFlush(who, Vanish)] + more;
      RunOne(shut, ByFlush(who, Vanish));
      RunAppend(shut, [ByFlush(who, Vanish)], more);
      NeverWrittenAfterClose(sunk, more);
    }
  }

  lemma VanishGoesOn(s: Batch, who: Who)
    requires s.reader == Done && Sends(s, who) && s.closed
    ensures var after := Next(s, ByFlush(who, Vanish));
      after.job == s.job && after.next == s.next && after.reader == Done
  {
  }

  /** At the close that follows a failed batch, the replies are sure to be written exactly when they are already. */
  lemma SureIffWritten(job: Job, actions: seq<Action>)
    requires |job.due| < FINISHED_BIT
    ensures var s := Run(job, actions);
      s.reader == Refusing ==>
        var shut := Next(s, ByReader(CloseRefused));
        (s.written != [] <==> forall rest | Quiet(RunFrom(shut, rest)) :: RunFrom(shut, rest).written != [])
  {
    var s := Run(job, actions);
    RunKeeps(job, actions);
    if s.reader == Refusing {
      var shut := Next(s, ByReader(CloseRefused));
      RefusingFinishes(job, actions);
      if s.written == [] {
        var rest := CanBeKeptBack(s);
        assert Quiet(RunFrom(shut, rest)) && RunFrom(shut, rest).written == [];
      } else {
        StepKeeps(s, ByReader(CloseRefused));
        forall rest | Quiet(RunFrom(shut, rest))
          ensures RunFrom(shut, rest).written != []
        {
          WrittenStays(shut, rest);
        }
      }
    }
  }

  // ---- Nothing is pending at finish ----

  /** Only the reader flushes, with everything that was pushed, or it has flushed. */
  ghost predicate ByReaderAlone(s: Batch, pushed: seq<Entry>) {
    && s.pushed == pushed && s.crossings == [Looked]
    && (s.reader.Ending? || ((s.reader.Refusing? || s.reader.Done?) && s.written == Expected(pushed, s.job.limit)))
    && forall i :: 0 <= i < |s.slots| ==> s.slots[i].Answered?
  }

  /** The reader's flush is not cut short by a close: it comes to all that is expected. */
  lemma ReaderFlushEnds(s: Batch, step: FlushStep, pushed: seq<Entry>)
    requires Inv(s) && Tidy(s) && ByReaderAlone(s, pushed)
    requires FlushEnabled(s, TheReader, step) && Smooth(ByFlush(TheReader, step))
    ensures ByReaderAlone(FlushNext(s, TheReader, step), pushed)
  {
    TheFlusher(s, TheReader);
    var after := FlushNext(s, TheReader, step);
    FlushKeepsShape(s, TheReader, step);
    FlushFlags(s, TheReader, step);
    FlushTidy(s, TheReader, step);
    if !after.reader.Ending? {
      LeaveFlushes(s, TheReader, step);
    }
  }

  lemma AloneStays(s: Batch, a: Action, pushed: seq<Entry>)
    requires Inv(s) && Tidy(s) && ByReaderAlone(s, pushed) && Smooth(a)
    ensures ByReaderAlone(Next(s, a), pushed)
  {
    match a
    case ByReader(step) =>
    case BySlot(i, step) =>
    case ByFlush(who, step) =>
      if FlushEnabled(s, who, step) {
        assert who == TheReader;
        ReaderFlushEnds(s, step, pushed);
      }
  }

  lemma {:induction false} AloneThroughout(s: Batch, rest: seq<Action>, pushed: seq<Entry>)
    requires Inv(s) && Tidy(s) && ByReaderAlone(s, pushed) && AllSmooth(rest)
    ensures ByReaderAlone(RunFrom(s, rest), pushed)
    decreases |rest|
  {
    if rest != [] {
      var init := rest[..|rest| - 1];
      SmoothKeeps(s, init);
      AloneThroughout(s, init, pushed);
      AloneStays(RunFrom(s, init), rest[|rest| - 1], pushed);
    }
  }

  lemma {:induction false} ActiveZero(slots: seq<Slot>)
    requires Active(slots) == 0
    ensures forall i :: 0 <= i < |slots| ==> !IsActive(slots[i])
  {
    forall i: nat | i < |slots| && IsActive(slots[i])
      ensures false
    {
      ActiveCounts(slots, i);
    }
  }

  /** A reader at finish with no slot pending finds every slot answered. */
  lemma NonePending(s: Batch)
    requires Inv(s) && Tidy(s) && ReaderEnabled(s, Finish) && Pending(s.word) == 0
    ensures forall i :: 0 <= i < |s.slots| ==> s.slots[i].Answered?
    ensures s.ids == ReservedIds(s.job.due) && Replies(s.pushed, s.ids, SaidTo(s.job.due))
    ensures ByReaderAlone(Next(s, ByReader(Finish)), s.pushed)
  {
    FinishCounts(s);
    NotYetFlushed(s);
    ActiveZero(s.slots);
    assert forall i :: 0 <= i < |s.slots| ==> s.slots[i].Answered?;
    assert s.job.due[..s.next] == s.job.due;
    AnsweredMeansOneEach(s.pushed, s.slots);
  }

  // ---- When the replies are sure to be written ----

  /** The replies are written in every smooth run that comes to rest. */
  ghost predicate SureToBeWritten(s: Batch) {
    forall rest | AllSmooth(rest) && Quiet(RunFrom(s, rest)) :: RunFrom(s, rest).written == [s.pushed]
  }

  lemma PendingIsShut(s: Batch)
    requires Inv(s) && ReaderEnabled(s, Finish) && s.job.Offended() && Pending(s.word) != 0
    ensures Next(s, ByReader(Finish)).reader == Refusing && !LetThrough(Next(s, ByReader(Finish)))
    ensures Next(s, ByReader(Finish)).next <= |s.job.due|
  {
    FinishCounts(s);
    NotYetFlushed(s);
  }

  /** The close comes at once, and cuts off whoever was still pending. */
  lemma CloseCutsOff(s: Batch)
    requires Inv(s) && ReaderEnabled(s, Finish) && s.job.Offended() && Pending(s.word) != 0
    ensures !SureToBeWritten(Next(s, ByReader(Finish)))
  {
    var after := Next(s, ByReader(Finish));
    PendingIsShut(s);
    RunOne(after, ByReader(CloseRefused));
    var rest := RestIsReached(Next(after, ByReader(CloseRefused)));
    var actions := [ByReader(CloseRefused)] + rest;
    RunAppend(after, [ByReader(CloseRefused)], rest);
    ShutAfter(after, rest);
    assert AllSmooth(actions) && Quiet(RunFrom(after, actions)) && RunFrom(after, actions).written == [];
  }

  lemma NonePendingIsSure(s: Batch)
    requires Inv(s) && Tidy(s) && ReaderEnabled(s, Finish) && Pending(s.word) == 0
    ensures SureToBeWritten(Next(s, ByReader(Finish))) <==> Expected(s.pushed, s.job.limit) == [s.pushed]
  {
    var after := Next(s, ByReader(Finish));
    NonePending(s);
    StepKeeps(s, ByReader(Finish));
    StepTidy(s, ByReader(Finish));
    forall rest | AllSmooth(rest) && Quiet(RunFrom(after, rest))
      ensures RunFrom(after, rest).written == Expected(s.pushed, s.job.limit)
    {
      AloneThroughout(after, rest, s.pushed);
      RunConstants(after, rest);
    }
    var rest := RestIsReached(after);
    assert AllSmooth(rest) && Quiet(RunFrom(after, rest));
  }

  /** With an offender, the replies are sure to be written exactly when at finish no slot is pending, there is
      something to write, and it fits. */
  lemma SureIffNonePending(job: Job, actions: seq<Action>)
    requires |job.due| < FINISHED_BIT && job.Offended() && AllSmooth(actions)
    ensures var s := Run(job, actions);
      ReaderEnabled(s, Finish) ==>
        (SureToBeWritten(Next(s, ByReader(Finish))) <==>
          Pending(s.word) == 0 && s.pushed != [] && !TooLong(s.pushed, job.limit))
  {
    var s := Run(job, actions);
    SmoothRun(job, actions);
    if ReaderEnabled(s, Finish) {
      if Pending(s.word) != 0 {
        CloseCutsOff(s);
      } else {
        NonePendingIsSure(s);
      }
    }
  }

  /** A batch with an offender whose requests were all answered by the time the reader was through with it comes
      to one array with one entry for each request before the offender and the offender's answer. */
  lemma RefusedAfterAnswers(s: State, items: seq<Json>, others: seq<Outside>, limit: nat,
                            actions: seq<Action>, rest: seq<Action>)
    requires s.effects == [] && |items| < FINISHED_BIT && AllSmooth(actions) && AllSmooth(rest)
    requires JobOf(Walk(s, items, others), limit).Offended()
    ensures var at := Run(JobOf(Walk(s, items, others), limit), actions);
      ReaderEnabled(at, Finish) && Pending(at.word) == 0 ==>
        var end := RunFrom(Next(at, ByReader(Finish)), rest);
        && at.ids == Requests(items[..GoodPrefix(items)])
        && Replies(at.pushed, at.ids, Answers(items))
        && (Quiet(end) ==> end.closed && end.written == Expected(at.pushed, limit))
  {
    var job := JobOf(Walk(s, items, others), limit);
    var at := Run(job, actions);
    WalkLeadsTo(s, items, others, limit);
    DueByKind(items);
    SmoothRun(job, actions);
    if ReaderEnabled(at, Finish) && Pending(at.word) == 0 {
      var after := Next(at, ByReader(Finish));
      NonePending(at);
      StepKeeps(at, ByReader(Finish));
      StepTidy(at, ByReader(Finish));
      AloneThroughout(after, rest, at.pushed);
      SmoothKeeps(after, rest);
      RunConstants(after, rest);
    }
  }

  // ---- Late answers ----

  /** The reader's steps for a request and then an offender that is answered, up to its close. */
  function ReadAndRefuse(text: Bytes): seq<Action> {
    [ByReader(ReserveSlot)] + [ByReader(AdmitSay)] + [ByReader(PushSay(text))] + [ByReader(Finish)]
    + [ByReader(CloseRefused)]
  }

  /** The job of a request followed by the number 42. */
  function RequestAndNumber(id: Id, limit: nat): Job {
    Job([Reserve(id), Say(Null)], BatchDispatch.Ending.Finished(Some(NotAMessage)), limit)
  }

  lemma NumberIsDue()
    ensures var offender := [Num(PosInt(42))];
      GoodPrefix(offender) == 0 && Due(offender) == [Say(Null)] && FirstOffence(offender) == Some(NotAMessage)
  {
    assert Classify(Num(PosInt(42))) == Bad(NotAMessage, Some(Null));
    DueUnfolds([Num(PosInt(42))]);
  }

  lemma RequestThenNumberDue(request: Json)
    requires Classify(request).Request?
    ensures var items := [request, Num(PosInt(42))];
      Due(items) == [Reserve(Classify(request).id), Say(Null)] && FirstOffence(items) == Some(NotAMessage)
  {
    var items := [request, Num(PosInt(42))];
    assert items[1..] == [Num(PosInt(42))];
    NumberIsDue();
    DueUnfolds(items);
    assert GoodPrefix(items) == 1;
  }

  lemma RequestThenNumber(s: State, request: Json, others: seq<Outside>, limit: nat)
    requires s.effects == [] && Classify(request).Request?
    ensures var job := JobOf(Walk(s, [request, Num(PosInt(42))], others), limit);
      job.ending.Finished? ==> job == RequestAndNumber(Classify(request).id, limit)
  {
    RequestThenNumberDue(request);
    WalkOrdersDue(s, [request, Num(PosInt(42))], others);
  }

  lemma ReadAndRefused(id: Id, limit: nat, text: Bytes)
    ensures var job := RequestAndNumber(id, limit);
      Run(job, ReadAndRefuse(text)) ==
        Start(job).(next := 2, word := FINISHED_BIT + 1, ids := [id], slots := [Held], reader := Done, closed := true,
          responses := [FromReader(Null, text)], pushed := [FromReader(Null, text)])
  {
    var s := Start(RequestAndNumber(id, limit));
    var p := [ByReader(ReserveSlot)];
    RunOne(s, ByReader(ReserveSlot));
    RunSnoc(s, p, ByReader(AdmitSay));
    RunSnoc(s, p + [ByReader(AdmitSay)], ByReader(PushSay(text)));
    RunSnoc(s, p + [ByReader(AdmitSay)] + [ByReader(PushSay(text))], ByReader(Finish));
    RunSnoc(s, p + [ByReader(AdmitSay)] + [ByReader(PushSay(text))] + [ByReader(Finish)], ByReader(CloseRefused));
  }

  /** A request and then the number 42, both of them looked at: if the handler has not answered when the reader is
      through, nothing is ever written, neither the reply nor the error, whatever the responders go on to do. */
  lemma LateAnswersAreLost(s: State, request: Json, others: seq<Outside>, limit: nat, text: Bytes, rest: seq<Action>)
    requires s.effects == [] && Classify(request).Request?
    requires JobOf(Walk(s, [request, Num(PosInt(42))], others), limit).ending.Finished?
    ensures var job := JobOf(Walk(s, [request, Num(PosInt(42))], others), limit);
      Run(job, ReadAndRefuse(text) + rest).written == []
  {
    var job := JobOf(Walk(s, [request, Num(PosInt(42))], others), limit);
    RequestThenNumber(s, request, others, limit);
    ReadAndRefused(Classify(request).id, limit, text);
    RunAppend(Start(job), ReadAndRefuse(text), rest);
    NeverWrittenAfterClose(Run(job, ReadAndRefuse(text)), rest);
  }

  /** The handler's respond call then runs to completion, but the closed check turns it away. */
  lemma LateAnswerIsTurnedAway(id: Id, limit: nat, text: Bytes, reply: Bytes)
    ensures var late := ReadAndRefuse(text) + [BySlot(0, Claim(reply))] + [BySlot(0, Admit)];
      var s := Run(RequestAndNumber(id, limit), late);
      AllSmooth(late) && Quiet(s) && s.slots == [GivenUp] && s.pushed == [FromReader(Null, text)] && s.written == []
  {
    var job := RequestAndNumber(id, limit);
    ReadAndRefused(id, limit, text);
    RunSnoc(Start(job), ReadAndRefuse(text), BySlot(0, Claim(reply)));
    RunSnoc(Start(job), ReadAndRefuse(text) + [BySlot(0, Claim(reply))], BySlot(0, Admit));
  }
}
