/** What a batch of requests comes to, from its decoded members to the reply array on the wire. */
module BatchReplies {
  import opened Basics
  import opened Bytes
  import opened Json
  import opened RequestIds
  import opened Sequences
  import opened BatchDispatch
  import opened BatchWriter
  import opened BatchInvariant
  import opened BatchPromises
  import opened BatchProgress

  /** The reader's job with a batch: the orders that walking its members gave, and how the walk ended. */
  function JobOf(walk: (State, BatchDispatch.Ending), limit: nat): Job {
    Job(Orders(walk.0.effects), walk.1, limit)
  }

  /** The job that a walk leads to, from whatever state of the queues and whatever others do meanwhile. */
  lemma WalkLeadsTo(s: State, items: seq<Json>, others: seq<Outside>, limit: nat)
    requires s.effects == []
    ensures var job := JobOf(Walk(s, items, others), limit);
      && |job.due| <= |items|
      && (job.ending.Finished? ==> job.due == Due(items) && (job.Offended() <==> GoodPrefix(items) < |items|))
  {
    WalkOrdersDue(s, items, others);
    DueIsBounded(items);
    assert Orders(s.effects) + Due(items) == Due(items);
  }

  // ---- What is due, by kind ----

  function SaidTo(orders: seq<Order>): seq<Json> {
    if orders == [] then []
    else SaidTo(orders[..|orders| - 1]) + if orders[|orders| - 1].Say? then [orders[|orders| - 1].to] else []
  }

  lemma {:induction false} ReservesOnly(ids: seq<Id>)
    ensures ReservedIds(Reserves(ids)) == ids && SaidTo(Reserves(ids)) == []
  {
    if ids != [] {
      var n := |ids| - 1;
      ReservesOnly(ids[..n]);
      assert Reserves(ids)[..n] == Reserves(ids[..n]);
    }
  }

  /** A batch is owed one reply for each request before the first offender, and the offender's answer. */
  lemma DueByKind(items: seq<Json>)
    ensures ReservedIds(Due(items)) == Requests(items[..GoodPrefix(items)])
    ensures SaidTo(Due(items)) == Answers(items)
  {
    var reserves, last := Reserves(Requests(items[..GoodPrefix(items)])), LastWord(items);
    ReservesOnly(Requests(items[..GoodPrefix(items)]));
    if last == [] {
      assert Due(items) == reserves;
    } else {
      assert Due(items)[..|reserves|] == reserves && Due(items)[|reserves|] == last[0];
    }
  }

  lemma {:induction false} DueIsBounded(items: seq<Json>)
    ensures |Due(items)| <= |items|
  {
    if items != [] {
      DueUnfolds(items);
      DueIsBounded(items[1..]);
    }
  }

  // ---- Smooth runs ----

  function SaidIn(pushed: seq<Entry>): seq<Json> {
    if pushed == [] then []
    else SaidIn(pushed[..|pushed| - 1]) + if pushed[|pushed| - 1].FromReader? then [pushed[|pushed| - 1].to] else []
  }

  /** The reader's own entries are those of its orders so far. */
  ghost predicate SaysRight(due: seq<Order>, next: nat, reader: Reader, pushed: seq<Entry>) {
    && next <= |due|
    && SaidTo(due[..next]) == SaidIn(pushed) + if reader.Saying? then [reader.to] else []
  }

  /** Only the reader of a failed batch closes the connection, as the last thing it does. */
  ghost predicate FlagsRight(offended: bool, closed: bool, reader: Reader, lost: bool) {
    && !lost && reader != Stopped
    && (closed ==> reader == Done)
    && (offended && reader == Done ==> closed)
  }

  ghost predicate NothingFailed(slots: seq<Slot>, reader: Reader) {
    && reader != Ending(Failed)
    && forall i :: 0 <= i < |slots| ==> slots[i] != TimedOut && !(slots[i].Flushing? && slots[i].flush == Failed)
  }

  /** A batch without an offender fails only for an array that is too long. */
  ghost predicate FailureRight(s: Batch) {
    s.closed || s.reader == Refusing ==> s.job.Offended() || (s.crossings == [Looked] && TooLong(s.pushed, s.job.limit))
  }

  /** Only the close that follows an offender makes a slot give up. */
  ghost predicate GivenUpRight(offended: bool, closed: bool, slots: seq<Slot>) {
    forall i :: 0 <= i < |slots| && slots[i] == GivenUp ==> offended && closed
  }

  /** What smooth steps keep, besides what all steps keep. */
  ghost predicate Tidy(s: Batch) {
    && s.job.ending.Finished?
    && SaysRight(s.job.due, s.next, s.reader, s.pushed)
    && FlagsRight(s.job.Offended(), s.closed, s.reader, s.lost)
    && NothingFailed(s.slots, s.reader)
    && FailureRight(s)
    && GivenUpRight(s.job.Offended(), s.closed, s.slots)
  }

  lemma SaysTaken(due: seq<Order>, next: nat)
    requires next < |due|
    ensures SaidTo(due[..next + 1])
         == if due[next].Say? then SaidTo(due[..next]) + [due[next].to] else SaidTo(due[..next])
  {
    assert due[..next + 1][..next] == due[..next];
  }

  lemma SaidGrows(pushed: seq<Entry>, e: Entry)
    ensures SaidIn(pushed + [e]) == if e.FromReader? then SaidIn(pushed) + [e.to] else SaidIn(pushed)
  {
    assert (pushed + [e])[..|pushed|] == pushed;
  }

  lemma SaysReserve(due: seq<Order>, next: nat, pushed: seq<Entry>)
    requires SaysRight(due, next, Reading, pushed) && next < |due| && due[next].Reserve?
    ensures SaysRight(due, next + 1, Reading, pushed)
  {
    SaysTaken(due, next);
  }

  lemma SaysAdmit(due: seq<Order>, next: nat, pushed: seq<Entry>)
    requires SaysRight(due, next, Reading, pushed) && next < |due| && due[next].Say?
    ensures SaysRight(due, next + 1, Saying(due[next].to), pushed)
  {
    SaysTaken(due, next);
    assert SaidIn(pushed) + [] == SaidIn(pushed);
  }

  lemma SaysPush(due: seq<Order>, next: nat, to: Json, pushed: seq<Entry>, text: Bytes)
    requires SaysRight(due, next, Saying(to), pushed)
    ensures SaysRight(due, next, Reading, pushed + [FromReader(to, text)])
  {
    SaidGrows(pushed, FromReader(to, text));
  }

  lemma SaysPushed(due: seq<Order>, next: nat, reader: Reader, pushed: seq<Entry>, i: nat, text: Bytes)
    requires SaysRight(due, next, reader, pushed)
    ensures SaysRight(due, next, reader, pushed + [FromSlot(i, text)])
  {
    SaidGrows(pushed, FromSlot(i, text));
  }

  lemma ReaderSays(s: Batch, step: ReaderStep)
    requires SaysRight(s.job.due, s.next, s.reader, s.pushed) && ReaderEnabled(s, step)
    requires s.closed ==> s.reader == Done
    ensures var after := ReaderNext(s, step); SaysRight(after.job.due, after.next, after.reader, after.pushed)
  {
    match step
    case ReserveSlot => SaysReserve(s.job.due, s.next, s.pushed);
    case AdmitSay => SaysAdmit(s.job.due, s.next, s.pushed);
    case PushSay(text) => SaysPush(s.job.due, s.next, s.reader.to, s.pushed, text);
    case _ =>
  }

  lemma ReaderTidy(s: Batch, step: ReaderStep)
    requires Inv(s) && Tidy(s) && ReaderEnabled(s, step)
    ensures Tidy(ReaderNext(s, step))
  {
    ReaderSays(s, step);
    UnfinishedCounts(s);
    ReaderFlags(s, step);
    ReaderFailure(s, step);
  }

  lemma ReaderFlags(s: Batch, step: ReaderStep)
    requires s.job.ending.Finished? && ReaderEnabled(s, step)
    requires FlagsRight(s.job.Offended(), s.closed, s.reader, s.lost) && NothingFailed(s.slots, s.reader)
    requires GivenUpRight(s.job.Offended(), s.closed, s.slots)
    ensures var after := ReaderNext(s, step);
      && FlagsRight(after.job.Offended(), after.closed, after.reader, after.lost)
      && NothingFailed(after.slots, after.reader)
      && GivenUpRight(after.job.Offended(), after.closed, after.slots)
  {
  }

  lemma ReaderFailure(s: Batch, step: ReaderStep)
    requires s.job.ending.Finished? && ReaderEnabled(s, step)
    requires FailureRight(s) && FlagsRight(s.job.Offended(), s.closed, s.reader, s.lost)
    ensures FailureRight(ReaderNext(s, step))
  {
  }

  lemma SlotTidy(s: Batch, i: nat, step: SlotStep)
    requires Inv(s) && Tidy(s) && SlotEnabled(s, i, step) && !step.TimeOut? && !step.Abandon?
    ensures Tidy(SlotNext(s, i, step))
  {
    NotCrossed(s, i);
    if step.Push? {
      SaysPushed(s.job.due, s.next, s.reader, s.pushed, i, s.slots[i].text);
    }
    SlotFlags(s, i, step);
  }

  lemma SlotFlags(s: Batch, i: nat, step: SlotStep)
    requires Tidy(s) && s.crossings == [] && SlotEnabled(s, i, step) && !step.TimeOut? && !step.Abandon?
    ensures var after := SlotNext(s, i, step);
      && NothingFailed(after.slots, after.reader)
      && GivenUpRight(after.job.Offended(), after.closed, after.slots)
      && FailureRight(after)
  {
  }

  lemma FlushTidy(s: Batch, who: Who, step: FlushStep)
    requires Inv(s) && Tidy(s) && FlushEnabled(s, who, step) && Smooth(ByFlush(who, step))
    ensures Tidy(FlushNext(s, who, step))
  {
    TheFlusher(s, who);
    FlushKeepsShape(s, who, step);
    FlushFlags(s, who, step);
    FlushGivesUpNothing(s, who, FlushNext(s, who, step));
    FlushFailure(s, who, step);
  }

  lemma GoOnFlags(s: Batch, who: Who, flush: Flush)
    requires FlagsRight(s.job.Offended(), s.closed, s.reader, s.lost) && NothingFailed(s.slots, s.reader)
    requires FlushOf(s.slots, s.reader, who).Some? && flush != Failed
    ensures var after := GoOn(s, who, flush);
      && FlagsRight(s.job.Offended(), s.closed, after.reader, s.lost)
      && NothingFailed(after.slots, after.reader)
      && after.reader.Saying? == s.reader.Saying?
  {
  }

  lemma LeaveFlags(s: Batch, who: Who, ok: bool)
    requires FlagsRight(s.job.Offended(), s.closed, s.reader, s.lost) && NothingFailed(s.slots, s.reader)
    requires FlushOf(s.slots, s.reader, who).Some?
    ensures var after := Leave(s, who, AfterBatch(s.job, ok));
      && FlagsRight(s.job.Offended(), s.closed, after.reader, s.lost)
      && NothingFailed(after.slots, after.reader)
      && after.reader.Saying? == s.reader.Saying?
  {
  }

  lemma FlushFlags(s: Batch, who: Who, step: FlushStep)
    requires FlagsRight(s.job.Offended(), s.closed, s.reader, s.lost) && NothingFailed(s.slots, s.reader)
    requires FlushEnabled(s, who, step) && Smooth(ByFlush(who, step))
    ensures var after := FlushNext(s, who, step);
      && FlagsRight(after.job.Offended(), after.closed, after.reader, after.lost)
      && NothingFailed(after.slots, after.reader)
      && after.closed == s.closed && after.next == s.next && after.reader.Saying? == s.reader.Saying?
  {
    match step
    case Gate => if s.flushed { LeaveFlags(s, who, true); } else { GoOnFlags(s, who, Taking); }
    case TakeAll => if s.responses == [] { LeaveFlags(s, who, true); } else { GoOnFlags(s, who, Writing(s.responses)); }
    case AdmitWrite =>
      LeaveFlags(s, who, false);
      GoOnFlags(s, who, Sending(FlushOf(s.slots, s.reader, who).value.batch));
    case Write(ok) => LeaveFlags(s, who, true);
    case CloseForFailure =>
  }

  lemma FlushGivesUpNothing(s: Batch, who: Who, after: Batch)
    requires FlushShape(s, who, after) && FlushOf(s.slots, s.reader, who).Some? && after.closed == s.closed
    requires GivenUpRight(s.job.Offended(), s.closed, s.slots)
    ensures GivenUpRight(after.job.Offended(), after.closed, after.slots)
  {
  }

  lemma FlushFailure(s: Batch, who: Who, step: FlushStep)
    requires Tidy(s) && FlushedBy(s, who) && FlushEnabled(s, who, step) && Smooth(ByFlush(who, step))
    ensures FailureRight(FlushNext(s, who, step))
  {
  }

  lemma StepTidy(s: Batch, a: Action)
    requires Inv(s) && Tidy(s) && Smooth(a)
    ensures Tidy(Next(s, a))
  {
    match a
    case ByReader(step) => if ReaderEnabled(s, step) { ReaderTidy(s, step); }
    case BySlot(i, step) => if SlotEnabled(s, i, step) { SlotTidy(s, i, step); }
    case ByFlush(who, step) => if FlushEnabled(s, who, step) { FlushTidy(s, who, step); }
  }

  lemma {:induction false} SmoothKeeps(s: Batch, actions: seq<Action>)
    requires Inv(s) && Tidy(s) && AllSmooth(actions)
    ensures Inv(RunFrom(s, actions)) && Tidy(RunFrom(s, actions))
    decreases |actions|
  {
    if actions != [] {
      var init, a := actions[..|actions| - 1], actions[|actions| - 1];
      SmoothKeeps(s, init);
      StepKeeps(RunFrom(s, init), a);
      StepTidy(RunFrom(s, init), a);
    }
  }

  lemma SmoothRun(job: Job, actions: seq<Action>)
    requires |job.due| < FINISHED_BIT && job.ending.Finished? && AllSmooth(actions)
    ensures Inv(Run(job, actions)) && Tidy(Run(job, actions)) && Run(job, actions).job == job
  {
    StartKeeps(job);
    assert job.due[..0] == [];
    SmoothKeeps(Start(job), actions);
    RunConstants(Start(job), actions);
  }

  // ---- What was pushed ----

  ghost predicate HasReply(entries: seq<Entry>, i: nat) {
    exists k :: 0 <= k < |entries| && entries[k].FromSlot? && entries[k].i == i
  }

  /** One entry for each of n slots, and none for others. */
  ghost predicate OneEach(entries: seq<Entry>, n: nat) {
    && (forall k :: 0 <= k < |entries| && entries[k].FromSlot? ==> entries[k].i < n)
    && (forall k, l :: 0 <= k < l < |entries| && entries[k].FromSlot? && entries[l].FromSlot? ==>
         entries[k].i != entries[l].i)
    && (forall i: nat :: i < n ==> HasReply(entries, i))
  }

  lemma AnsweredMeansOneEach(pushed: seq<Entry>, slots: seq<Slot>)
    requires EntriesRight(pushed, slots) && forall i :: 0 <= i < |slots| ==> slots[i].Answered?
    ensures OneEach(pushed, |slots|)
  {
    forall i: nat | i < |slots|
      ensures HasReply(pushed, i)
    {
      assert FromSlot(i, slots[i].text) in pushed;
    }
    assert forall k :: 0 <= k < |pushed| ==> pushed[k] in pushed;
  }

  lemma {:induction false} NothingSaid(pushed: seq<Entry>)
    ensures SaidIn(pushed) == [] <==> forall k :: 0 <= k < |pushed| ==> pushed[k].FromSlot?
  {
    if pushed != [] {
      var init, last := pushed[..|pushed| - 1], pushed[|pushed| - 1];
      NothingSaid(init);
      assert forall k :: 0 <= k < |init| ==> init[k] == pushed[k];
      assert SaidIn(pushed) == [] <==> SaidIn(init) == [] && last.FromSlot?;
    }
  }

  /** The entries are one reply for each request, in whatever order, and the answers given. */
  ghost predicate Replies(pushed: seq<Entry>, ids: seq<Id>, answers: seq<Json>) {
    OneEach(pushed, |ids|) && SaidIn(pushed) == answers
  }

  /** There are no replies exactly when there is nothing to reply to. */
  lemma RepliesEmpty(pushed: seq<Entry>, ids: seq<Id>, answers: seq<Json>)
    requires Replies(pushed, ids, answers)
    ensures pushed == [] <==> ids == [] && answers == []
  {
    NothingSaid(pushed);
    assert ids != [] ==> HasReply(pushed, 0);
    if pushed != [] && pushed[0].FromSlot? {
      assert pushed[0].i < |ids|;
    }
  }

  // ---- Texts ----

  predicate HasText(slot: Slot) {
    slot.Claimed? || slot.Admitted? || slot.Pushed? || slot.Flushing? || slot.Answered?
  }

  /** The slot's text is the one it was claimed with. */
  ghost predicate SameText(before: seq<Slot>, after: seq<Slot>, i: nat, a: Action) {
    i < |after| && HasText(after[i]) ==>
      && i < |before|
      && (if HasText(before[i]) then before[i].text == after[i].text
          else before[i] == Held && a == BySlot(i, Claim(after[i].text)))
  }

  lemma StepTexts(s: Batch, a: Action, i: nat)
    ensures SameText(s.slots, Next(s, a).slots, i, a)
  {
    match a
    case ByReader(step) =>
    case BySlot(j, step) => if SlotEnabled(s, j, step) { SlotTexts(s, j, step, i); }
    case ByFlush(who, step) => if FlushEnabled(s, who, step) { FlushKeepsShape(s, who, step); }
    case Close =>
  }

  lemma SlotTexts(s: Batch, j: nat, step: SlotStep, i: nat)
    requires SlotEnabled(s, j, step)
    ensures SameText(s.slots, SlotNext(s, j, step).slots, i, BySlot(j, step))
  {
    assert SlotNext(s, j, step).slots == s.slots[j := SlotNext(s, j, step).slots[j]];
  }

  ghost predicate Responds(job: Job, actions: seq<Action>, k: nat, i: nat, text: Bytes) {
    && k < |actions| && actions[k] == BySlot(i, Claim(text))
    && SlotEnabled(Run(job, actions[..k]), i, Claim(text))
  }

  /** A respond call for slot i had this text, and was the one that was accepted. */
  ghost predicate Responded(job: Job, actions: seq<Action>, i: nat, text: Bytes) {
    exists k: nat :: Responds(job, actions, k, i, text)
  }

  lemma RespondedStays(job: Job, init: seq<Action>, a: Action, i: nat, text: Bytes)
    requires Responded(job, init, i, text)
    ensures Responded(job, init + [a], i, text)
  {
    var k: nat :| Responds(job, init, k, i, text);
    assert (init + [a])[..k] == init[..k];
    assert Responds(job, init + [a], k, i, text);
  }

  lemma RespondedNow(job: Job, init: seq<Action>, i: nat, text: Bytes)
    requires SlotEnabled(Run(job, init), i, Claim(text))
    ensures Responded(job, init + [BySlot(i, Claim(text))], i, text)
  {
    var actions := init + [BySlot(i, Claim(text))];
    assert actions[..|init|] == init;
    assert Responds(job, actions, |init|, i, text);
  }

  lemma StepKeepsClaim(s: Batch, a: Action, i: nat)
    requires i < |s.slots| && !s.slots[i].Held?
    ensures i < |Next(s, a).slots| && !Next(s, a).slots[i].Held?
  {
    match a
    case ByReader(step) =>
    case BySlot(j, step) => if SlotEnabled(s, j, step) { SlotKeepsClaim(s, j, step, i); }
    case ByFlush(who, step) => if FlushEnabled(s, who, step) { FlushKeepsShape(s, who, step); }
    case Close =>
  }

  lemma SlotKeepsClaim(s: Batch, j: nat, step: SlotStep, i: nat)
    requires i < |s.slots| && !s.slots[i].Held? && SlotEnabled(s, j, step)
    ensures var after := SlotNext(s, j, step).slots; i < |after| && !after[i].Held?
  {
    assert SlotNext(s, j, step).slots == s.slots[j := SlotNext(s, j, step).slots[j]];
  }

  /** A slot that has been claimed never waits for a respond call again. */
  lemma {:induction false} NeverHeldAgain(s: Batch, rest: seq<Action>, i: nat)
    requires i < |s.slots| && !s.slots[i].Held?
    ensures i < |RunFrom(s, rest).slots| && !RunFrom(s, rest).slots[i].Held?
    decreases |rest|
  {
    if rest != [] {
      var init := rest[..|rest| - 1];
      NeverHeldAgain(s, init, i);
      StepKeepsClaim(RunFrom(s, init), rest[|rest| - 1], i);
    }
  }

  lemma NoLaterClaim(job: Job, actions: seq<Action>, k: nat, l: nat, i: nat, text: Bytes)
    requires Responds(job, actions, k, i, text) && k < l <= |actions|
    ensures var s := Run(job, actions[..l]); i < |s.slots| && !s.slots[i].Held?
  {
    var rest := actions[k + 1..l];
    assert actions[..l] == (actions[..k] + [actions[k]]) + rest;
    RunSnoc(Start(job), actions[..k], actions[k]);
    RunAppend(Start(job), actions[..k] + [actions[k]], rest);
    NeverHeldAgain(Run(job, actions[..k] + [actions[k]]), rest, i);
  }

  /** At most one respond call is ever accepted for a slot. */
  lemma AcceptedOnce(job: Job, actions: seq<Action>, i: nat, k: nat, l: nat, text: Bytes, other: Bytes)
    requires Responds(job, actions, k, i, text) && Responds(job, actions, l, i, other)
    ensures k == l && text == other
  {
    if k < l {
      NoLaterClaim(job, actions, k, l, i, text);
    } else if l < k {
      NoLaterClaim(job, actions, l, k, i, other);
    }
  }

  ghost predicate TextRight(job: Job, actions: seq<Action>, slots: seq<Slot>, i: nat) {
    i < |slots| && HasText(slots[i]) ==> Responded(job, actions, i, slots[i].text)
  }

  lemma TextStep(job: Job, init: seq<Action>, a: Action, after: seq<Slot>, i: nat)
    requires TextRight(job, init, Run(job, init).slots, i) && SameText(Run(job, init).slots, after, i, a)
    ensures TextRight(job, init + [a], after, i)
  {
    if i < |after| && HasText(after[i]) {
      if HasText(Run(job, init).slots[i]) {
        RespondedStays(job, init, a, i, after[i].text);
      } else {
        RespondedNow(job, init, i, after[i].text);
      }
    }
  }

  lemma {:induction false} TextsWereClaimed(job: Job, actions: seq<Action>, i: nat)
    ensures TextRight(job, actions, Run(job, actions).slots, i)
    decreases |actions|
  {
    if actions != [] {
      var init, a := actions[..|actions| - 1], actions[|actions| - 1];
      assert actions == init + [a];
      TextsWereClaimed(job, init, i);
      StepTexts(Run(job, init), a, i);
      TextStep(job, init, a, Run(job, actions).slots, i);
    }
  }

  // ---- Batches without an offender ----

  /** What is written of replies that nothing went wrong with. */
  function Expected(pushed: seq<Entry>, limit: nat): seq<seq<Entry>> {
    if pushed == [] || TooLong(pushed, limit) then [] else [pushed]
  }

  lemma RestIsAnswered(s: Batch)
    requires Inv(s) && Tidy(s) && Quiet(s) && !s.job.Offended()
    ensures forall i :: 0 <= i < |s.slots| ==> s.slots[i].Answered?
    ensures s.ids == ReservedIds(s.job.due)
    ensures Replies(s.pushed, s.ids, SaidTo(s.job.due))
    ensures s.written == Expected(s.pushed, s.job.limit)
  {
    QuietCrossed(s);
    assert s.job.due[..s.next] == s.job.due;
    AnsweredMeansOneEach(s.pushed, s.slots);
  }

  /** Every pushed reply is what the accepted respond call for its slot said. */
  ghost predicate InOwnWords(job: Job, actions: seq<Action>, pushed: seq<Entry>) {
    forall e :: e in pushed && e.FromSlot? ==> Responded(job, actions, e.i, e.text)
  }

  lemma PushedTexts(job: Job, actions: seq<Action>, slots: seq<Slot>, pushed: seq<Entry>)
    requires slots == Run(job, actions).slots && EntriesRight(pushed, slots)
    ensures InOwnWords(job, actions, pushed)
  {
    forall e | e in pushed && e.FromSlot?
      ensures Responded(job, actions, e.i, e.text)
    {
      TextsWereClaimed(job, actions, e.i);
    }
  }

  /** The replies are complete, in the responders' own words, and on the wire unless there are none or too many. */
  ghost predicate AllAnswered(job: Job, actions: seq<Action>, end: Batch, ids: seq<Id>) {
    && end.ids == ids
    && Replies(end.pushed, ids, [])
    && InOwnWords(job, actions, end.pushed)
    && (end.closed ==> TooLong(end.pushed, job.limit))
    && end.written == if ids == [] || TooLong(end.pushed, job.limit) then [] else [end.pushed]
  }

  lemma SmoothIsAnswered(job: Job, actions: seq<Action>)
    requires |job.due| < FINISHED_BIT && job.ending == BatchDispatch.Ending.Finished(None) && AllSmooth(actions)
    requires SaidTo(job.due) == [] && Quiet(Run(job, actions))
    ensures AllAnswered(job, actions, Run(job, actions), ReservedIds(job.due))
  {
    var end := Run(job, actions);
    SmoothRun(job, actions);
    RestIsAnswered(end);
    RepliesEmpty(end.pushed, end.ids, []);
    PushedTexts(job, actions, end.slots, end.pushed);
  }

  /** A walk that goes through without an offender reserves a slot for each request and says nothing. */
  lemma CleanWalk(s: State, items: seq<Json>, others: seq<Outside>, limit: nat)
    requires s.effects == [] && Walk(s, items, others).1 == BatchDispatch.Ending.Finished(None)
    ensures var job := JobOf(Walk(s, items, others), limit);
      |job.due| <= |items| && ReservedIds(job.due) == Requests(items) && SaidTo(job.due) == []
  {
    WalkLeadsTo(s, items, others, limit);
    DueByKind(items);
    WholeTake(items);
  }

  /** However reader and responders interleave: when the members are handled to the end with no offender and the
      connection open, nobody closes it after that, calls run to completion and writes succeed, a batch comes to one
      array with exactly one entry for each request, and each entry is what the accepted respond call for its
      request said; to nothing at all when there is no request, or when the array is larger than a message may be.
      Only the latter can close the connection. */
  lemma BatchAnswered(s: State, items: seq<Json>, others: seq<Outside>, limit: nat, actions: seq<Action>)
    requires s.effects == [] && |items| < FINISHED_BIT && AllSmooth(actions)
    requires Walk(s, items, others).1 == BatchDispatch.Ending.Finished(None)
    ensures var job := JobOf(Walk(s, items, others), limit);
      Quiet(Run(job, actions)) ==> AllAnswered(job, actions, Run(job, actions), Requests(items))
  {
    var job := JobOf(Walk(s, items, others), limit);
    CleanWalk(s, items, others, limit);
    if Quiet(Run(job, actions)) {
      SmoothIsAnswered(job, actions);
    }
  }

  /** When the connection is found closed between members, by the doing of a member or of anyone else, nothing is
      ever written for the batch, not even for requests that were answered. */
  lemma BatchCutShort(s: State, items: seq<Json>, others: seq<Outside>, limit: nat, actions: seq<Action>)
    requires s.effects == [] && |items| < FINISHED_BIT
    requires Walk(s, items, others).1 == BatchDispatch.Ending.Dropped
    ensures Run(JobOf(Walk(s, items, others), limit), actions).written == []
  {
    WalkLeadsTo(s, items, others, limit);
    CutShortWritesNothing(JobOf(Walk(s, items, others), limit), actions);
  }

  /** A request and a notification that finds its queue full: the batch closes the connection by itself. */
  lemma OverflowCutsShort(requests: Queue, request: Json, notification: Json, others: seq<Outside>)
    requires Classify(request).Request? && Classify(notification).Notification?
    requires others == [Outside(false, requests, Queue(0, true))]
    ensures var s := State(requests, Queue(0, true), false, []);
      Walk(s, [request, notification], others).1 == BatchDispatch.Ending.Dropped
  {
    var items := [request, notification];
    assert items[1..] == [notification];
  }
}
