/** The writer of a batch's replies comes to an end: no run goes on for ever, and none gets stuck. */
module BatchProgress {
  import opened BatchWriter

  predicate Enabled(s: Batch, a: Action) {
    match a
    case ByReader(step) => ReaderEnabled(s, step)
    case BySlot(i, step) => SlotEnabled(s, i, step)
    case ByFlush(who, step) => FlushEnabled(s, who, step)
    case Close => !s.closed
  }

  /** What is left to do at most, by phase. */
  function FlushRank(flush: Flush): (n: nat)
    ensures 0 < n <= 5
  {
    match flush
    case AtGate => 5
    case Taking => 4
    case Writing(_) => 3
    case Sending(_) => 2
    case Failed => 1
  }

  function SlotRank(slot: Slot): nat {
    match slot
    case Held => 9
    case Claimed(_) => 8
    case Admitted(_) => 7
    case Pushed(_) => 6
    case Flushing(_, flush) => FlushRank(flush)
    case TimedOut => 1
    case Answered(_) => 0
    case GivenUp => 0
  }

  function ReaderRank(reader: Reader): nat {
    match reader
    case Reading => 7
    case Saying(_) => 8
    case Ending(flush) => FlushRank(flush) + 1
    case Refusing => 1
    case Done => 0
    case Stopped => 0
  }

  function SlotRanks(slots: seq<Slot>): nat {
    if slots == [] then 0 else SlotRanks(slots[..|slots| - 1]) + SlotRank(slots[|slots| - 1])
  }

  function Rank(s: Batch): nat
    requires s.next <= |s.job.due|
  {
    10 * (|s.job.due| - s.next) + ReaderRank(s.reader) + SlotRanks(s.slots) + if s.closed then 0 else 1
  }

  lemma {:induction false} SlotRanksUpdate(slots: seq<Slot>, i: nat, x: Slot)
    requires i < |slots|
    ensures SlotRanks(slots[i := x]) + SlotRank(slots[i]) == SlotRanks(slots) + SlotRank(x)
  {
    var n := |slots| - 1;
    if i < n {
      SlotRanksUpdate(slots[..n], i, x);
      assert slots[i := x][..n] == slots[..n][i := x];
    } else {
      assert slots[i := x][..n] == slots[..n];
    }
  }

  lemma SlotRanksGrow(slots: seq<Slot>)
    ensures SlotRanks(slots + [Held]) == SlotRanks(slots) + 9
  {
    assert (slots + [Held])[..|slots|] == slots;
  }

  lemma ReserveDecreases(s: Batch)
    requires ReaderEnabled(s, ReserveSlot)
    ensures var after := ReaderNext(s, ReserveSlot);
      after.next <= |after.job.due| && Rank(after) < Rank(s)
  {
    SlotRanksGrow(s.slots);
  }

  lemma ReaderDecreases(s: Batch, step: ReaderStep)
    requires ReaderEnabled(s, step) && s.next <= |s.job.due|
    ensures var after := ReaderNext(s, step);
      after.next <= |after.job.due| && Rank(after) < Rank(s)
  {
    if step.ReserveSlot? {
      ReserveDecreases(s);
    } else {
      assert ReaderNext(s, step).slots == s.slots;
    }
  }

  lemma SlotDecreases(s: Batch, i: nat, step: SlotStep)
    requires SlotEnabled(s, i, step) && s.next <= |s.job.due|
    ensures var after := SlotNext(s, i, step);
      after.next == s.next && after.job == s.job && Rank(after) < Rank(s)
  {
    SlotMovesOn(s, i, step);
    SlotRanksUpdate(s.slots, i, SlotNext(s, i, step).slots[i]);
  }

  /** A step of a slot takes the slot, and nothing but the slot, further. */
  lemma SlotMovesOn(s: Batch, i: nat, step: SlotStep)
    requires SlotEnabled(s, i, step)
    ensures var after := SlotNext(s, i, step);
      && |after.slots| == |s.slots| && after.slots == s.slots[i := after.slots[i]]
      && SlotRank(after.slots[i]) < SlotRank(s.slots[i])
      && after.next == s.next && after.job == s.job && after.reader == s.reader && (s.closed ==> after.closed)
  {
  }

  /** What a move within or out of a flush leaves to do. */
  ghost predicate Less(s: Batch, after: Batch) {
    && after.next == s.next && after.job == s.job && after.closed == s.closed
    && s.next <= |s.job.due|
    && Rank(after) < Rank(s)
  }

  lemma GoOnDecreases(s: Batch, who: Who, flush: Flush)
    requires s.next <= |s.job.due| && FlushOf(s.slots, s.reader, who).Some?
    requires FlushRank(flush) < FlushRank(FlushOf(s.slots, s.reader, who).value)
    ensures Less(s, GoOn(s, who, flush))
  {
    if who.Responder? {
      SlotRanksUpdate(s.slots, who.i, GoOn(s, who, flush).slots[who.i]);
    }
  }

  lemma LeaveDecreases(s: Batch, who: Who, next: Reader)
    requires s.next <= |s.job.due| && FlushOf(s.slots, s.reader, who).Some? && (next == Done || next == Refusing)
    ensures Less(s, Leave(s, who, next))
  {
    if who.Responder? {
      SlotRanksUpdate(s.slots, who.i, Leave(s, who, next).slots[who.i]);
    }
  }

  lemma FlushDecreases(s: Batch, who: Who, step: FlushStep)
    requires FlushEnabled(s, who, step) && s.next <= |s.job.due|
    ensures var after := FlushNext(s, who, step);
      after.next == s.next && after.job == s.job && Rank(after) < Rank(s)
  {
    match step
    case Gate =>
      if s.flushed {
        LeaveDecreases(s, who, AfterBatch(s.job, true));
      } else {
        GoOnDecreases(s, who, Taking);
      }
    case TakeAll =>
      if s.responses == [] {
        LeaveDecreases(s, who, AfterBatch(s.job, true));
      } else {
        GoOnDecreases(s, who, Writing(s.responses));
      }
    case AdmitWrite =>
      LeaveDecreases(s, who, AfterBatch(s.job, false));
      GoOnDecreases(s, who, Sending(FlushOf(s.slots, s.reader, who).value.batch));
    case Write(ok) => if ok { LeaveDecreases(s, who, AfterBatch(s.job, true)); } else { GoOnDecreases(s, who, Failed); }
    case Vanish => LeaveDecreases(s, who, AfterBatch(s.job, true));
    case CloseForFailure => LeaveDecreases(s, who, AfterBatch(s.job, false));
    case Lose => LeaveDecreases(s, who, Done);
  }

  /** Every step that does anything leaves less to do. */
  lemma StepDecreases(s: Batch, a: Action)
    requires s.next <= |s.job.due|
    ensures Next(s, a).next <= |Next(s, a).job.due|
    ensures if Enabled(s, a) then Rank(Next(s, a)) < Rank(s) else Next(s, a) == s
  {
    match a
    case ByReader(step) => if ReaderEnabled(s, step) { ReaderDecreases(s, step); }
    case BySlot(i, step) => if SlotEnabled(s, i, step) { SlotDecreases(s, i, step); }
    case ByFlush(who, step) => if FlushEnabled(s, who, step) { FlushDecreases(s, who, step); }
    case Close =>
  }

  /** Every step of the run does something. */
  ghost predicate Busy(job: Job, actions: seq<Action>) {
    forall k :: 0 <= k < |actions| ==> Enabled(Run(job, actions[..k]), actions[k])
  }

  lemma BusyInit(job: Job, init: seq<Action>, a: Action)
    requires Busy(job, init + [a])
    ensures Busy(job, init) && Enabled(Run(job, init), a)
  {
    var actions := init + [a];
    assert forall k | 0 <= k < |init| :: actions[..k] == init[..k] && actions[k] == init[k];
    assert actions[..|init|] == init;
  }

  /** After n steps that did something, at least n less is left of what there was at the start. */
  predicate Spent(s: Batch, n: nat, orders: nat) {
    s.next <= |s.job.due| && Rank(s) + n <= 10 * orders + 8
  }

  lemma SpendsOne(s: Batch, a: Action, n: nat, orders: nat)
    requires Spent(s, n, orders) && Enabled(s, a)
    ensures Spent(Next(s, a), n + 1, orders)
  {
    StepDecreases(s, a);
  }

  lemma {:induction false} BusySpends(job: Job, actions: seq<Action>)
    requires Busy(job, actions)
    ensures Spent(Run(job, actions), |actions|, |job.due|)
    decreases |actions|
  {
    if actions != [] {
      var init, a := actions[..|actions| - 1], actions[|actions| - 1];
      assert actions == init + [a];
      BusyInit(job, init, a);
      BusySpends(job, init);
      SpendsOne(Run(job, init), a, |init|, |job.due|);
    }
  }

  /** No run does more than ten steps an order and eight more. */
  lemma RunsAreShort(job: Job, actions: seq<Action>)
    requires Busy(job, actions)
    ensures |actions| <= 10 * |job.due| + 8
  {
    BusySpends(job, actions);
  }

  /** Nobody else closes the connection, no call is dropped while it waits, no lock times out, no write fails,
      and none comes after a sink has taken the transport's place. */
  predicate Smooth(a: Action) {
    match a
    case ByReader(_) => true
    case BySlot(_, step) => !step.Abandon? && !step.TimeOut?
    case ByFlush(_, step) => !step.Lose? && !step.Vanish? && step != Write(false)
    case Close => false
  }

  predicate AllSmooth(actions: seq<Action>) {
    forall k :: 0 <= k < |actions| ==> Smooth(actions[k])
  }

  function FlushStepOf(flush: Flush): FlushStep {
    match flush
    case AtGate => Gate
    case Taking => TakeAll
    case Writing(_) => AdmitWrite
    case Sending(_) => Write(true)
    case Failed => CloseForFailure
  }

  function SlotStepOf(slot: Slot): SlotStep {
    match slot
    case Held => Claim([])
    case Claimed(_) => Admit
    case Admitted(_) => Push
    case TimedOut => CloseForIt
    case _ => Complete
  }

  function ReaderStepOf(s: Batch): ReaderStep {
    match s.reader
    case Reading =>
      if s.next >= |s.job.due| then (if s.job.ending.Finished? then Finish else if s.closed then Stop else FindClosed)
      else if s.job.due[s.next].Reserve? then ReserveSlot else AdmitSay
    case Saying(_) => PushSay([])
    case _ => CloseRefused
  }

  /** Until reader and responders are done, some process can go on, smoothly. */
  lemma NeverStuck(s: Batch) returns (a: Action)
    requires s.reader != Stopped && !Quiet(s)
    ensures Enabled(s, a) && Smooth(a) && (s.job.ending.Finished? ==> a != ByReader(Stop))
  {
    if s.reader.Ending? {
      a := ByFlush(TheReader, FlushStepOf(s.reader.flush));
    } else if s.reader != Done {
      a := ByReader(ReaderStepOf(s));
    } else {
      var i: nat :| i < |s.slots| && !s.slots[i].Answered? && !s.slots[i].GivenUp?;
      a := if s.slots[i].Flushing? then ByFlush(Responder(i), FlushStepOf(s.slots[i].flush))
           else BySlot(i, SlotStepOf(s.slots[i]));
    }
  }

  lemma StepStopsNobody(s: Batch, a: Action)
    requires a != ByReader(Stop)
    ensures Next(s, a).reader == Stopped ==> s.reader == Stopped
  {
    match a
    case ByReader(step) =>
    case BySlot(i, step) =>
    case ByFlush(who, step) => if FlushEnabled(s, who, step) { FlushKeepsShape(s, who, step); }
    case Close =>
  }

  /** From every state whose reader was not stopped and will finish, reader and responders can come to rest
      smoothly. */
  lemma {:induction false} RestIsReached(s: Batch) returns (actions: seq<Action>)
    requires s.next <= |s.job.due| && s.reader != Stopped && s.job.ending.Finished?
    ensures AllSmooth(actions) && Quiet(RunFrom(s, actions))
    decreases Rank(s)
  {
    actions := [];
    if !Quiet(s) {
      var a := NeverStuck(s);
      StepDecreases(s, a);
      StepStopsNobody(s, a);
      StepConstants(s, a);
      var rest := RestIsReached(Next(s, a));
      RunAppend(s, [a], rest);
      assert [a][..0] == [];
      actions := [a] + rest;
    }
  }
}
