/** What every step of the writer keeps: counts, entries, the one flush, and why a crossing went unseen. */
module BatchInvariant {
  import opened Basics
  import opened Bytes
  import opened RequestIds
  import opened BatchDispatch
  import opened BatchWriter

  // ---- Counting slots ----

  predicate IsActive(slot: Slot) {
    slot.Held? || slot.Claimed? || slot.Admitted? || slot.Pushed?
  }

  /** How many slots are not complete. */
  function Active(slots: seq<Slot>): (n: nat)
    ensures n <= |slots|
  {
    if slots == [] then 0
    else Active(slots[..|slots| - 1]) + if IsActive(slots[|slots| - 1]) then 1 else 0
  }

  lemma {:induction false} ActiveUpdate(slots: seq<Slot>, i: nat, x: Slot)
    requires i < |slots|
    ensures Active(slots[i := x]) + (if IsActive(slots[i]) then 1 else 0)
         == Active(slots) + (if IsActive(x) then 1 else 0)
  {
    var n := |slots| - 1;
    if i < n {
      ActiveUpdate(slots[..n], i, x);
      assert slots[i := x][..n] == slots[..n][i := x];
    } else {
      assert slots[i := x][..n] == slots[..n];
    }
  }

  lemma ActiveGrows(slots: seq<Slot>)
    ensures Active(slots + [Held]) == Active(slots) + 1
  {
    assert (slots + [Held])[..|slots|] == slots;
  }

  lemma {:induction false} ActiveCounts(slots: seq<Slot>, i: nat)
    requires i < |slots| && IsActive(slots[i])
    ensures Active(slots) > 0
  {
    if i < |slots| - 1 {
      ActiveCounts(slots[..|slots| - 1], i);
    }
  }

  lemma {:induction false} NoneActive(slots: seq<Slot>)
    requires forall i :: 0 <= i < |slots| ==> !IsActive(slots[i])
    ensures Active(slots) == 0
  {
    if slots != [] {
      NoneActive(slots[..|slots| - 1]);
    }
  }

  // ---- The invariant: counts ----

  predicate IsFinished(reader: Reader) {
    reader.Ending? || reader.Refusing? || reader.Done?
  }

  /** The word is the number of incomplete slots, and the finished bit. */
  ghost predicate WordRight(word: u64, active: nat, finished: bool) {
    && active < FINISHED_BIT
    && word == active + if finished then FINISHED_BIT else 0
  }

  /** The packed word tells the last slot of a finished batch from all others. */
  lemma LastOneExact(word: u64, active: nat, finished: bool)
    requires WordRight(word, active, finished)
    ensures LastOne(word) <==> active == 1 && finished
    ensures Pending(word) == active
  {
    if finished {
      assert word == 1 * FINISHED_BIT + active;
    }
  }

  /** One step crosses to finished with nothing pending, and no more. */
  ghost predicate CrossRight(crossings: seq<Crossing>, active: nat, finished: bool) {
    |crossings| == if finished && active == 0 then 1 else 0
  }

  /** A slot is completed once, when it stops being active. */
  ghost predicate CompletedRight(completed: seq<nat>, slots: seq<Slot>) {
    && (forall k, l :: 0 <= k < l < |completed| ==> completed[k] != completed[l])
    && (forall i: nat :: i in completed <==> i < |slots| && !IsActive(slots[i]))
  }

  function ReservedIds(orders: seq<Order>): seq<Id> {
    if orders == [] then []
    else ReservedIds(orders[..|orders| - 1]) + if orders[|orders| - 1].Reserve? then [orders[|orders| - 1].id] else []
  }

  /** The slots are those of the reader's orders so far, and a finished reader has carried out all. */
  ghost predicate OrdersRight(due: seq<Order>, next: nat, ids: seq<Id>, slots: nat, finished: bool) {
    && |due| < FINISHED_BIT
    && next <= |due|
    && ids == ReservedIds(due[..next])
    && slots == |ids| <= next
    && (finished ==> next == |due|)
  }

  ghost predicate TotalsRight(word: u64, crossings: seq<Crossing>, active: nat, finished: bool) {
    WordRight(word, active, finished) && CrossRight(crossings, active, finished)
  }

  ghost predicate Counts(s: Batch) {
    && OrdersRight(s.job.due, s.next, s.ids, |s.slots|, IsFinished(s.reader))
    && TotalsRight(s.word, s.crossings, Active(s.slots), IsFinished(s.reader))
    && CompletedRight(s.completed, s.slots)
  }

  /** A counted batch has counts that depend on nothing else. */
  lemma SameCounts(s: Batch, t: Batch)
    requires Counts(s)
    requires t.job.due == s.job.due && t.next == s.next && t.ids == s.ids && t.slots == s.slots
    requires IsFinished(t.reader) == IsFinished(s.reader)
    requires t.word == s.word && t.crossings == s.crossings && t.completed == s.completed
    ensures Counts(t)
  {
  }

  lemma TotalsReserve(word: u64, crossings: seq<Crossing>, slots: seq<Slot>)
    requires TotalsRight(word, crossings, Active(slots), false) && |slots| + 1 < FINISHED_BIT
    ensures TotalsRight(FetchAdd(word), crossings, Active(slots + [Held]), false)
  {
    ActiveGrows(slots);
  }

  lemma CompletedReserve(completed: seq<nat>, slots: seq<Slot>)
    requires CompletedRight(completed, slots)
    ensures CompletedRight(completed, slots + [Held])
  {
  }

  lemma OrdersTaken(due: seq<Order>, next: nat)
    requires next < |due|
    ensures ReservedIds(due[..next + 1])
         == ReservedIds(due[..next]) + if due[next].Reserve? then [due[next].id] else []
  {
    assert due[..next + 1][..next] == due[..next];
  }

  lemma ReserveCounts(s: Batch)
    requires Counts(s) && ReaderEnabled(s, ReserveSlot)
    ensures Counts(ReaderNext(s, ReserveSlot))
  {
    OrdersTaken(s.job.due, s.next);
    TotalsReserve(s.word, s.crossings, s.slots);
    CompletedReserve(s.completed, s.slots);
  }

  lemma AdmitSayCounts(s: Batch)
    requires Counts(s) && ReaderEnabled(s, AdmitSay)
    ensures Counts(ReaderNext(s, AdmitSay))
  {
    OrdersTaken(s.job.due, s.next);
    assert s.ids + [] == s.ids;
  }

  lemma FinishCounts(s: Batch)
    requires Counts(s) && ReaderEnabled(s, Finish)
    ensures Counts(ReaderNext(s, Finish))
    ensures s.crossings == [] && (Pending(s.word) == 0 <==> Active(s.slots) == 0)
  {
    LastOneExact(s.word, Active(s.slots), false);
  }

  lemma ReaderCounts(s: Batch, step: ReaderStep)
    requires Counts(s) && ReaderEnabled(s, step)
    ensures Counts(ReaderNext(s, step))
  {
    match step
    case ReserveSlot => ReserveCounts(s);
    case AdmitSay => AdmitSayCounts(s);
    case PushSay(text) => SameCounts(s, ReaderNext(s, step));
    case Finish => FinishCounts(s);
    case CloseRefused => SameCounts(s, ReaderNext(s, step));
    case FindClosed => SameCounts(s, ReaderNext(s, step));
    case Stop => SameCounts(s, ReaderNext(s, step));
  }

  lemma CompletedUpdate(completed: seq<nat>, slots: seq<Slot>, i: nat, x: Slot)
    requires CompletedRight(completed, slots) && i < |slots|
    ensures IsActive(x) == IsActive(slots[i]) ==> CompletedRight(completed, slots[i := x])
    ensures IsActive(slots[i]) && !IsActive(x) ==> CompletedRight(completed + [i], slots[i := x])
  {
  }

  /** A slot that stays active, or stays complete, changes no count. */
  lemma StayCounts(s: Batch, i: nat, x: Slot)
    requires Counts(s) && i < |s.slots| && IsActive(x) == IsActive(s.slots[i])
    ensures Counts(s.(slots := s.slots[i := x]))
  {
    ActiveUpdate(s.slots, i, x);
    CompletedUpdate(s.completed, s.slots, i, x);
  }

  /** A completion: the word goes down by one, and it is the crossing exactly when it was the last. */
  lemma CompletionCounts(s: Batch, i: nat, x: Slot, crossing: Crossing)
    requires Counts(s) && i < |s.slots| && IsActive(s.slots[i]) && !IsActive(x)
    ensures s.crossings == [] && Counts(CompleteSlot(s, i, x, crossing))
    ensures LastOne(s.word) <==> Active(s.slots) == 1 && IsFinished(s.reader)
  {
    ActiveCounts(s.slots, i);
    LastOneExact(s.word, Active(s.slots), IsFinished(s.reader));
    ActiveUpdate(s.slots, i, x);
    CompletedUpdate(s.completed, s.slots, i, x);
  }

  lemma MoveCounts(s: Batch, i: nat, step: SlotStep)
    requires Counts(s) && SlotEnabled(s, i, step) && (step.Claim? || (step.Admit? && !s.closed))
    ensures Counts(SlotNext(s, i, step))
  {
    StayCounts(s, i, if step.Claim? then Claimed(step.text) else Admitted(s.slots[i].text));
  }

  lemma PushCounts(s: Batch, i: nat)
    requires Counts(s) && SlotEnabled(s, i, Push)
    ensures Counts(SlotNext(s, i, Push))
  {
    var x := Pushed(s.slots[i].text);
    StayCounts(s, i, x);
    SameCounts(s.(slots := s.slots[i := x]), SlotNext(s, i, Push));
  }

  lemma CloseForItCounts(s: Batch, i: nat)
    requires Counts(s) && SlotEnabled(s, i, CloseForIt)
    ensures Counts(SlotNext(s, i, CloseForIt))
  {
    StayCounts(s, i, GivenUp);
    SameCounts(s.(slots := s.slots[i := GivenUp]), SlotNext(s, i, CloseForIt));
  }

  lemma GiveUpCounts(s: Batch, i: nat, step: SlotStep)
    requires Counts(s) && SlotEnabled(s, i, step)
    requires step.Abandon? || step.TimeOut? || (step.Admit? && s.closed)
    ensures Counts(SlotNext(s, i, step))
  {
    CompletionCounts(s, i, if step.TimeOut? then TimedOut else GivenUp, Unseen);
  }

  lemma CompleteCounts(s: Batch, i: nat)
    requires Counts(s) && SlotEnabled(s, i, Complete)
    ensures Counts(SlotNext(s, i, Complete))
  {
    var text := s.slots[i].text;
    CompletionCounts(s, i, if LastOne(s.word) then Flushing(text, AtGate) else Answered(text), Looked);
  }

  lemma SlotCounts(s: Batch, i: nat, step: SlotStep)
    requires Counts(s) && SlotEnabled(s, i, step)
    ensures Counts(SlotNext(s, i, step))
  {
    match step
    case Claim(_) => MoveCounts(s, i, step);
    case Admit => if s.closed { GiveUpCounts(s, i, step); } else { MoveCounts(s, i, step); }
    case Push => PushCounts(s, i);
    case Complete => CompleteCounts(s, i);
    case Abandon => GiveUpCounts(s, i, step);
    case TimeOut => GiveUpCounts(s, i, step);
    case CloseForIt => CloseForItCounts(s, i);
  }

  lemma GoOnCounts(s: Batch, who: Who, flush: Flush)
    requires Counts(s) && FlushOf(s.slots, s.reader, who).Some?
    ensures Counts(GoOn(s, who, flush))
  {
    match who
    case TheReader => SameCounts(s, GoOn(s, who, flush));
    case Responder(i) => StayCounts(s, i, Flushing(s.slots[i].text, flush));
  }

  lemma LeaveCounts(s: Batch, who: Who, next: Reader)
    requires Counts(s) && FlushOf(s.slots, s.reader, who).Some? && IsFinished(next)
    ensures Counts(Leave(s, who, next))
  {
    match who
    case TheReader => SameCounts(s, Leave(s, who, next));
    case Responder(i) => StayCounts(s, i, Answered(s.slots[i].text));
  }

  lemma FlushStartCounts(s: Batch, who: Who, step: FlushStep)
    requires Counts(s) && FlushEnabled(s, who, step) && (step.Gate? || step.TakeAll?)
    ensures Counts(FlushNext(s, who, step))
  {
    var after := FlushNext(s, who, step);
    match step
    case Gate =>
      if s.flushed {
        LeaveCounts(s, who, AfterBatch(s.job, true));
      } else {
        GoOnCounts(s, who, Taking);
        SameCounts(GoOn(s, who, Taking), after);
      }
    case TakeAll =>
      if s.responses == [] {
        LeaveCounts(s, who, AfterBatch(s.job, true));
      } else {
        GoOnCounts(s, who, Writing(s.responses));
        SameCounts(GoOn(s, who, Writing(s.responses)), after);
      }
  }

  lemma AdmitWriteCounts(s: Batch, who: Who)
    requires Counts(s) && FlushEnabled(s, who, AdmitWrite)
    ensures Counts(FlushNext(s, who, AdmitWrite))
  {
    LeaveCounts(s, who, AfterBatch(s.job, false));
    GoOnCounts(s, who, Sending(FlushOf(s.slots, s.reader, who).value.batch));
  }

  lemma FlushEndCounts(s: Batch, who: Who, step: FlushStep)
    requires Counts(s) && FlushEnabled(s, who, step) && !(step.Gate? || step.TakeAll? || step.AdmitWrite?)
    ensures Counts(FlushNext(s, who, step))
  {
    var after := FlushNext(s, who, step);
    match step
    case Write(ok) =>
      if ok {
        LeaveCounts(s, who, AfterBatch(s.job, true));
        SameCounts(Leave(s, who, AfterBatch(s.job, true)), after);
      } else {
        GoOnCounts(s, who, Failed);
      }
    case Vanish => LeaveCounts(s, who, AfterBatch(s.job, true));
    case CloseForFailure =>
      LeaveCounts(s, who, AfterBatch(s.job, false));
      SameCounts(Leave(s, who, AfterBatch(s.job, false)), after);
    case Lose =>
      LeaveCounts(s, who, Done);
      SameCounts(Leave(s, who, Done), after);
  }

  lemma FlushCounts(s: Batch, who: Who, step: FlushStep)
    requires Counts(s) && FlushEnabled(s, who, step)
    ensures Counts(FlushNext(s, who, step))
  {
    if step.Gate? || step.TakeAll? {
      FlushStartCounts(s, who, step);
    } else if step.AdmitWrite? {
      AdmitWriteCounts(s, who);
    } else {
      FlushEndCounts(s, who, step);
    }
  }

  // ---- The invariant: entries ----

  predicate HasPushed(slot: Slot) {
    slot.Pushed? || slot.Flushing? || slot.Answered?
  }

  /** One entry for each slot that has pushed, with that slot's text, and none for others. */
  ghost predicate EntriesRight(pushed: seq<Entry>, slots: seq<Slot>) {
    && (forall e :: e in pushed && e.FromSlot? ==>
         e.i < |slots| && HasPushed(slots[e.i]) && slots[e.i].text == e.text)
    && (forall k, l :: 0 <= k < l < |pushed| && pushed[k].FromSlot? && pushed[l].FromSlot? ==>
         pushed[k].i != pushed[l].i)
    && (forall i :: 0 <= i < |slots| && HasPushed(slots[i]) ==> FromSlot(i, slots[i].text) in pushed)
  }

  lemma EntriesReserve(pushed: seq<Entry>, slots: seq<Slot>)
    requires EntriesRight(pushed, slots)
    ensures EntriesRight(pushed, slots + [Held])
  {
  }

  lemma EntriesSay(pushed: seq<Entry>, slots: seq<Slot>, e: Entry)
    requires EntriesRight(pushed, slots) && e.FromReader?
    ensures EntriesRight(pushed + [e], slots)
  {
  }

  lemma EntriesUpdate(pushed: seq<Entry>, slots: seq<Slot>, i: nat, x: Slot)
    requires EntriesRight(pushed, slots) && i < |slots|
    requires HasPushed(x) <==> HasPushed(slots[i])
    requires HasPushed(x) ==> x.text == slots[i].text
    ensures EntriesRight(pushed, slots[i := x])
  {
  }

  lemma EntriesPush(pushed: seq<Entry>, slots: seq<Slot>, i: nat, text: Bytes)
    requires EntriesRight(pushed, slots) && i < |slots| && !HasPushed(slots[i])
    ensures EntriesRight(pushed + [FromSlot(i, text)], slots[i := Pushed(text)])
  {
    var after := pushed + [FromSlot(i, text)];
    assert after[|pushed|] == FromSlot(i, text);
    assert forall j | 0 <= j < |slots| && j != i && HasPushed(slots[j]) :: FromSlot(j, slots[j].text) in pushed;
    assert forall k | 0 <= k < |pushed| && pushed[k].FromSlot? :: pushed[k] in pushed && pushed[k].i != i;
  }

  lemma SlotEntries(s: Batch, i: nat, step: SlotStep)
    requires EntriesRight(s.pushed, s.slots) && SlotEnabled(s, i, step)
    ensures EntriesRight(SlotNext(s, i, step).pushed, SlotNext(s, i, step).slots)
  {
    if step.Push? {
      EntriesPush(s.pushed, s.slots, i, s.slots[i].text);
    } else {
      EntriesUpdate(s.pushed, s.slots, i, SlotNext(s, i, step).slots[i]);
    }
  }

  lemma FlushEntries(s: Batch, who: Who, step: FlushStep)
    requires EntriesRight(s.pushed, s.slots) && FlushEnabled(s, who, step)
    ensures EntriesRight(FlushNext(s, who, step).pushed, FlushNext(s, who, step).slots)
  {
    var after := FlushNext(s, who, step);
    FlushKeepsShape(s, who, step);
    if who.Responder? {
      EntriesUpdate(s.pushed, s.slots, who.i, after.slots[who.i]);
    }
  }

  // ---- The invariant: flushes ----

  ghost predicate Nobody(slots: seq<Slot>, reader: Reader) {
    && !reader.Ending?
    && forall i :: 0 <= i < |slots| ==> !slots[i].Flushing?
  }

  /** Nobody but who is flushing. */
  ghost predicate Only(slots: seq<Slot>, reader: Reader, who: Who) {
    && (who != TheReader ==> !reader.Ending?)
    && forall i :: 0 <= i < |slots| && who != Responder(i) ==> !slots[i].Flushing?
  }

  /** What the buffer holds while a process is flushing. */
  ghost predicate FlushRight(flush: Flush, flushed: bool, responses: seq<Entry>, pushed: seq<Entry>,
                             written: seq<seq<Entry>>, limit: nat) {
    && written == []
    && match flush
       case AtGate => !flushed && responses == pushed
       case Taking => flushed && responses == pushed
       case Writing(batch) => flushed && responses == [] && batch == pushed && pushed != []
       case Sending(batch) =>
         flushed && responses == [] && batch == pushed && pushed != [] && !TooLong(pushed, limit)
       case Failed => flushed && responses == [] && pushed != []
  }

  /** Before the crossing the buffer holds everything, and nothing was written. */
  ghost predicate Fresh(written: seq<seq<Entry>>, flushed: bool, responses: seq<Entry>, pushed: seq<Entry>,
                        lost: bool) {
    written == [] && !flushed && responses == pushed && !lost
  }

  /** After a flush everything was written, or something says why not. */
  ghost predicate Over(written: seq<seq<Entry>>, pushed: seq<Entry>, limit: nat, closed: bool, lost: bool) {
    || (written == [pushed] && pushed != [] && !TooLong(pushed, limit) && !lost)
    || (written == [] && (pushed == [] || closed || lost || TooLong(pushed, limit)))
  }

  /** The process is flushing, alone, after a step that saw the batch complete. */
  ghost predicate FlushedBy(s: Batch, who: Who) {
    && Only(s.slots, s.reader, who) && FlushOf(s.slots, s.reader, who).Some?
    && s.crossings == [Looked] && !s.lost
    && FlushRight(FlushOf(s.slots, s.reader, who).value, s.flushed, s.responses, s.pushed, s.written, s.job.limit)
  }

  /** Nobody has begun to flush. */
  ghost predicate Untouched(s: Batch) {
    && s.crossings != [Looked]
    && Nobody(s.slots, s.reader)
    && Fresh(s.written, s.flushed, s.responses, s.pushed, s.lost)
  }

  /** The one flush is over. */
  ghost predicate Settled(s: Batch) {
    && s.crossings == [Looked]
    && Nobody(s.slots, s.reader)
    && Over(s.written, s.pushed, s.job.limit, s.closed, s.lost)
  }

  ghost predicate Flushes(s: Batch) {
    Untouched(s) || Settled(s) || exists who :: FlushedBy(s, who)
  }

  lemma NotYetFlushed(s: Batch)
    requires Flushes(s) && s.crossings != [Looked]
    ensures Untouched(s)
  {
  }

  lemma TheFlusher(s: Batch, who: Who)
    requires Flushes(s) && FlushOf(s.slots, s.reader, who).Some?
    ensures FlushedBy(s, who)
  {
    var other :| FlushedBy(s, other);
    assert other == who;
  }

  /** Before finish: nobody flushes. */
  lemma UnfinishedFlushes(s: Batch, step: ReaderStep)
    requires Untouched(s) && ReaderEnabled(s, step) && !step.Finish? && !step.CloseRefused?
    ensures Untouched(ReaderNext(s, step))
  {
  }

  lemma FinishFlushes(s: Batch)
    requires Untouched(s) && ReaderEnabled(s, Finish) && s.crossings == []
    ensures Flushes(ReaderNext(s, Finish))
  {
    var after := ReaderNext(s, Finish);
    if Pending(s.word) == 0 {
      assert FlushedBy(after, TheReader);
    } else {
      assert Untouched(after);
    }
  }

  lemma CloseFlushes(s: Batch)
    requires Flushes(s)
    ensures Flushes(s.(closed := true))
  {
    var after := s.(closed := true);
    if who :| FlushedBy(s, who) {
      assert FlushedBy(after, who);
    } else {
      assert Untouched(after) || Settled(after);
    }
  }

  lemma CloseRefusedFlushes(s: Batch)
    requires Flushes(s) && s.reader == Refusing
    ensures Flushes(s.(closed := true, reader := Done))
  {
    var after := s.(closed := true, reader := Done);
    if who :| FlushedBy(s, who) {
      assert FlushedBy(after, who);
    } else {
      assert Untouched(after) || Settled(after);
    }
  }

  /** A slot that is not flushing moves on before the crossing. */
  lemma SlotMoveFlushes(s: Batch, i: nat, x: Slot)
    requires Untouched(s) && i < |s.slots| && !x.Flushing?
    ensures Untouched(s.(slots := s.slots[i := x]))
  {
  }

  lemma PushFlushes(s: Batch, i: nat)
    requires Untouched(s) && SlotEnabled(s, i, Push)
    ensures Untouched(SlotNext(s, i, Push))
  {
  }

  lemma CompletionFlushes(s: Batch, i: nat, x: Slot, crossing: Crossing)
    requires Untouched(s) && s.crossings == [] && i < |s.slots|
    requires if LastOne(s.word) && crossing == Looked then x.Flushing? && x.flush == AtGate else !x.Flushing?
    ensures Flushes(CompleteSlot(s, i, x, crossing))
  {
    var after := CompleteSlot(s, i, x, crossing);
    if LastOne(s.word) && crossing == Looked {
      assert FlushedBy(after, Responder(i));
    } else {
      assert after.crossings != [] ==> after.crossings[0] == Unseen;
    }
  }

  /** A timed-out slot closes the connection, whatever else goes on. */
  lemma CloseForItFlushes(s: Batch, i: nat)
    requires Flushes(s) && SlotEnabled(s, i, CloseForIt)
    ensures Flushes(SlotNext(s, i, CloseForIt))
  {
    var after := SlotNext(s, i, CloseForIt);
    if who :| FlushedBy(s, who) {
      assert FlushedBy(after, who);
    } else {
      assert Untouched(after) || Settled(after);
    }
  }

  lemma SlotFlushes(s: Batch, i: nat, step: SlotStep)
    requires Flushes(s) && SlotEnabled(s, i, step)
    requires IsActive(s.slots[i]) ==> s.crossings == []
    ensures Flushes(SlotNext(s, i, step))
  {
    if step.CloseForIt? {
      CloseForItFlushes(s, i);
    } else {
      NotYetFlushed(s);
      var x := SlotNext(s, i, step).slots[i];
      if step.Push? {
        PushFlushes(s, i);
      } else if IsActive(x) {
        SlotMoveFlushes(s, i, x);
      } else {
        CompletionFlushes(s, i, x, if step.Complete? then Looked else Unseen);
      }
    }
  }

  lemma GoOnAlone(s: Batch, who: Who, flush: Flush)
    requires Only(s.slots, s.reader, who) && FlushOf(s.slots, s.reader, who).Some?
    ensures var after := GoOn(s, who, flush);
      && Only(after.slots, after.reader, who)
      && FlushOf(after.slots, after.reader, who) == Some(flush)
      && after == s.(slots := after.slots, reader := after.reader)
  {
  }

  lemma LeaveAlone(s: Batch, who: Who, next: Reader)
    requires Only(s.slots, s.reader, who) && FlushOf(s.slots, s.reader, who).Some? && !next.Ending?
    ensures var after := Leave(s, who, next);
      && Nobody(after.slots, after.reader)
      && after == s.(slots := after.slots, reader := after.reader)
  {
  }

  /** Winning the flag, taking the buffer, passing the checks and failing all keep the entries in hand. */
  lemma GoOnFlushes(s: Batch, who: Who, step: FlushStep)
    requires FlushedBy(s, who) && FlushEnabled(s, who, step)
    requires FlushOf(FlushNext(s, who, step).slots, FlushNext(s, who, step).reader, who).Some?
    ensures FlushedBy(FlushNext(s, who, step), who)
  {
    var after := FlushNext(s, who, step);
    GoOnAlone(s, who, FlushOf(after.slots, after.reader, who).value);
  }

  /** The array goes out whole, or something says why not: the connection, its size, or the one who gave up. */
  lemma LeaveFlushes(s: Batch, who: Who, step: FlushStep)
    requires FlushedBy(s, who) && FlushEnabled(s, who, step)
    requires FlushOf(FlushNext(s, who, step).slots, FlushNext(s, who, step).reader, who).None?
    ensures Settled(FlushNext(s, who, step))
  {
    var after := FlushNext(s, who, step);
    LeaveAlone(s, who, if after.reader.Done? then Done else Refusing);
  }

  lemma FlushFlushes(s: Batch, who: Who, step: FlushStep)
    requires Flushes(s) && FlushEnabled(s, who, step)
    ensures Flushes(FlushNext(s, who, step))
  {
    TheFlusher(s, who);
    var after := FlushNext(s, who, step);
    if FlushOf(after.slots, after.reader, who).Some? {
      GoOnFlushes(s, who, step);
    } else {
      LeaveFlushes(s, who, step);
    }
  }

  // ---- The invariant: unseen crossings ----

  /** Only a slot that was given up can make the word cross unseen. */
  ghost predicate UnseenRight(crossings: seq<Crossing>, slots: seq<Slot>) {
    Unseen in crossings ==> exists i :: 0 <= i < |slots| && (slots[i].GivenUp? || slots[i].TimedOut?)
  }

  lemma UnseenStays(crossings: seq<Crossing>, slots: seq<Slot>, i: nat, x: Slot)
    requires UnseenRight(crossings, slots) && i < |slots|
    requires slots[i].GivenUp? || slots[i].TimedOut? ==> x.GivenUp?
    ensures UnseenRight(crossings, slots[i := x])
  {
    if j :| 0 <= j < |slots| && (slots[j].GivenUp? || slots[j].TimedOut?) {
      assert slots[i := x][j].GivenUp? || slots[i := x][j].TimedOut?;
    }
  }

  lemma SlotUnseen(s: Batch, i: nat, step: SlotStep)
    requires UnseenRight(s.crossings, s.slots) && SlotEnabled(s, i, step)
    ensures UnseenRight(SlotNext(s, i, step).crossings, SlotNext(s, i, step).slots)
  {
    var after := SlotNext(s, i, step);
    UnseenStays(s.crossings, s.slots, i, after.slots[i]);
    assert after.slots == s.slots[i := after.slots[i]];
    if after.slots[i].GivenUp? || after.slots[i].TimedOut? {
    } else {
      assert Unseen in after.crossings ==> Unseen in s.crossings;
    }
  }

  lemma ReaderUnseen(s: Batch, step: ReaderStep)
    requires UnseenRight(s.crossings, s.slots) && ReaderEnabled(s, step)
    ensures UnseenRight(ReaderNext(s, step).crossings, ReaderNext(s, step).slots)
  {
    var after := ReaderNext(s, step);
    assert Unseen in after.crossings ==> Unseen in s.crossings;
    assert forall i :: 0 <= i < |s.slots| ==> after.slots[i] == s.slots[i];
  }

  lemma FlushUnseen(s: Batch, who: Who, step: FlushStep)
    requires UnseenRight(s.crossings, s.slots) && FlushEnabled(s, who, step)
    ensures UnseenRight(FlushNext(s, who, step).crossings, FlushNext(s, who, step).slots)
  {
    var after := FlushNext(s, who, step);
    FlushKeepsShape(s, who, step);
    if who.Responder? {
      UnseenStays(s.crossings, s.slots, who.i, after.slots[who.i]);
    }
  }

  // ---- Every step, and every run ----

  ghost predicate Inv(s: Batch) {
    && Counts(s)
    && EntriesRight(s.pushed, s.slots)
    && Flushes(s)
    && UnseenRight(s.crossings, s.slots)
  }

  /** An active slot is why the word has not come to zero. */
  lemma NotCrossed(s: Batch, i: nat)
    requires Counts(s) && i < |s.slots| && IsActive(s.slots[i])
    ensures Active(s.slots) > 0 && s.crossings == []
  {
    ActiveCounts(s.slots, i);
  }

  lemma ReaderFlushes(s: Batch, step: ReaderStep)
    requires Flushes(s) && ReaderEnabled(s, step)
    requires !IsFinished(s.reader) ==> s.crossings == []
    ensures Flushes(ReaderNext(s, step))
  {
    if step.CloseRefused? {
      CloseRefusedFlushes(s);
    } else {
      NotYetFlushed(s);
      if step.Finish? {
        FinishFlushes(s);
      } else {
        UnfinishedFlushes(s, step);
      }
    }
  }

  lemma ReaderEntries(s: Batch, step: ReaderStep)
    requires EntriesRight(s.pushed, s.slots) && ReaderEnabled(s, step)
    ensures EntriesRight(ReaderNext(s, step).pushed, ReaderNext(s, step).slots)
  {
    if step.ReserveSlot? {
      EntriesReserve(s.pushed, s.slots);
    } else if step.PushSay? {
      EntriesSay(s.pushed, s.slots, FromReader(s.reader.to, step.text));
    }
  }

  lemma UnfinishedCounts(s: Batch)
    requires Counts(s)
    ensures !IsFinished(s.reader) ==> s.crossings == []
  {
  }

  lemma ReaderStepKeeps(s: Batch, step: ReaderStep)
    requires Inv(s) && ReaderEnabled(s, step)
    ensures Inv(ReaderNext(s, step))
  {
    UnfinishedCounts(s);
    ReaderCounts(s, step);
    ReaderEntries(s, step);
    ReaderFlushes(s, step);
    ReaderUnseen(s, step);
  }

  lemma SlotStepKeeps(s: Batch, i: nat, step: SlotStep)
    requires Inv(s) && SlotEnabled(s, i, step)
    ensures Inv(SlotNext(s, i, step))
  {
    if IsActive(s.slots[i]) {
      NotCrossed(s, i);
    }
    SlotCounts(s, i, step);
    SlotEntries(s, i, step);
    SlotFlushes(s, i, step);
    SlotUnseen(s, i, step);
  }

  lemma FlushStepKeeps(s: Batch, who: Who, step: FlushStep)
    requires Inv(s) && FlushEnabled(s, who, step)
    ensures Inv(FlushNext(s, who, step))
  {
    FlushCounts(s, who, step);
    FlushEntries(s, who, step);
    FlushFlushes(s, who, step);
    FlushUnseen(s, who, step);
  }

  lemma CloseKeeps(s: Batch)
    requires Inv(s)
    ensures Inv(s.(closed := true))
  {
    SameCounts(s, s.(closed := true));
    CloseFlushes(s);
  }

  lemma StepKeeps(s: Batch, a: Action)
    requires Inv(s)
    ensures Inv(Next(s, a))
  {
    match a
    case ByReader(step) => if ReaderEnabled(s, step) { ReaderStepKeeps(s, step); }
    case BySlot(i, step) => if SlotEnabled(s, i, step) { SlotStepKeeps(s, i, step); }
    case ByFlush(who, step) => if FlushEnabled(s, who, step) { FlushStepKeeps(s, who, step); }
    case Close => CloseKeeps(s);
  }

  lemma {:induction false} RunFromKeeps(s: Batch, actions: seq<Action>)
    requires Inv(s)
    ensures Inv(RunFrom(s, actions))
    decreases |actions|
  {
    if actions != [] {
      var before := RunFrom(s, actions[..|actions| - 1]);
      RunFromKeeps(s, actions[..|actions| - 1]);
      StepKeeps(before, actions[|actions| - 1]);
    }
  }

  lemma StartKeeps(job: Job)
    requires |job.due| < FINISHED_BIT
    ensures Inv(Start(job))
  {
  }

  lemma RunKeeps(job: Job, actions: seq<Action>)
    requires |job.due| < FINISHED_BIT
    ensures Inv(Run(job, actions))
  {
    StartKeeps(job);
    RunFromKeeps(Start(job), actions);
  }
}
