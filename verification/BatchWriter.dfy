/** The writer of a batch's replies: a reader that reserves slots, responders that fill them, and one
    packed word that tells which of them is the last, interleaved one atomic step at a time. */
module BatchWriter {
  import opened Basics
  import opened Bytes
  import opened Sequences
  import opened Json
  import opened RequestIds
  import opened BatchDispatch

  // ---- The packed word ----

  const FINISHED_BIT: nat := 0x8000_0000_0000_0000
  const WORD: nat := 0x1_0000_0000_0000_0000

  function FetchAdd(word: u64): u64 {
    if word + 1 < WORD then word + 1 else 0
  }

  function FetchSub(word: u64): u64 {
    if word > 0 then word - 1 else WORD - 1
  }

  function FetchOr(word: u64): u64 {
    if word < FINISHED_BIT then word + FINISHED_BIT else word
  }

  function Pending(word: u64): nat {
    word % FINISHED_BIT
  }

  /** The word before a completion said that this was the last slot of a finished batch. */
  predicate LastOne(previous: u64) {
    Pending(previous) == 1 && previous >= FINISHED_BIT
  }

  // ---- State ----

  /** One member of the reply array: from the slot with an index, or the reader's own. */
  datatype Entry = FromSlot(i: nat, text: Bytes) | FromReader(to: Json, text: Bytes)

  /** How far a call of flush_once is. */
  datatype Flush =
    | AtGate
    | Taking
    | Writing(batch: seq<Entry>)  // the buffer is emptied
    | Sending(batch: seq<Entry>)  // the closed check and the size check let the array through
    | Failed                      // the write failed, the connection is closed next

  datatype Slot =
    | Held                        // nobody has responded yet
    | Claimed(text: Bytes)        // the one response was accepted
    | Admitted(text: Bytes)       // the closed check let it through
    | Pushed(text: Bytes)         // it is in the buffer
    | Flushing(text: Bytes, flush: Flush)
    | Answered(text: Bytes)       // it is in the buffer and its slot is complete
    | TimedOut                    // its slot is complete without it, the connection is closed next
    | GivenUp                     // its slot is complete without it

  datatype Reader =
    | Reading
    | Saying(to: Json)
    | Ending(flush: Flush)
    | Refusing                    // the batch or its flush failed, the connection is closed next
    | Done
    | Stopped                     // the connection was closed first

  /** A step that took the word to finished with nothing pending: it looked and will flush, or not. */
  datatype Crossing = Looked | Unseen

  /** What the reader has to do: its orders, how they end, and the message size limit. */
  datatype Job = Job(due: seq<Order>, ending: Ending, limit: nat) {
    predicate Offended() {
      ending.Finished? && ending.offence.Some?
    }
  }

  datatype Batch = Batch(
    job: Job,
    next: nat,
    word: u64,
    ids: seq<Id>,
    slots: seq<Slot>,
    reader: Reader,
    responses: seq<Entry>,
    flushed: bool,
    closed: bool,
    /** Every array written to the transport. */
    written: seq<seq<Entry>>,
    /** Every entry ever pushed, in order. */
    pushed: seq<Entry>,
    /** The slot of every completion, in order. */
    completed: seq<nat>,
    crossings: seq<Crossing>,
    /** A flush was given up halfway. */
    lost: bool)

  function Start(job: Job): Batch {
    Batch(job, 0, 0, [], [], Reading, [], false, false, [], [], [], [], false)
  }

  const COMMA: Byte := 44
  const OPEN: Byte := 91
  const SHUT: Byte := 93

  function Texts(batch: seq<Entry>): (r: seq<Bytes>)
    ensures |r| == |batch|
    ensures forall i :: 0 <= i < |batch| ==> r[i] == batch[i].text
  {
    seq(|batch|, i requires 0 <= i < |batch| => batch[i].text)
  }

  /** The array as a line on the wire. */
  function Line(batch: seq<Entry>): Bytes {
    [OPEN] + Join(Texts(batch), COMMA) + [SHUT, LF]
  }

  predicate TooLong(batch: seq<Entry>, limit: nat) {
    |Line(batch)| > limit
  }

  function TotalLength(batch: seq<Entry>): nat {
    if batch == [] then 0 else |batch[0].text| + TotalLength(batch[1..])
  }

  lemma {:induction false} JoinedLength(batch: seq<Entry>)
    requires batch != []
    ensures |Join(Texts(batch), COMMA)| == TotalLength(batch) + |batch| - 1
  {
    if |batch| > 1 {
      JoinedLength(batch[1..]);
      assert Texts(batch)[1..] == Texts(batch[1..]);
    }
  }

  /** An array takes up its members, a comma between neighbours, two brackets and an LF: that is what is limited. */
  lemma TooLongIff(batch: seq<Entry>, limit: nat)
    requires batch != []
    ensures TooLong(batch, limit) <==> TotalLength(batch) + |batch| + 2 > limit
  {
    JoinedLength(batch);
  }

  /** Members are put in order behind those before them. */
  lemma LineGrows(batch: seq<Entry>, e: Entry)
    ensures Line(batch + [e]) ==
      if batch == [] then [91] + e.text + [93, 10]
      else Line(batch)[..|Line(batch)| - 2] + [44] + e.text + [93, 10]
  {
    assert Texts(batch + [e]) == Texts(batch) + [e.text];
    JoinSnoc(Texts(batch), e.text, COMMA);
  }

  // ---- Steps ----

  datatype Who = Responder(i: nat) | TheReader

  /** FindClosed is the close that the members themselves brought about, where there was one. */
  datatype ReaderStep = ReserveSlot | AdmitSay | PushSay(text: Bytes) | Finish | CloseRefused | FindClosed | Stop

  datatype SlotStep =
    | Claim(text: Bytes)
    | Admit
    | Push
    | Complete
    | Abandon                     // the respond call was dropped while it waited for the buffer
    | TimeOut                     // the buffer was not to be had without a runtime
    | CloseForIt

  datatype FlushStep =
    | Gate
    | TakeAll
    | AdmitWrite
    | Write(ok: bool)
    | Vanish                      // a close put a sink in the transport's place before the write
    | CloseForFailure
    | Lose                        // the flushing call was dropped while it waited

  datatype Action =
    | ByReader(read: ReaderStep)
    | BySlot(i: nat, step: SlotStep)
    | ByFlush(who: Who, flush: FlushStep)
    | Close                       // by anyone else

  predicate ReaderEnabled(s: Batch, step: ReaderStep) {
    match step
    case ReserveSlot => s.reader == Reading && s.next < |s.job.due| && s.job.due[s.next].Reserve?
    case AdmitSay => s.reader == Reading && s.next < |s.job.due| && s.job.due[s.next].Say?
    case PushSay(_) => s.reader.Saying?
    case Finish => s.reader == Reading && s.next >= |s.job.due| && s.job.ending.Finished?
    case CloseRefused => s.reader == Refusing
    case FindClosed => s.reader == Reading && s.next >= |s.job.due| && s.job.ending.Dropped? && !s.closed
    case Stop => s.closed && (s.reader.Reading? || s.reader.Saying?)
  }

  function Append(s: Batch, e: Entry): Batch {
    s.(responses := s.responses + [e], pushed := s.pushed + [e])
  }

  /** Where the reader goes when its part of the batch is over: a failure closes the connection. */
  function AfterBatch(job: Job, ok: bool): Reader {
    if ok && !job.Offended() then Done else Refusing
  }

  function ReaderNext(s: Batch, step: ReaderStep): Batch
    requires ReaderEnabled(s, step)
  {
    match step
    case ReserveSlot =>
      s.(word := FetchAdd(s.word), ids := s.ids + [s.job.due[s.next].id], slots := s.slots + [Held], next := s.next + 1)
    case AdmitSay =>
      s.(reader := if s.closed then Reading else Saying(s.job.due[s.next].to), next := s.next + 1)
    case PushSay(text) => Append(s, FromReader(s.reader.to, text)).(reader := Reading)
    case Finish =>
      if Pending(s.word) == 0
      then s.(word := FetchOr(s.word), reader := Ending(AtGate), crossings := s.crossings + [Looked])
      else s.(word := FetchOr(s.word), reader := AfterBatch(s.job, true))
    case CloseRefused => s.(closed := true, reader := Done)
    case FindClosed => s.(closed := true)
    case Stop => s.(reader := Stopped)
  }

  predicate SlotEnabled(s: Batch, i: nat, step: SlotStep) {
    && i < |s.slots|
    && match step
       case Claim(_) => s.slots[i].Held?
       case Admit => s.slots[i].Claimed?
       case Push => s.slots[i].Admitted?
       case Complete => s.slots[i].Pushed?
       case Abandon => s.slots[i].Admitted?
       case TimeOut => s.slots[i].Admitted?
       case CloseForIt => s.slots[i].TimedOut?
  }

  function CompleteSlot(s: Batch, i: nat, after: Slot, crossing: Crossing): Batch
    requires i < |s.slots|
  {
    s.(word := FetchSub(s.word), slots := s.slots[i := after], completed := s.completed + [i],
       crossings := if LastOne(s.word) then s.crossings + [crossing] else s.crossings)
  }

  function SlotNext(s: Batch, i: nat, step: SlotStep): Batch
    requires SlotEnabled(s, i, step)
  {
    match step
    case Claim(text) => s.(slots := s.slots[i := Claimed(text)])
    case Admit =>
      if s.closed then CompleteSlot(s, i, GivenUp, Unseen)
      else s.(slots := s.slots[i := Admitted(s.slots[i].text)])
    case Push => Append(s, FromSlot(i, s.slots[i].text)).(slots := s.slots[i := Pushed(s.slots[i].text)])
    case Complete =>
      var text := s.slots[i].text;
      CompleteSlot(s, i, if LastOne(s.word) then Flushing(text, AtGate) else Answered(text), Looked)
    case Abandon => CompleteSlot(s, i, GivenUp, Unseen)
    case TimeOut => CompleteSlot(s, i, TimedOut, Unseen)
    case CloseForIt => s.(slots := s.slots[i := GivenUp], closed := true)
  }

  /** The flush a process is in, if it is in one. */
  function FlushOf(slots: seq<Slot>, reader: Reader, who: Who): Option<Flush> {
    match who
    case TheReader => if reader.Ending? then Some(reader.flush) else None
    case Responder(i) => if i < |slots| && slots[i].Flushing? then Some(slots[i].flush) else None
  }

  /** Nobody is about to hand an array to the transport. */
  ghost predicate NobodySends(slots: seq<Slot>, reader: Reader) {
    && !(reader.Ending? && reader.flush.Sending?)
    && forall i :: 0 <= i < |slots| ==> !(slots[i].Flushing? && slots[i].flush.Sending?)
  }

  /** The process moves on to another phase of its flush. */
  function GoOn(s: Batch, who: Who, flush: Flush): Batch
    requires FlushOf(s.slots, s.reader, who).Some?
  {
    match who
    case TheReader => s.(reader := Ending(flush))
    case Responder(i) => s.(slots := s.slots[i := Flushing(s.slots[i].text, flush)])
  }

  /** The process is done with its flush; if it is the reader it goes to next. */
  function Leave(s: Batch, who: Who, next: Reader): Batch
    requires FlushOf(s.slots, s.reader, who).Some?
  {
    match who
    case TheReader => s.(reader := next)
    case Responder(i) => s.(slots := s.slots[i := Answered(s.slots[i].text)])
  }

  predicate FlushEnabled(s: Batch, who: Who, step: FlushStep) {
    var flush := FlushOf(s.slots, s.reader, who);
    && flush.Some?
    && match step
       case Gate => flush.value.AtGate?
       case TakeAll => flush.value.Taking?
       case AdmitWrite => flush.value.Writing?
       case Write(_) => flush.value.Sending?
       case Vanish => flush.value.Sending? && s.closed
       case CloseForFailure => flush.value.Failed?
       case Lose => !flush.value.Failed?
  }

  function FlushNext(s: Batch, who: Who, step: FlushStep): Batch
    requires FlushEnabled(s, who, step)
  {
    var flush := FlushOf(s.slots, s.reader, who).value;
    match step
    case Gate =>
      if s.flushed then Leave(s, who, AfterBatch(s.job, true)) else GoOn(s, who, Taking).(flushed := true)
    case TakeAll =>
      if s.responses == [] then Leave(s, who, AfterBatch(s.job, true))
      else GoOn(s, who, Writing(s.responses)).(responses := [])
    case AdmitWrite =>
      if s.closed || TooLong(flush.batch, s.job.limit) then Leave(s, who, AfterBatch(s.job, false))
      else GoOn(s, who, Sending(flush.batch))
    case Write(ok) =>
      if ok then Leave(s, who, AfterBatch(s.job, true)).(written := s.written + [flush.batch])
      else GoOn(s, who, Failed)
    case Vanish => Leave(s, who, AfterBatch(s.job, true))
    case CloseForFailure => Leave(s, who, AfterBatch(s.job, false)).(closed := true)
    case Lose => Leave(s, who, Done).(lost := true)
  }

  /** What no step of a flush touches, and what becomes of the slot of a responder that flushes. */
  ghost predicate FlushShape(s: Batch, who: Who, after: Batch) {
    && after.job == s.job && after.pushed == s.pushed && after.crossings == s.crossings
    && |after.slots| == |s.slots|
    && (after.reader.Stopped? ==> s.reader.Stopped?)
    && (who.Responder? ==> after.reader == s.reader)
    && (who.TheReader? ==> after.slots == s.slots)
    && (who.Responder? && who.i < |s.slots| && s.slots[who.i].Flushing? ==>
         var x := after.slots[who.i];
         && (x.Flushing? || x.Answered?) && x.text == s.slots[who.i].text
         && after.slots == s.slots[who.i := x])
  }

  lemma GoOnShape(s: Batch, who: Who, flush: Flush)
    requires FlushOf(s.slots, s.reader, who).Some?
    ensures FlushShape(s, who, GoOn(s, who, flush))
  {
  }

  lemma LeaveShape(s: Batch, who: Who, next: Reader)
    requires FlushOf(s.slots, s.reader, who).Some? && !next.Stopped?
    ensures FlushShape(s, who, Leave(s, who, next))
  {
  }

  lemma FlushKeepsShape(s: Batch, who: Who, step: FlushStep)
    requires FlushEnabled(s, who, step)
    ensures FlushShape(s, who, FlushNext(s, who, step))
  {
    match step
    case Gate =>
      GoOnShape(s, who, Taking);
      LeaveShape(s, who, AfterBatch(s.job, true));
    case TakeAll =>
      GoOnShape(s, who, Writing(s.responses));
      LeaveShape(s, who, AfterBatch(s.job, true));
    case AdmitWrite =>
      GoOnShape(s, who, Sending(FlushOf(s.slots, s.reader, who).value.batch));
      LeaveShape(s, who, AfterBatch(s.job, false));
    case Write(ok) =>
      GoOnShape(s, who, Failed);
      LeaveShape(s, who, AfterBatch(s.job, true));
    case Vanish => LeaveShape(s, who, AfterBatch(s.job, true));
    case CloseForFailure => LeaveShape(s, who, AfterBatch(s.job, false));
    case Lose => LeaveShape(s, who, Done);
  }

  /** One atomic step. A step that is not enabled changes nothing. */
  function Next(s: Batch, a: Action): Batch {
    match a
    case ByReader(step) => if ReaderEnabled(s, step) then ReaderNext(s, step) else s
    case BySlot(i, step) => if SlotEnabled(s, i, step) then SlotNext(s, i, step) else s
    case ByFlush(who, step) => if FlushEnabled(s, who, step) then FlushNext(s, who, step) else s
    case Close => s.(closed := true)
  }

  /** The state after further steps, oldest first. */
  function RunFrom(s: Batch, actions: seq<Action>): Batch {
    if actions == [] then s else Next(RunFrom(s, actions[..|actions| - 1]), actions[|actions| - 1])
  }

  /** The state after a run of steps. */
  function Run(job: Job, actions: seq<Action>): Batch {
    RunFrom(Start(job), actions)
  }

  lemma RunOne(s: Batch, a: Action)
    ensures RunFrom(s, [a]) == Next(s, a)
  {
    assert [a][..0] == [];
  }

  lemma RunSnoc(s: Batch, actions: seq<Action>, a: Action)
    ensures RunFrom(s, actions + [a]) == Next(RunFrom(s, actions), a)
  {
    assert (actions + [a])[..|actions|] == actions;
  }

  lemma RunAppendOne(s: Batch, before: seq<Action>, init: seq<Action>, a: Action)
    requires RunFrom(s, before + init) == RunFrom(RunFrom(s, before), init)
    ensures RunFrom(s, before + (init + [a])) == RunFrom(RunFrom(s, before), init + [a])
  {
    AppendAssoc(before, init, [a]);
    RunSnoc(s, before + init, a);
    RunSnoc(RunFrom(s, before), init, a);
  }

  lemma {:induction false} RunAppend(s: Batch, before: seq<Action>, after: seq<Action>)
    ensures RunFrom(s, before + after) == RunFrom(RunFrom(s, before), after)
    decreases |after|
  {
    if after == [] {
      assert before + after == before;
    } else {
      var init, a := after[..|after| - 1], after[|after| - 1];
      RunAppend(s, before, init);
      assert after == init + [a];
      RunAppendOne(s, before, init, a);
    }
  }

  lemma StepConstants(s: Batch, a: Action)
    ensures Next(s, a).job == s.job
  {
    match a
    case ByReader(step) =>
    case BySlot(i, step) =>
    case ByFlush(who, step) => if FlushEnabled(s, who, step) { FlushKeepsShape(s, who, step); }
    case Close =>
  }

  lemma {:induction false} RunConstants(s: Batch, actions: seq<Action>)
    ensures RunFrom(s, actions).job == s.job
    decreases |actions|
  {
    if actions != [] {
      RunConstants(s, actions[..|actions| - 1]);
      StepConstants(RunFrom(s, actions[..|actions| - 1]), actions[|actions| - 1]);
    }
  }

  /** Reader and responders have nothing left to do. */
  predicate Quiet(s: Batch) {
    s.reader == Done && forall i :: 0 <= i < |s.slots| ==> s.slots[i].Answered? || s.slots[i].GivenUp?
  }
}
