/** Requests, responses, cancellation and closing, interleaved one atomic step at a time. */
module RequestProtocol {
  import opened Basics
  import opened RequestIds
  import opened CancelledIds
  import opened Responses
  import opened Sequences

  /** How far one call of request_optional_inner is. */
  datatype Phase =
    | Fresh        // called
    | Admitted     // passed the first closed check
    | Numbered     // has an id
    | Inserted     // its sender is in the table, its guard is armed
    | Writing      // passed the second closed check
    | Waiting      // its line is written
    | Failing      // the write failed; it takes its own entry out next
    | Cancelling   // its guard is dropped armed; the entry comes out next
    | Forgetting   // the entry is out; the id is remembered next
    | Done         // returned to its caller

  /** Where the reader is with one response. */
  datatype Reader =
    | Idle
    | Looking(id: Id, reply: Reply)
    | NotPending(id: Id)
    | NotCancelled(id: Id)
    | TwinNotCancelled(id: Id)
    | Holding(ticket: Ticket, reply: Reply)

  /** Where the first close is with emptying the table. */
  datatype Drain = Open | Marked | Sending(left: set<Ticket>)

  datatype Client = Client(
    calls: seq<Phase>,
    ids: map<Ticket, Id>,
    nextId: i64,
    maxPending: nat,
    pending: map<Id, Ticket>,
    window: Window,
    reader: Reader,
    drain: Drain,
    closed: bool,
    closeReason: Option<string>,
    /** The calls whose sender was ever put in the table. */
    inserted: set<Ticket>,
    /** The result in each waiter's channel. */
    mail: map<Ticket, Reply>,
    /** Every send, in order. */
    sends: seq<Ticket>,
    /** Every response the peer sent, with the id it bore. */
    received: set<(Id, Reply)>)

  function Start(maxPending: nat): Client {
    Client([], map[], 1, maxPending, map[], EMPTY, Idle, Open, false, None, {}, map[], [], {})
  }

  /** The steps of one call. */
  datatype CallStep =
    | CheckClosed
    | TakeId
    | Insert
    | CheckClosedAgain
    | WriteDone
    | WriteFailed
    | RemoveOwn
    | Cancel
    | GuardRemove
    | GuardRemember
    | TakeResult

  datatype ReaderStep =
    | Receive(id: Id, reply: Reply)
    | LookPending
    | LookCancelled
    | LookTwinCancelled
    | LookTwinPending
    | Deliver

  datatype CloseStep =
    | Close(reason: string)
    | DrainTable
    | DrainSend(r: Ticket)

  datatype Action = NewCall | ByCall(r: Ticket, step: CallStep) | ByReader(read: ReaderStep) | ByClose(close: CloseStep)

  predicate At(s: Client, r: Ticket, phase: Phase) {
    r < |s.calls| && s.calls[r] == phase
  }

  function Move(s: Client, r: Ticket, phase: Phase): Client
    requires r < |s.calls|
  {
    s.(calls := s.calls[r := phase])
  }

  /** A send on the channel of r: a channel takes one result. */
  function Settle(s: Client, r: Ticket, reply: Reply): Client {
    s.(mail := if r in s.mail then s.mail else s.mail[r := reply], sends := s.sends + [r])
  }

  predicate CallEnabled(s: Client, r: Ticket, step: CallStep) {
    match step
    case CheckClosed => At(s, r, Fresh)
    case TakeId => At(s, r, Admitted) && s.nextId < I64_MAX
    case Insert => At(s, r, Numbered) && r in s.ids
    case CheckClosedAgain => At(s, r, Inserted)
    case WriteDone => At(s, r, Writing)
    case WriteFailed => At(s, r, Writing)
    case RemoveOwn => At(s, r, Failing) && r in s.ids
    case Cancel => At(s, r, Inserted) || At(s, r, Writing) || At(s, r, Waiting)
    case GuardRemove => At(s, r, Cancelling) && r in s.ids
    case GuardRemember => At(s, r, Forgetting) && r in s.ids
    case TakeResult => At(s, r, Waiting) && r in s.mail
  }

  function CallNext(s: Client, r: Ticket, step: CallStep): Client
    requires CallEnabled(s, r, step)
  {
    match step
    case CheckClosed => Move(s, r, if s.closed then Done else Admitted)
    case TakeId => Move(s, r, Numbered).(ids := s.ids[r := Integer(s.nextId)], nextId := s.nextId + 1)
    case Insert =>
      if |s.pending| >= s.maxPending then Move(s, r, Done)
      else Move(s, r, Inserted).(pending := s.pending[s.ids[r] := r], inserted := s.inserted + {r})
    case CheckClosedAgain => Move(s, r, if s.closed then Failing else Writing)
    case WriteDone => Move(s, r, Waiting)
    case WriteFailed => Move(s, r, Failing)
    case RemoveOwn => Move(s, r, Done).(pending := s.pending - {s.ids[r]})
    case Cancel => Move(s, r, Cancelling)
    case GuardRemove => Move(s, r, Forgetting).(pending := s.pending - {s.ids[r]})
    case GuardRemember => Move(s, r, Done).(window := Remember(s.window, s.ids[r]))
    case TakeResult => Move(s, r, Done)
  }

  predicate ReaderEnabled(s: Client, step: ReaderStep) {
    match step
    case Receive(id, reply) => s.reader == Idle && FromWire(id)
    case LookPending => s.reader.Looking?
    case LookCancelled => s.reader.NotPending?
    case LookTwinCancelled => s.reader.NotCancelled?
    case LookTwinPending => s.reader.TwinNotCancelled?
    case Deliver => s.reader.Holding?
  }

  /** Takes the entry of id out of the table, if it is there. */
  function PickUp(s: Client, id: Id, reply: Reply, otherwise: Reader): Client {
    if id in s.pending then s.(reader := Holding(s.pending[id], reply), pending := s.pending - {id})
    else s.(reader := otherwise)
  }

  /** Takes id out of the window, if it is there. */
  function Swallow(s: Client, id: Id, otherwise: Reader): Client {
    if id in s.window.latest then s.(reader := Idle, window := Take(s.window, id)) else s.(reader := otherwise)
  }

  function SwallowTwin(s: Client, twin: Option<Id>, otherwise: Reader): Client {
    if twin.None? then s.(reader := otherwise) else Swallow(s, twin.value, otherwise)
  }

  function PickUpTwin(s: Client, twin: Option<Id>): Client {
    if twin.None? then s.(reader := Idle) else PickUp(s, twin.value, Invalid(TypeMismatch), Idle)
  }

  function ReaderNext(s: Client, step: ReaderStep): Client
    requires ReaderEnabled(s, step)
  {
    match step
    case Receive(id, reply) => s.(reader := Looking(id, reply), received := s.received + {(id, reply)})
    case LookPending => PickUp(s, s.reader.id, s.reader.reply, NotPending(s.reader.id))
    case LookCancelled => Swallow(s, s.reader.id, NotCancelled(s.reader.id))
    case LookTwinCancelled => SwallowTwin(s, TypeMismatchCandidateId(s.reader.id), TwinNotCancelled(s.reader.id))
    case LookTwinPending => PickUpTwin(s, TypeMismatchCandidateId(s.reader.id))
    case Deliver => Settle(s, s.reader.ticket, s.reader.reply).(reader := Idle)
  }

  predicate CloseEnabled(s: Client, step: CloseStep) {
    match step
    case Close(_) => true
    case DrainTable => s.drain == Marked
    case DrainSend(r) => s.drain.Sending? && r in s.drain.left && s.closeReason.Some?
  }

  function CloseNext(s: Client, step: CloseStep): Client
    requires CloseEnabled(s, step)
  {
    match step
    case Close(reason) =>
      if s.closed then s else s.(closed := true, closeReason := Some(reason), drain := Marked)
    case DrainTable => s.(drain := Sending(set id | id in s.pending :: s.pending[id]), pending := map[])
    case DrainSend(r) =>
      Settle(s, r, Closed(s.closeReason.value)).(drain := Sending(s.drain.left - {r}))
  }

  /** One atomic step. A step that is not enabled changes nothing. */
  function Next(s: Client, a: Action): Client {
    match a
    case NewCall => s.(calls := s.calls + [Fresh])
    case ByCall(r, step) => if CallEnabled(s, r, step) then CallNext(s, r, step) else s
    case ByReader(step) => if ReaderEnabled(s, step) then ReaderNext(s, step) else s
    case ByClose(step) => if CloseEnabled(s, step) then CloseNext(s, step) else s
  }

  /** The state after further steps, oldest first. */
  function RunFrom(s: Client, actions: seq<Action>): Client {
    if actions == [] then s else Next(RunFrom(s, actions[..|actions| - 1]), actions[|actions| - 1])
  }

  /** The state after a run of steps. */
  function Run(maxPending: nat, actions: seq<Action>): Client {
    RunFrom(Start(maxPending), actions)
  }

  lemma RunOne(s: Client, a: Action)
    ensures RunFrom(s, [a]) == Next(s, a)
  {
    assert [a][..0] == [];
  }

  lemma RunSnoc(s: Client, actions: seq<Action>, a: Action)
    ensures RunFrom(s, actions + [a]) == Next(RunFrom(s, actions), a)
  {
    assert (actions + [a])[..|actions|] == actions;
  }

  lemma RunAppendOne(s: Client, before: seq<Action>, init: seq<Action>, a: Action)
    requires RunFrom(s, before + init) == RunFrom(RunFrom(s, before), init)
    ensures RunFrom(s, before + (init + [a])) == RunFrom(RunFrom(s, before), init + [a])
  {
    AppendAssoc(before, init, [a]);
    RunSnoc(s, before + init, a);
    RunSnoc(RunFrom(s, before), init, a);
  }

  lemma {:induction false} RunAppend(s: Client, before: seq<Action>, after: seq<Action>)
    ensures RunFrom(s, before + after) == RunFrom(RunFrom(s, before), after)
    decreases |after|
  {
    if after == [] {
      assert before + after == before;
    } else {
      var init, a := after[..|after| - 1], after[|after| - 1];
      RunAppend(s, before, init);
      assert after == init + [a];
      RunAppendOne(s, before, init, a);
    }
  }

  lemma RunCons(s: Client, a: Action, rest: seq<Action>)
    ensures RunFrom(s, [a] + rest) == RunFrom(Next(s, a), rest)
  {
    RunOne(s, a);
    RunAppend(s, [a], rest);
  }
}
