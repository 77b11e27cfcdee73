/** What every step of the request protocol keeps. */
module RequestInvariant {
  import opened Basics
  import opened RequestIds
  import opened CancelledIds
  import opened Responses
  import opened RequestProtocol

  /** The phases of a call whose sender has been put in the table. */
  predicate Sent(phase: Phase) {
    phase.Inserted? || phase.Writing? || phase.Waiting? || phase.Failing? || phase.Cancelling?
  }

  /** The phases before a call has an id. */
  predicate Early(phase: Phase) {
    phase.Fresh? || phase.Admitted?
  }

  /** The phases that only an open client lets a call into. */
  predicate Exposed(phase: Phase) {
    phase.Writing? || phase.Waiting?
  }

  /** The phases in which a call counts on getting a result. */
  predicate Hopes(phase: Phase) {
    phase.Inserted? || phase.Writing? || phase.Waiting?
  }

  /** Ids are fresh, and a call has one before its sender goes into the table. */
  ghost predicate IdsRight(calls: seq<Phase>, ids: map<Ticket, Id>, nextId: i64, inserted: set<Ticket>) {
    && 1 <= nextId
    && (forall r :: r in ids ==> r < |calls| && !Early(calls[r]) && ids[r].Integer? && ids[r].i < nextId)
    && (forall r, q :: r in ids && q in ids && ids[r] == ids[q] ==> r == q)
    && (forall r :: r in inserted ==> r in ids && calls[r] != Numbered)
    && (forall r :: 0 <= r < |calls| && Sent(calls[r]) ==> r in inserted)
  }

  ghost predicate EntryRight(calls: seq<Phase>, ids: map<Ticket, Id>, inserted: set<Ticket>, sending: bool,
                             id: Id, r: Ticket) {
    && r in inserted && r in ids && ids[r] == id
    && r < |calls| && Sent(calls[r])
    && (sending ==> !Exposed(calls[r]))
  }

  /** Entries are keyed by the ids of calls that are still going on; the close leaves none that is exposed. */
  ghost predicate TableRight(calls: seq<Phase>, ids: map<Ticket, Id>, inserted: set<Ticket>, sending: bool,
                             pending: map<Id, Ticket>) {
    forall id :: id in pending ==> EntryRight(calls, ids, inserted, sending, id, pending[id])
  }

  /** The entry of r is under its own id. */
  ghost predicate InTable(ids: map<Ticket, Id>, pending: map<Id, Ticket>, r: Ticket) {
    r in ids && ids[r] in pending
  }

  function HeldBy(reader: Reader): set<Ticket> {
    if reader.Holding? then {reader.ticket} else {}
  }

  function LeftIn(drain: Drain): set<Ticket> {
    if drain.Sending? then drain.left else {}
  }

  /** A sender is in one place at most, and nowhere once it was used. */
  ghost predicate HoldersRight(ids: map<Ticket, Id>, pending: map<Id, Ticket>, inserted: set<Ticket>,
                               used: set<Ticket>, held: set<Ticket>, left: set<Ticket>) {
    && (forall r :: r in used || r in held || r in left ==> r in inserted && !InTable(ids, pending, r))
    && used !! held !! left
  }

  /** The sender of r is in the table, with the reader, with the close, or used. */
  ghost predicate SenderSafe(ids: map<Ticket, Id>, pending: map<Id, Ticket>,
                             used: set<Ticket>, held: set<Ticket>, left: set<Ticket>, r: Ticket) {
    r in used || InTable(ids, pending, r) || r in held || r in left
  }

  ghost predicate WaitersRight(calls: seq<Phase>, ids: map<Ticket, Id>, pending: map<Id, Ticket>,
                               used: set<Ticket>, held: set<Ticket>, left: set<Ticket>) {
    forall r :: 0 <= r < |calls| && Hopes(calls[r]) ==> SenderSafe(ids, pending, used, held, left, r)
  }

  ghost predicate CloseRight(closed: bool, closeReason: Option<string>, drain: Drain) {
    && (closed <==> closeReason.Some?)
    && (closed <==> drain != Open)
  }

  ghost predicate SendsRight(used: set<Ticket>, sends: seq<Ticket>) {
    && (forall r :: r in used <==> r in sends)
    && (forall i, j :: 0 <= i < j < |sends| ==> sends[i] != sends[j])
  }

  ghost predicate Bore(received: set<(Id, Reply)>, id: Id) {
    exists reply :: (id, reply) in received
  }

  /** Where a reply came from: a response that bore the id, one that bore its twin, or the close. */
  ghost predicate Explained(received: set<(Id, Reply)>, closeReason: Option<string>, id: Id, reply: Reply) {
    || (id, reply) in received
    || (reply == Invalid(TypeMismatch) && TypeMismatchCandidateId(id).Some?
        && Bore(received, TypeMismatchCandidateId(id).value))
    || (closeReason.Some? && reply == Closed(closeReason.value))
  }

  ghost predicate MailRight(ids: map<Ticket, Id>, mail: map<Ticket, Reply>, received: set<(Id, Reply)>,
                            closeReason: Option<string>) {
    forall r :: r in mail ==> r in ids && Explained(received, closeReason, ids[r], mail[r])
  }

  ghost predicate ReaderRight(ids: map<Ticket, Id>, reader: Reader, received: set<(Id, Reply)>,
                              closeReason: Option<string>) {
    match reader
    case Idle => true
    case Looking(id, reply) => FromWire(id) && (id, reply) in received
    case Holding(r, reply) => r in ids && Explained(received, closeReason, ids[r], reply)
    case _ => FromWire(reader.id) && Bore(received, reader.id)
  }

  ghost predicate Ids(s: Client) {
    IdsRight(s.calls, s.ids, s.nextId, s.inserted)
  }

  ghost predicate Table(s: Client) {
    && |s.pending| <= s.maxPending
    && TableRight(s.calls, s.ids, s.inserted, s.drain.Sending?, s.pending)
  }

  ghost predicate Senders(s: Client) {
    && HoldersRight(s.ids, s.pending, s.inserted, s.mail.Keys, HeldBy(s.reader), LeftIn(s.drain))
    && WaitersRight(s.calls, s.ids, s.pending, s.mail.Keys, HeldBy(s.reader), LeftIn(s.drain))
  }

  ghost predicate Closes(s: Client) {
    CloseRight(s.closed, s.closeReason, s.drain)
  }

  ghost predicate Results(s: Client) {
    && SendsRight(s.mail.Keys, s.sends)
    && MailRight(s.ids, s.mail, s.received, s.closeReason)
    && ReaderRight(s.ids, s.reader, s.received, s.closeReason)
  }

  ghost predicate Inv(s: Client) {
    Ids(s) && Table(s) && Senders(s) && Closes(s) && Results(s)
  }

  // ---- A call moves on ----

  /** The phase suits the sender and the entry of the call. */
  ghost predicate MayMove(s: Client, r: Ticket, phase: Phase) {
    && r < |s.calls|
    && (if r in s.inserted then !Early(phase) && phase != Numbered else !Sent(phase))
    && (r in s.ids ==> !Early(phase))
    && (InTable(s.ids, s.pending, r) ==> Sent(phase) && (s.drain.Sending? ==> !Exposed(phase)))
    && (Hopes(phase) ==> SenderSafe(s.ids, s.pending, s.mail.Keys, HeldBy(s.reader), LeftIn(s.drain), r))
  }

  lemma MoveIds(s: Client, r: Ticket, phase: Phase)
    requires Ids(s) && MayMove(s, r, phase)
    ensures Ids(Move(s, r, phase))
  {
  }

  lemma MoveTable(s: Client, r: Ticket, phase: Phase)
    requires Table(s) && MayMove(s, r, phase)
    ensures Table(Move(s, r, phase))
  {
  }

  lemma MoveSenders(s: Client, r: Ticket, phase: Phase)
    requires Senders(s) && MayMove(s, r, phase)
    ensures Senders(Move(s, r, phase))
  {
  }

  lemma MoveKeeps(s: Client, r: Ticket, phase: Phase)
    requires Inv(s) && MayMove(s, r, phase)
    ensures Inv(Move(s, r, phase))
  {
    MoveIds(s, r, phase);
    MoveTable(s, r, phase);
    MoveSenders(s, r, phase);
  }

  /** A call that is not in the sending phases, or has its result, has no entry. */
  lemma NotInTable(s: Client, r: Ticket)
    requires Ids(s) && Table(s) && Senders(s) && r < |s.calls|
    ensures !Sent(s.calls[r]) || r in s.mail ==> !InTable(s.ids, s.pending, r)
  {
    assert InTable(s.ids, s.pending, r) ==>
      EntryRight(s.calls, s.ids, s.inserted, s.drain.Sending?, s.ids[r], s.pending[s.ids[r]]);
  }

  lemma CheckMay(s: Client, r: Ticket, phase: Phase)
    requires Ids(s) && Table(s) && Senders(s) && At(s, r, Fresh) && (phase == Done || phase == Admitted)
    ensures MayMove(s, r, phase)
  {
    NotInTable(s, r);
  }

  /** The second check lets a call through only before a close has emptied the table. */
  lemma RecheckMay(s: Client, r: Ticket)
    requires Ids(s) && Senders(s) && Closes(s) && At(s, r, Inserted)
    ensures MayMove(s, r, if s.closed then Failing else Writing)
  {
  }

  lemma WriteMay(s: Client, r: Ticket, phase: Phase)
    requires Ids(s) && Table(s) && Senders(s) && At(s, r, Writing) && (phase == Waiting || phase == Failing)
    ensures MayMove(s, r, phase)
  {
    assert InTable(s.ids, s.pending, r) ==>
      EntryRight(s.calls, s.ids, s.inserted, s.drain.Sending?, s.ids[r], s.pending[s.ids[r]]);
  }

  lemma CancelMay(s: Client, r: Ticket)
    requires Ids(s) && CallEnabled(s, r, Cancel)
    ensures MayMove(s, r, Cancelling)
  {
  }

  lemma EndMay(s: Client, r: Ticket)
    requires Ids(s) && r < |s.calls| && !Early(s.calls[r]) && !InTable(s.ids, s.pending, r)
    requires s.calls[r] == Numbered || r in s.inserted
    ensures MayMove(s, r, Done)
    ensures r in s.inserted ==> MayMove(s, r, Forgetting)
  {
  }

  lemma CheckKeeps(s: Client, r: Ticket)
    requires Inv(s) && CallEnabled(s, r, CheckClosed)
    ensures Inv(CallNext(s, r, CheckClosed))
  {
    var phase := if s.closed then Done else Admitted;
    CheckMay(s, r, phase);
    MoveKeeps(s, r, phase);
  }

  lemma RecheckKeeps(s: Client, r: Ticket)
    requires Inv(s) && CallEnabled(s, r, CheckClosedAgain)
    ensures Inv(CallNext(s, r, CheckClosedAgain))
  {
    RecheckMay(s, r);
    MoveKeeps(s, r, if s.closed then Failing else Writing);
  }

  lemma WriteKeeps(s: Client, r: Ticket, step: CallStep)
    requires Inv(s) && CallEnabled(s, r, step) && (step.WriteDone? || step.WriteFailed?)
    ensures Inv(CallNext(s, r, step))
  {
    var phase := if step.WriteDone? then Waiting else Failing;
    WriteMay(s, r, phase);
    MoveKeeps(s, r, phase);
  }

  lemma CancelKeeps(s: Client, r: Ticket)
    requires Inv(s) && CallEnabled(s, r, Cancel)
    ensures Inv(CallNext(s, r, Cancel))
  {
    CancelMay(s, r);
    MoveKeeps(s, r, Cancelling);
  }

  /** Taking the result leaves no entry behind. */
  lemma TakeResultKeeps(s: Client, r: Ticket)
    requires Inv(s) && CallEnabled(s, r, TakeResult)
    ensures !InTable(s.ids, s.pending, r) && Inv(CallNext(s, r, TakeResult))
  {
    NotInTable(s, r);
    EndMay(s, r);
    MoveKeeps(s, r, Done);
  }

  // ---- A call gets an id ----

  lemma NewIdRight(calls: seq<Phase>, ids: map<Ticket, Id>, nextId: i64, inserted: set<Ticket>, r: Ticket)
    requires IdsRight(calls, ids, nextId, inserted)
    requires r < |calls| && calls[r] == Admitted && nextId < I64_MAX
    ensures r !in ids && r !in inserted
    ensures forall q :: q in ids ==> ids[q] != Integer(nextId)
    ensures IdsRight(calls[r := Numbered], ids[r := Integer(nextId)], nextId + 1, inserted)
  {
  }

  lemma NewIdTable(calls: seq<Phase>, ids: map<Ticket, Id>, inserted: set<Ticket>, sending: bool,
                   pending: map<Id, Ticket>, r: Ticket, id: Id)
    requires TableRight(calls, ids, inserted, sending, pending)
    requires r < |calls| && calls[r] == Admitted && r !in ids
    requires forall q :: q in ids ==> ids[q] != id
    ensures TableRight(calls[r := Numbered], ids[r := id], inserted, sending, pending)
    ensures forall q :: InTable(ids[r := id], pending, q) <==> InTable(ids, pending, q)
  {
    assert id in pending ==> EntryRight(calls, ids, inserted, sending, id, pending[id]);
  }

  lemma NewIdSenders(calls: seq<Phase>, ids: map<Ticket, Id>, pending: map<Id, Ticket>, inserted: set<Ticket>,
                     used: set<Ticket>, held: set<Ticket>, left: set<Ticket>, r: Ticket, id: Id)
    requires HoldersRight(ids, pending, inserted, used, held, left)
    requires WaitersRight(calls, ids, pending, used, held, left)
    requires forall q :: InTable(ids[r := id], pending, q) <==> InTable(ids, pending, q)
    requires r < |calls|
    ensures HoldersRight(ids[r := id], pending, inserted, used, held, left)
    ensures WaitersRight(calls[r := Numbered], ids[r := id], pending, used, held, left)
  {
  }

  lemma NewIdResults(s: Client, r: Ticket, id: Id)
    requires Results(s) && r !in s.ids
    ensures Results(s.(ids := s.ids[r := id]))
  {
  }

  lemma TakeIdKeeps(s: Client, r: Ticket)
    requires Inv(s) && CallEnabled(s, r, TakeId)
    ensures Inv(CallNext(s, r, TakeId))
  {
    var id := Integer(s.nextId);
    NewIdRight(s.calls, s.ids, s.nextId, s.inserted, r);
    NewIdTable(s.calls, s.ids, s.inserted, s.drain.Sending?, s.pending, r, id);
    NewIdSenders(s.calls, s.ids, s.pending, s.inserted, s.mail.Keys, HeldBy(s.reader), LeftIn(s.drain), r, id);
    NewIdResults(s, r, id);
  }

  // ---- A call puts its sender into the table ----

  lemma InsertIds(calls: seq<Phase>, ids: map<Ticket, Id>, nextId: i64, inserted: set<Ticket>, r: Ticket)
    requires IdsRight(calls, ids, nextId, inserted)
    requires r < |calls| && calls[r] == Numbered && r in ids
    ensures r !in inserted
    ensures forall q :: q in ids && ids[q] == ids[r] ==> q == r
    ensures IdsRight(calls[r := Inserted], ids, nextId, inserted + {r})
  {
  }

  lemma InsertTable(calls: seq<Phase>, ids: map<Ticket, Id>, inserted: set<Ticket>, sending: bool,
                    pending: map<Id, Ticket>, r: Ticket)
    requires TableRight(calls, ids, inserted, sending, pending)
    requires r < |calls| && calls[r] == Numbered && r in ids && r !in inserted
    requires forall q :: q in ids && ids[q] == ids[r] ==> q == r
    ensures !InTable(ids, pending, r)
    ensures TableRight(calls[r := Inserted], ids, inserted + {r}, sending, pending[ids[r] := r])
    ensures forall q :: InTable(ids, pending[ids[r] := r], q) <==> q == r || InTable(ids, pending, q)
  {
    assert ids[r] in pending ==> EntryRight(calls, ids, inserted, sending, ids[r], pending[ids[r]]);
  }

  lemma InsertSenders(calls: seq<Phase>, ids: map<Ticket, Id>, pending: map<Id, Ticket>, inserted: set<Ticket>,
                      used: set<Ticket>, held: set<Ticket>, left: set<Ticket>, r: Ticket, after: map<Id, Ticket>)
    requires HoldersRight(ids, pending, inserted, used, held, left)
    requires WaitersRight(calls, ids, pending, used, held, left)
    requires forall q :: InTable(ids, after, q) <==> q == r || InTable(ids, pending, q)
    requires r < |calls| && r !in inserted
    ensures HoldersRight(ids, after, inserted + {r}, used, held, left)
    ensures WaitersRight(calls[r := Inserted], ids, after, used, held, left)
  {
  }

  lemma InsertNewKeeps(s: Client, r: Ticket)
    requires Inv(s) && CallEnabled(s, r, Insert) && |s.pending| < s.maxPending
    ensures Inv(CallNext(s, r, Insert))
  {
    var after := s.pending[s.ids[r] := r];
    InsertIds(s.calls, s.ids, s.nextId, s.inserted, r);
    InsertTable(s.calls, s.ids, s.inserted, s.drain.Sending?, s.pending, r);
    InsertSenders(s.calls, s.ids, s.pending, s.inserted, s.mail.Keys, HeldBy(s.reader), LeftIn(s.drain), r, after);
  }

  lemma InsertKeeps(s: Client, r: Ticket)
    requires Inv(s) && CallEnabled(s, r, Insert)
    ensures Inv(CallNext(s, r, Insert))
  {
    if |s.pending| >= s.maxPending {
      NotInTable(s, r);
      EndMay(s, r);
      MoveKeeps(s, r, Done);
    } else {
      InsertNewKeeps(s, r);
    }
  }

  // ---- A call takes its entry out ----

  lemma DropTable(calls: seq<Phase>, ids: map<Ticket, Id>, inserted: set<Ticket>, sending: bool,
                  pending: map<Id, Ticket>, id: Id)
    requires TableRight(calls, ids, inserted, sending, pending)
    ensures TableRight(calls, ids, inserted, sending, pending - {id})
    ensures forall q :: InTable(ids, pending - {id}, q) <==> InTable(ids, pending, q) && ids[q] != id
  {
  }

  lemma DropSenders(calls: seq<Phase>, ids: map<Ticket, Id>, pending: map<Id, Ticket>, inserted: set<Ticket>,
                    used: set<Ticket>, held: set<Ticket>, left: set<Ticket>, r: Ticket, after: map<Id, Ticket>)
    requires HoldersRight(ids, pending, inserted, used, held, left)
    requires WaitersRight(calls, ids, pending, used, held, left)
    requires forall q :: InTable(ids, after, q) <==> InTable(ids, pending, q) && q != r
    requires r < |calls| && !Hopes(calls[r])
    ensures HoldersRight(ids, after, inserted, used, held, left)
    ensures WaitersRight(calls, ids, after, used, held, left)
  {
  }

  lemma DropEntryKeeps(s: Client, r: Ticket)
    requires Inv(s) && r in s.ids && r < |s.calls| && !Hopes(s.calls[r])
    ensures Inv(s.(pending := s.pending - {s.ids[r]}))
    ensures !InTable(s.ids, s.pending - {s.ids[r]}, r)
  {
    var after := s.pending - {s.ids[r]};
    DropTable(s.calls, s.ids, s.inserted, s.drain.Sending?, s.pending, s.ids[r]);
    IdsAreOwn(s, r);
    DropSenders(s.calls, s.ids, s.pending, s.inserted, s.mail.Keys, HeldBy(s.reader), LeftIn(s.drain), r, after);
    assert |after| <= |s.pending|;
  }

  lemma IdsAreOwn(s: Client, r: Ticket)
    requires Ids(s) && r in s.ids
    ensures forall q :: InTable(s.ids, s.pending, q) && s.ids[q] == s.ids[r] ==> q == r
  {
  }

  /** A guard that is dropped, or a write that fails, leaves no entry behind. */
  lemma RemoveKeeps(s: Client, r: Ticket, step: CallStep)
    requires Inv(s) && CallEnabled(s, r, step) && (step.RemoveOwn? || step.GuardRemove?)
    ensures Inv(CallNext(s, r, step))
    ensures !InTable(s.ids, CallNext(s, r, step).pending, r)
  {
    var phase := if step.RemoveOwn? then Done else Forgetting;
    var dropped := s.(pending := s.pending - {s.ids[r]});
    DropEntryKeeps(s, r);
    RemovedMay(dropped, r);
    MoveKeeps(dropped, r, phase);
    assert CallNext(s, r, step) == Move(dropped, r, phase);
  }

  lemma RemovedMay(s: Client, r: Ticket)
    requires Ids(s) && (At(s, r, Failing) || At(s, r, Cancelling)) && !InTable(s.ids, s.pending, r)
    ensures MayMove(s, r, Done) && MayMove(s, r, Forgetting)
  {
    EndMay(s, r);
  }

  lemma ForgetMay(s: Client, r: Ticket)
    requires Ids(s) && Table(s) && Senders(s) && At(s, r, Forgetting) && r in s.ids
    ensures !InTable(s.ids, s.pending, r) && MayMove(s, r, Done)
  {
    NotInTable(s, r);
  }

  /** A dropped guard ends with neither an entry in the table nor a place among the waiters, and with its id
      remembered as cancelled. */
  lemma RememberKeeps(s: Client, r: Ticket)
    requires Inv(s) && CallEnabled(s, r, GuardRemember)
    ensures Inv(CallNext(s, r, GuardRemember))
    ensures var after := CallNext(s, r, GuardRemember);
      !InTable(after.ids, after.pending, r) && after.calls[r] == Done && s.ids[r] in after.window.latest
  {
    ForgetMay(s, r);
    MoveKeeps(s, r, Done);
    WindowKeeps(Move(s, r, Done), Remember(s.window, s.ids[r]));
  }

  lemma WindowKeeps(s: Client, w: Window)
    requires Inv(s)
    ensures Inv(s.(window := w))
  {
  }

  lemma CallStepKeeps(s: Client, r: Ticket, step: CallStep)
    requires Inv(s) && CallEnabled(s, r, step)
    ensures Inv(CallNext(s, r, step))
  {
    match step
    case CheckClosed => CheckKeeps(s, r);
    case TakeId => TakeIdKeeps(s, r);
    case Insert => InsertKeeps(s, r);
    case CheckClosedAgain => RecheckKeeps(s, r);
    case WriteDone => WriteKeeps(s, r, step);
    case WriteFailed => WriteKeeps(s, r, step);
    case RemoveOwn => RemoveKeeps(s, r, step);
    case Cancel => CancelKeeps(s, r);
    case GuardRemove => RemoveKeeps(s, r, step);
    case GuardRemember => RememberKeeps(s, r);
    case TakeResult => TakeResultKeeps(s, r);
  }

  // ---- The reader's steps ----

  /** The reader goes on with nothing in hand. */
  lemma ReaderResults(s: Client, reader: Reader)
    requires Results(s) && !reader.Holding?
    requires reader.Looking? ==> FromWire(reader.id) && (reader.id, reader.reply) in s.received
    requires reader != Idle && !reader.Looking? ==> FromWire(reader.id) && Bore(s.received, reader.id)
    ensures Results(s.(reader := reader))
  {
  }

  lemma ReaderMoves(s: Client, reader: Reader)
    requires Inv(s) && !s.reader.Holding? && !reader.Holding?
    requires reader.Looking? ==> FromWire(reader.id) && (reader.id, reader.reply) in s.received
    requires reader != Idle && !reader.Looking? ==> FromWire(reader.id) && Bore(s.received, reader.id)
    ensures Inv(s.(reader := reader))
  {
    ReaderResults(s, reader);
  }

  lemma ReceiveResults(s: Client, id: Id, reply: Reply)
    requires Results(s)
    ensures Results(s.(received := s.received + {(id, reply)}))
  {
    var received := s.received + {(id, reply)};
    forall i | Bore(s.received, i)
      ensures Bore(received, i)
    {
      var x :| (i, x) in s.received;
      assert (i, x) in received;
    }
  }

  lemma ReceiveKeeps(s: Client, id: Id, reply: Reply)
    requires Inv(s) && ReaderEnabled(s, Receive(id, reply))
    ensures Inv(ReaderNext(s, Receive(id, reply)))
  {
    ReceiveResults(s, id, reply);
    ReaderMoves(s.(received := s.received + {(id, reply)}), Looking(id, reply));
  }

  /** Taking an entry out of the table puts its sender into the reader's hands. */
  lemma TakeOut(calls: seq<Phase>, ids: map<Ticket, Id>, pending: map<Id, Ticket>, inserted: set<Ticket>,
                sending: bool, used: set<Ticket>, left: set<Ticket>, id: Id)
    requires TableRight(calls, ids, inserted, sending, pending) && id in pending
    requires HoldersRight(ids, pending, inserted, used, {}, left)
    requires WaitersRight(calls, ids, pending, used, {}, left)
    requires forall q :: q in ids && ids[q] == id ==> q == pending[id]
    ensures pending[id] in ids && ids[pending[id]] == id
    ensures HoldersRight(ids, pending - {id}, inserted, used, {pending[id]}, left)
    ensures WaitersRight(calls, ids, pending - {id}, used, {pending[id]}, left)
  {
    var r := pending[id];
    assert EntryRight(calls, ids, inserted, sending, id, r);
    assert InTable(ids, pending, r) && r !in used && r !in left;
    forall q | 0 <= q < |calls| && Hopes(calls[q])
      ensures SenderSafe(ids, pending - {id}, used, {r}, left, q)
    {
      assert SenderSafe(ids, pending, used, {}, left, q);
    }
  }

  lemma EntryIsOwn(s: Client, id: Id)
    requires Ids(s) && Table(s) && id in s.pending
    ensures s.pending[id] in s.ids && forall q :: q in s.ids && s.ids[q] == id ==> q == s.pending[id]
  {
    assert EntryRight(s.calls, s.ids, s.inserted, s.drain.Sending?, id, s.pending[id]);
  }

  lemma HoldResults(s: Client, r: Ticket, reply: Reply)
    requires Results(s) && r in s.ids && Explained(s.received, s.closeReason, s.ids[r], reply)
    ensures Results(s.(reader := Holding(r, reply)))
  {
  }

  lemma PickUpKeeps(s: Client, id: Id, reply: Reply)
    requires Inv(s) && id in s.pending && !s.reader.Holding?
    requires Explained(s.received, s.closeReason, id, reply)
    ensures Inv(s.(reader := Holding(s.pending[id], reply), pending := s.pending - {id}))
  {
    var r := s.pending[id];
    EntryIsOwn(s, id);
    TakeOut(s.calls, s.ids, s.pending, s.inserted, s.drain.Sending?, s.mail.Keys, LeftIn(s.drain), id);
    DropTable(s.calls, s.ids, s.inserted, s.drain.Sending?, s.pending, id);
    HoldResults(s, r, reply);
    assert |s.pending - {id}| <= |s.pending|;
  }

  lemma PickUpStepKeeps(s: Client, id: Id, reply: Reply, otherwise: Reader)
    requires Inv(s) && !s.reader.Holding? && Explained(s.received, s.closeReason, id, reply)
    requires otherwise == Idle || (otherwise.NotPending? && FromWire(otherwise.id) && Bore(s.received, otherwise.id))
    ensures Inv(PickUp(s, id, reply, otherwise))
  {
    if id in s.pending {
      PickUpKeeps(s, id, reply);
    } else {
      ReaderMoves(s, otherwise);
    }
  }

  lemma SwallowStepKeeps(s: Client, id: Id, otherwise: Reader)
    requires Inv(s) && !s.reader.Holding?
    requires otherwise.NotCancelled? || otherwise.TwinNotCancelled?
    requires FromWire(otherwise.id) && Bore(s.received, otherwise.id)
    ensures Inv(Swallow(s, id, otherwise))
  {
    if id in s.window.latest {
      ReaderMoves(s, Idle);
      WindowKeeps(s.(reader := Idle), Take(s.window, id));
    } else {
      ReaderMoves(s, otherwise);
    }
  }

  /** Where the reader's id came from. */
  lemma ReaderBore(s: Client)
    requires Results(s) && s.reader != Idle && !s.reader.Holding?
    ensures FromWire(s.reader.id) && Bore(s.received, s.reader.id)
    ensures s.reader.Looking? ==> (s.reader.id, s.reader.reply) in s.received
  {
  }

  lemma LookTwinPendingKeeps(s: Client)
    requires Inv(s) && ReaderEnabled(s, LookTwinPending)
    ensures Inv(ReaderNext(s, LookTwinPending))
  {
    var twin := TypeMismatchCandidateId(s.reader.id);
    ReaderBore(s);
    if twin.None? {
      ReaderMoves(s, Idle);
    } else {
      TwinIsInvolution(s.reader.id);
      PickUpStepKeeps(s, twin.value, Invalid(TypeMismatch), Idle);
    }
  }

  lemma LookKeeps(s: Client, step: ReaderStep)
    requires Inv(s) && ReaderEnabled(s, step) && (step.LookPending? || step.LookCancelled? || step.LookTwinCancelled?)
    ensures Inv(ReaderNext(s, step))
  {
    ReaderBore(s);
    match step
    case LookPending => PickUpStepKeeps(s, s.reader.id, s.reader.reply, NotPending(s.reader.id));
    case LookCancelled => SwallowStepKeeps(s, s.reader.id, NotCancelled(s.reader.id));
    case LookTwinCancelled =>
      var twin := TypeMismatchCandidateId(s.reader.id);
      if twin.None? {
        ReaderMoves(s, TwinNotCancelled(s.reader.id));
      } else {
        SwallowStepKeeps(s, twin.value, TwinNotCancelled(s.reader.id));
      }
  }

  // ---- A sender is used ----

  lemma SendOnce(used: set<Ticket>, sends: seq<Ticket>, r: Ticket)
    requires SendsRight(used, sends) && r !in used
    ensures SendsRight(used + {r}, sends + [r])
  {
  }

  lemma MailOnce(ids: map<Ticket, Id>, mail: map<Ticket, Reply>, received: set<(Id, Reply)>,
                 closeReason: Option<string>, r: Ticket, reply: Reply)
    requires MailRight(ids, mail, received, closeReason)
    requires r in ids && Explained(received, closeReason, ids[r], reply)
    ensures MailRight(ids, mail[r := reply], received, closeReason)
    ensures mail[r := reply].Keys == mail.Keys + {r}
  {
  }

  /** A sender that was held or left becomes used. */
  lemma UseSender(calls: seq<Phase>, ids: map<Ticket, Id>, pending: map<Id, Ticket>, inserted: set<Ticket>,
                  used: set<Ticket>, held: set<Ticket>, left: set<Ticket>, r: Ticket)
    requires HoldersRight(ids, pending, inserted, used, held, left)
    requires WaitersRight(calls, ids, pending, used, held, left)
    requires r in held || r in left
    ensures r !in used && r in inserted
    ensures HoldersRight(ids, pending, inserted, used + {r}, held - {r}, left - {r})
    ensures WaitersRight(calls, ids, pending, used + {r}, held - {r}, left - {r})
  {
    forall q | 0 <= q < |calls| && Hopes(calls[q])
      ensures SenderSafe(ids, pending, used + {r}, held - {r}, left - {r}, q)
    {
      assert SenderSafe(ids, pending, used, held, left, q);
    }
  }

  lemma SettleSenders(s: Client, r: Ticket, reply: Reply, reader: Reader, drain: Drain)
    requires Senders(s) && (r in HeldBy(s.reader) || r in LeftIn(s.drain))
    requires HeldBy(reader) == HeldBy(s.reader) - {r} && LeftIn(drain) == LeftIn(s.drain) - {r}
    ensures r !in s.mail
    ensures Senders(Settle(s, r, reply).(reader := reader, drain := drain))
  {
    UseSender(s.calls, s.ids, s.pending, s.inserted, s.mail.Keys, HeldBy(s.reader), LeftIn(s.drain), r);
    assert Settle(s, r, reply).mail.Keys == s.mail.Keys + {r};
  }

  lemma SettleResults(s: Client, r: Ticket, reply: Reply, reader: Reader, drain: Drain)
    requires Results(s) && r !in s.mail
    requires r in s.ids && Explained(s.received, s.closeReason, s.ids[r], reply)
    requires ReaderRight(s.ids, reader, s.received, s.closeReason)
    ensures Results(Settle(s, r, reply).(reader := reader, drain := drain))
  {
    SendOnce(s.mail.Keys, s.sends, r);
    MailOnce(s.ids, s.mail, s.received, s.closeReason, r, reply);
  }

  /** Using a sender that the reader or the close had. */
  lemma SettleKeeps(s: Client, r: Ticket, reply: Reply, reader: Reader, drain: Drain)
    requires Inv(s) && (r in HeldBy(s.reader) || r in LeftIn(s.drain))
    requires r in s.ids && Explained(s.received, s.closeReason, s.ids[r], reply)
    requires HeldBy(reader) == HeldBy(s.reader) - {r} && LeftIn(drain) == LeftIn(s.drain) - {r}
    requires ReaderRight(s.ids, reader, s.received, s.closeReason)
    requires drain.Sending? == s.drain.Sending? && drain.Open? == s.drain.Open?
    ensures r !in s.mail
    ensures Inv(Settle(s, r, reply).(reader := reader, drain := drain))
  {
    SettleSenders(s, r, reply, reader, drain);
    SettleResults(s, r, reply, reader, drain);
  }

  /** What the reader holds is a sender that can explain its reply, and that nobody else has. */
  lemma HeldIsExplained(s: Client)
    requires Senders(s) && Results(s) && s.reader.Holding?
    ensures var r := s.reader.ticket;
      && r in s.ids && Explained(s.received, s.closeReason, s.ids[r], s.reader.reply)
      && r in HeldBy(s.reader) && HeldBy(s.reader) - {r} == {} && LeftIn(s.drain) - {r} == LeftIn(s.drain)
  {
    assert s.reader.ticket in HeldBy(s.reader);
  }

  lemma DeliverKeeps(s: Client)
    requires Inv(s) && ReaderEnabled(s, Deliver)
    ensures s.reader.ticket !in s.mail
    ensures Inv(ReaderNext(s, Deliver))
  {
    HeldIsExplained(s);
    assert HeldBy(Idle) == {};
    SettleKeeps(s, s.reader.ticket, s.reader.reply, Idle, s.drain);
  }

  lemma ReaderStepKeeps(s: Client, step: ReaderStep)
    requires Inv(s) && ReaderEnabled(s, step)
    ensures Inv(ReaderNext(s, step))
  {
    match step
    case Receive(id, reply) => ReceiveKeeps(s, id, reply);
    case LookPending => LookKeeps(s, step);
    case LookCancelled => LookKeeps(s, step);
    case LookTwinCancelled => LookKeeps(s, step);
    case LookTwinPending => LookTwinPendingKeeps(s);
    case Deliver => DeliverKeeps(s);
  }

  // ---- The steps of a close ----

  lemma ReasonResults(s: Client, reason: string)
    requires Results(s) && s.closeReason.None?
    ensures Results(s.(closeReason := Some(reason)))
  {
  }

  lemma CloseKeeps(s: Client, reason: string)
    requires Inv(s)
    ensures Inv(CloseNext(s, Close(reason)))
  {
    if !s.closed {
      ReasonResults(s, reason);
    }
  }

  /** The senders of the table all go to the close. */
  lemma DrainSenders(calls: seq<Phase>, ids: map<Ticket, Id>, pending: map<Id, Ticket>, inserted: set<Ticket>,
                     sending: bool, used: set<Ticket>, held: set<Ticket>, left: set<Ticket>)
    requires TableRight(calls, ids, inserted, sending, pending)
    requires HoldersRight(ids, pending, inserted, used, held, {})
    requires WaitersRight(calls, ids, pending, used, held, {})
    requires forall q, r :: q in ids && r in ids && ids[q] == ids[r] ==> q == r
    requires forall r :: r in left <==> exists id :: id in pending && pending[id] == r
    ensures HoldersRight(ids, map[], inserted, used, held, left)
    ensures WaitersRight(calls, ids, map[], used, held, left)
  {
    forall r | r in left
      ensures InTable(ids, pending, r) && r in inserted
    {
      var id :| id in pending && pending[id] == r;
      assert EntryRight(calls, ids, inserted, sending, id, r);
    }
    forall r | InTable(ids, pending, r)
      ensures r in left
    {
      assert EntryRight(calls, ids, inserted, sending, ids[r], pending[ids[r]]);
      assert pending[ids[r]] == r;
    }
    assert forall r :: 0 <= r < |calls| && Hopes(calls[r]) ==> SenderSafe(ids, pending, used, held, {}, r);
  }

  lemma DrainTableKeeps(s: Client)
    requires Inv(s) && CloseEnabled(s, DrainTable)
    ensures Inv(CloseNext(s, DrainTable))
  {
    var left := set id | id in s.pending :: s.pending[id];
    DrainSenders(s.calls, s.ids, s.pending, s.inserted, false, s.mail.Keys, HeldBy(s.reader), left);
  }

  lemma LeftIsKnown(s: Client, r: Ticket)
    requires Ids(s) && Senders(s) && r in LeftIn(s.drain)
    ensures r in s.ids && HeldBy(s.reader) - {r} == HeldBy(s.reader)
  {
  }

  lemma DrainSendKeeps(s: Client, r: Ticket)
    requires Inv(s) && CloseEnabled(s, DrainSend(r))
    ensures r !in s.mail
    ensures Inv(CloseNext(s, DrainSend(r)))
  {
    LeftIsKnown(s, r);
    SettleKeeps(s, r, Closed(s.closeReason.value), s.reader, Sending(s.drain.left - {r}));
  }

  lemma CloseStepKeeps(s: Client, step: CloseStep)
    requires Inv(s) && CloseEnabled(s, step)
    ensures Inv(CloseNext(s, step))
  {
    match step
    case Close(reason) => CloseKeeps(s, reason);
    case DrainTable => DrainTableKeeps(s);
    case DrainSend(r) => DrainSendKeeps(s, r);
  }

  // ---- Every step, and every run ----

  lemma NewCallIds(s: Client)
    requires Ids(s)
    ensures Ids(s.(calls := s.calls + [Fresh]))
  {
  }

  lemma NewCallTable(s: Client)
    requires Table(s)
    ensures Table(s.(calls := s.calls + [Fresh]))
  {
    var calls := s.calls + [Fresh];
    forall id | id in s.pending
      ensures EntryRight(calls, s.ids, s.inserted, s.drain.Sending?, id, s.pending[id])
    {
      assert EntryRight(s.calls, s.ids, s.inserted, s.drain.Sending?, id, s.pending[id]);
    }
  }

  lemma NewCallSenders(s: Client)
    requires Senders(s)
    ensures Senders(s.(calls := s.calls + [Fresh]))
  {
    var calls := s.calls + [Fresh];
    assert forall r :: 0 <= r < |calls| && Hopes(calls[r]) ==> r < |s.calls| && Hopes(s.calls[r]);
  }

  lemma NewCallKeeps(s: Client)
    requires Inv(s)
    ensures Inv(s.(calls := s.calls + [Fresh]))
  {
    NewCallIds(s);
    NewCallTable(s);
    NewCallSenders(s);
  }

  lemma StepKeeps(s: Client, a: Action)
    requires Inv(s)
    ensures Inv(Next(s, a))
  {
    match a
    case NewCall => NewCallKeeps(s);
    case ByCall(r, step) => if CallEnabled(s, r, step) { CallStepKeeps(s, r, step); }
    case ByReader(step) => if ReaderEnabled(s, step) { ReaderStepKeeps(s, step); }
    case ByClose(step) => if CloseEnabled(s, step) { CloseStepKeeps(s, step); }
  }

  lemma {:induction false} RunFromKeeps(s: Client, actions: seq<Action>)
    requires Inv(s)
    ensures Inv(RunFrom(s, actions))
    decreases |actions|
  {
    if actions != [] {
      RunFromKeeps(s, actions[..|actions| - 1]);
      StepKeeps(RunFrom(s, actions[..|actions| - 1]), actions[|actions| - 1]);
    }
  }

  lemma StartKeeps(maxPending: nat)
    ensures Inv(Start(maxPending))
  {
  }

  lemma RunKeeps(maxPending: nat, actions: seq<Action>)
    ensures Inv(Run(maxPending, actions))
  {
    StartKeeps(maxPending);
    RunFromKeeps(Start(maxPending), actions);
  }
}
