/** What callers are promised in every run of the request protocol. */
module RequestPromises {
  import opened Basics
  import opened RequestIds
  import opened Responses
  import opened RequestProtocol
  import opened RequestInvariant

  // ---- Every waiter ----

  predicate HasEntry(s: Client, r: Ticket) {
    r in s.ids && s.ids[r] in s.pending && s.pending[s.ids[r]] == r
  }

  /** A call that counts on a result has it, or its sender is in the table, with the reader, or with the close. */
  lemma HopeIsSafe(s: Client, r: Ticket)
    requires Ids(s) && Table(s) && Senders(s) && r < |s.calls| && Hopes(s.calls[r])
    ensures r in s.mail || HasEntry(s, r) || r in HeldBy(s.reader) || r in LeftIn(s.drain)
    ensures HasEntry(s, r) && s.drain.Sending? ==> s.calls[r] == Inserted
  {
    assert SenderSafe(s.ids, s.pending, s.mail.Keys, HeldBy(s.reader), LeftIn(s.drain), r);
    assert InTable(s.ids, s.pending, r) ==>
      EntryRight(s.calls, s.ids, s.inserted, s.drain.Sending?, s.ids[r], s.pending[s.ids[r]]);
  }

  predicate Waits(s: Client, r: Ticket) {
    At(s, r, Writing) || At(s, r, Waiting)
  }

  /** Once a close has emptied the table and sent what it took, every call that passed the second
      closed check and still waits has a result, unless the reader is about to deliver one. */
  lemma NoStrandedWaiter(maxPending: nat, actions: seq<Action>, r: Ticket)
    ensures var s := Run(maxPending, actions);
      s.drain == Sending({}) && Waits(s, r) ==> r in s.mail || r in HeldBy(s.reader)
  {
    var s := Run(maxPending, actions);
    RunKeeps(maxPending, actions);
    if Waits(s, r) {
      HopeIsSafe(s, r);
    }
  }

  /** In no state does a waiter find its channel closed without a result. */
  lemma NoLostSender(maxPending: nat, actions: seq<Action>, r: Ticket)
    ensures var s := Run(maxPending, actions);
      At(s, r, Inserted) || Waits(s, r) ==>
        r in s.mail || HasEntry(s, r) || r in HeldBy(s.reader) || r in LeftIn(s.drain)
  {
    var s := Run(maxPending, actions);
    RunKeeps(maxPending, actions);
    if At(s, r, Inserted) || Waits(s, r) {
      HopeIsSafe(s, r);
    }
  }

  /** No channel is sent on twice, and the table never outgrows its limit. */
  lemma SettledOnceAndBounded(maxPending: nat, actions: seq<Action>)
    ensures var s := Run(maxPending, actions);
      && (forall i, j :: 0 <= i < j < |s.sends| ==> s.sends[i] != s.sends[j])
      && |s.pending| <= s.maxPending
  {
    RunKeeps(maxPending, actions);
  }

  /** A result that answers a call came in a response with exactly that call's id; what else a call
      can get is a mismatch error from its twin, or the one reason the client was closed for. */
  lemma RepliesAreOwn(maxPending: nat, actions: seq<Action>, r: Ticket)
    ensures var s := Run(maxPending, actions);
      r in s.mail ==> r in s.ids && Explained(s.received, s.closeReason, s.ids[r], s.mail[r])
  {
    RunKeeps(maxPending, actions);
  }

  lemma EntryOfCall(s: Client, id: Id)
    requires Table(s) && id in s.pending
    ensures s.pending[id] < |s.calls| && Sent(s.calls[s.pending[id]])
  {
    assert EntryRight(s.calls, s.ids, s.inserted, s.drain.Sending?, id, s.pending[id]);
  }

  /** An entry outlives no call: when all calls have returned, the table is empty. */
  lemma NoLeakedEntry(maxPending: nat, actions: seq<Action>)
    ensures var s := Run(maxPending, actions);
      (forall r :: 0 <= r < |s.calls| ==> s.calls[r] == Done) ==> s.pending == map[]
  {
    var s := Run(maxPending, actions);
    RunKeeps(maxPending, actions);
    forall id | id in s.pending
      ensures !(forall r :: 0 <= r < |s.calls| ==> s.calls[r] == Done)
    {
      EntryOfCall(s, id);
    }
  }

  // ---- The first reason ----

  predicate ClosedFor(s: Client, reason: string) {
    s.closed && s.closeReason == Some(reason)
  }

  /** What concerns closing stays as it is. */
  predicate SameClose(s: Client, after: Client) {
    after.closed == s.closed && after.closeReason == s.closeReason && after.drain == s.drain
  }

  lemma CallKeepsReason(s: Client, r: Ticket, step: CallStep)
    requires CallEnabled(s, r, step)
    ensures SameClose(s, CallNext(s, r, step)) && CallNext(s, r, step).reader == s.reader
  {
  }

  lemma PickUpKeepsReason(s: Client, id: Id, reply: Reply, otherwise: Reader)
    ensures SameClose(s, PickUp(s, id, reply, otherwise))
  {
  }

  lemma SwallowKeepsReason(s: Client, id: Id, otherwise: Reader)
    ensures SameClose(s, Swallow(s, id, otherwise))
  {
  }

  lemma TwinKeepsReason(s: Client, twin: Option<Id>, otherwise: Reader)
    ensures SameClose(s, SwallowTwin(s, twin, otherwise)) && SameClose(s, PickUpTwin(s, twin))
  {
  }

  lemma ReaderKeepsReason(s: Client, step: ReaderStep)
    requires ReaderEnabled(s, step)
    ensures SameClose(s, ReaderNext(s, step))
  {
    match step
    case Receive(id, reply) =>
    case LookPending => PickUpKeepsReason(s, s.reader.id, s.reader.reply, NotPending(s.reader.id));
    case LookCancelled => SwallowKeepsReason(s, s.reader.id, NotCancelled(s.reader.id));
    case LookTwinCancelled =>
      TwinKeepsReason(s, TypeMismatchCandidateId(s.reader.id), TwinNotCancelled(s.reader.id));
    case LookTwinPending => TwinKeepsReason(s, TypeMismatchCandidateId(s.reader.id), Idle);
    case Deliver =>
  }

  lemma StepKeepsReason(s: Client, a: Action, reason: string)
    requires ClosedFor(s, reason)
    ensures ClosedFor(Next(s, a), reason)
  {
    match a
    case NewCall =>
    case ByCall(r, step) => if CallEnabled(s, r, step) { CallKeepsReason(s, r, step); }
    case ByReader(step) => if ReaderEnabled(s, step) { ReaderKeepsReason(s, step); }
    case ByClose(step) =>
  }

  /** The first reason to close stays the reason, whatever happens after. */
  lemma {:induction false} FirstReasonStays(maxPending: nat, before: seq<Action>, after: seq<Action>, reason: string)
    requires ClosedFor(Run(maxPending, before), reason)
    ensures ClosedFor(Run(maxPending, before + after), reason)
    decreases |after|
  {
    if after == [] {
      assert before + after == before;
    } else {
      var init, a := after[..|after| - 1], after[|after| - 1];
      FirstReasonStays(maxPending, before, init, reason);
      assert before + after == (before + init) + [a];
      RunSnoc(Start(maxPending), before + init, a);
      StepKeepsReason(Run(maxPending, before + init), a, reason);
    }
  }

  /** The first close of a run sets the reason, and all that come after it leave it. */
  lemma FirstReasonIsKept(maxPending: nat, before: seq<Action>, reason: string, after: seq<Action>)
    requires !Run(maxPending, before).closed
    ensures ClosedFor(Run(maxPending, before + [ByClose(Close(reason))] + after), reason)
  {
    RunSnoc(Start(maxPending), before, ByClose(Close(reason)));
    FirstReasonStays(maxPending, before + [ByClose(Close(reason))], after, reason);
  }

  lemma DrainTells(s: Client, r: Ticket, reason: string)
    requires ClosedFor(s, reason) && CloseEnabled(s, DrainSend(r)) && r !in s.mail
    ensures var after := Next(s, ByClose(DrainSend(r))); r in after.mail && after.mail[r] == Closed(reason)
  {
  }

  /** A call whose sender the close has is told that reason. */
  lemma CloseTellsReason(s: Client, r: Ticket, reason: string)
    requires Inv(s) && ClosedFor(s, reason) && r in LeftIn(s.drain)
    ensures var after := Next(s, ByClose(DrainSend(r))); r in after.mail && after.mail[r] == Closed(reason)
  {
    DrainSendKeeps(s, r);
    DrainTells(s, r, reason);
  }

  // ---- A close comes to its end ----

  /** Once a close has taken the senders, no step takes back a send: the senders that are left only become fewer. */
  lemma DrainOnlyShrinks(s: Client, a: Action)
    requires s.drain.Sending? && s.closed
    ensures Next(s, a).drain.Sending? && Next(s, a).drain.left <= s.drain.left
  {
    match a
    case NewCall =>
    case ByCall(r, step) => if CallEnabled(s, r, step) { CallKeepsReason(s, r, step); }
    case ByReader(step) => if ReaderEnabled(s, step) { ReaderKeepsReason(s, step); }
    case ByClose(step) =>
  }

  function ReaderRank(reader: Reader): (n: nat)
    ensures n <= 5
  {
    match reader
    case Idle => 0
    case Looking(_, _) => 5
    case NotPending(_) => 4
    case NotCancelled(_) => 3
    case TwinNotCancelled(_) => 2
    case Holding(_, _) => 1
  }

  /** The step that a reader with a response in hand takes next. */
  function ReaderStepOf(reader: Reader): ReaderStep
    requires reader != Idle
  {
    match reader
    case Looking(_, _) => LookPending
    case NotPending(_) => LookCancelled
    case NotCancelled(_) => LookTwinCancelled
    case TwinNotCancelled(_) => LookTwinPending
    case Holding(_, _) => Deliver
  }

  lemma OnlyReaderStep(s: Client, step: ReaderStep)
    requires s.reader != Idle
    ensures ReaderEnabled(s, step) <==> step == ReaderStepOf(s.reader)
  {
  }

  /** Where looking something up leaves the reader. */
  lemma PickUpLeads(s: Client, id: Id, reply: Reply, otherwise: Reader)
    ensures PickUp(s, id, reply, otherwise).reader.Holding? || PickUp(s, id, reply, otherwise).reader == otherwise
  {
  }

  lemma SwallowLeads(s: Client, id: Id, otherwise: Reader)
    ensures Swallow(s, id, otherwise).reader == Idle || Swallow(s, id, otherwise).reader == otherwise
  {
  }

  lemma SwallowTwinLeads(s: Client, twin: Option<Id>, otherwise: Reader)
    ensures SwallowTwin(s, twin, otherwise).reader == Idle || SwallowTwin(s, twin, otherwise).reader == otherwise
  {
  }

  lemma PickUpTwinLeads(s: Client, twin: Option<Id>)
    ensures PickUpTwin(s, twin).reader.Holding? || PickUpTwin(s, twin).reader == Idle
  {
  }

  lemma StepLeads(s: Client, step: ReaderStep)
    requires ReaderEnabled(s, step) && !step.Receive?
    ensures ReaderRank(ReaderNext(s, step).reader) < ReaderRank(s.reader)
  {
    match step
    case LookPending => PickUpLeads(s, s.reader.id, s.reader.reply, NotPending(s.reader.id));
    case LookCancelled => SwallowLeads(s, s.reader.id, NotCancelled(s.reader.id));
    case LookTwinCancelled =>
      SwallowTwinLeads(s, TypeMismatchCandidateId(s.reader.id), TwinNotCancelled(s.reader.id));
    case LookTwinPending => PickUpTwinLeads(s, TypeMismatchCandidateId(s.reader.id));
    case Deliver =>
  }

  lemma ReaderRankDrops(s: Client)
    requires s.reader != Idle
    ensures ReaderRank(Next(s, ByReader(ReaderStepOf(s.reader))).reader) < ReaderRank(s.reader)
  {
    OnlyReaderStep(s, ReaderStepOf(s.reader));
    StepLeads(s, ReaderStepOf(s.reader));
  }

  /** The reader always can go on with a response, and others do not hold it up. */
  lemma ReaderGoesOn(s: Client, a: Action)
    requires s.reader != Idle
    ensures ReaderEnabled(s, ReaderStepOf(s.reader))
    ensures if a == ByReader(ReaderStepOf(s.reader)) then ReaderRank(Next(s, a).reader) < ReaderRank(s.reader)
            else Next(s, a).reader == s.reader
  {
    match a
    case NewCall =>
    case ByCall(r, step) => if CallEnabled(s, r, step) { CallKeepsReason(s, r, step); }
    case ByReader(step) =>
      OnlyReaderStep(s, step);
      ReaderRankDrops(s);
    case ByClose(step) =>
  }

  /** A step that finishes what the reader and the close have begun. */
  predicate Finishes(a: Action) {
    (a.ByReader? && !a.read.Receive?) || (a.ByClose? && !a.close.Close?)
  }

  predicate AllFinish(actions: seq<Action>) {
    forall k :: 0 <= k < |actions| ==> Finishes(actions[k])
  }

  lemma FinishesFirst(a: Action, rest: seq<Action>)
    requires Finishes(a) && AllFinish(rest)
    ensures AllFinish([a] + rest)
  {
  }

  lemma {:induction false} ReaderFinishes(s: Client) returns (rest: seq<Action>)
    ensures var end := RunFrom(s, rest);
      end.reader == Idle && SameClose(s, end)
    ensures |rest| <= ReaderRank(s.reader) && AllFinish(rest)
    decreases ReaderRank(s.reader)
  {
    rest := [];
    if s.reader != Idle {
      var a := ByReader(ReaderStepOf(s.reader));
      ReaderGoesOn(s, a);
      ReaderKeepsReason(s, ReaderStepOf(s.reader));
      var more := ReaderFinishes(Next(s, a));
      RunCons(s, a, more);
      FinishesFirst(a, more);
      rest := [a] + more;
    }
  }

  lemma SendGoesOn(s: Client, r: Ticket)
    requires Closes(s) && s.drain.Sending? && r in s.drain.left
    ensures CloseEnabled(s, DrainSend(r))
    ensures var after := Next(s, ByClose(DrainSend(r)));
      && Closes(after) && after.drain == Sending(s.drain.left - {r}) && after.reader == s.reader
      && |s.drain.left - {r}| == |s.drain.left| - 1
  {
  }

  lemma {:induction false} DrainFinishes(s: Client) returns (rest: seq<Action>)
    requires Closes(s) && s.drain.Sending?
    ensures var end := RunFrom(s, rest);
      end.reader == s.reader && end.drain == Sending({})
    ensures |rest| <= |s.drain.left| && AllFinish(rest)
    decreases |s.drain.left|
  {
    rest := [];
    if s.drain.left != {} {
      var r :| r in s.drain.left;
      var a := ByClose(DrainSend(r));
      SendGoesOn(s, r);
      var more := DrainFinishes(Next(s, a));
      RunCons(s, a, more);
      FinishesFirst(a, more);
      rest := [a] + more;
    }
  }

  function Image(pending: map<Id, Ticket>, ids: set<Id>): set<Ticket>
    requires ids <= pending.Keys
  {
    set id | id in ids :: pending[id]
  }

  lemma {:induction false} ImageIsNoMore(pending: map<Id, Ticket>, ids: set<Id>)
    requires ids <= pending.Keys
    ensures |Image(pending, ids)| <= |ids|
    decreases |ids|
  {
    if ids != {} {
      var id :| id in ids;
      ImageIsNoMore(pending, ids - {id});
      assert Image(pending, ids) == Image(pending, ids - {id}) + {pending[id]};
    }
  }

  lemma TableIsTaken(s: Client)
    requires s.drain == Marked
    ensures Next(s, ByClose(DrainTable)).drain.Sending?
    ensures |Next(s, ByClose(DrainTable)).drain.left| <= |s.pending|
  {
    ImageIsNoMore(s.pending, s.pending.Keys);
    assert Image(s.pending, s.pending.Keys) == set id | id in s.pending :: s.pending[id];
    assert |s.pending.Keys| == |s.pending|;
  }

  /** From every state in which a close has taken the senders, the reader and the close, left to themselves, finish
      within one step a sender and five more, and then every call that waits has its result. */
  lemma WaitersAreServed(s: Client) returns (rest: seq<Action>)
    requires Inv(s) && s.drain.Sending?
    ensures AllFinish(rest) && |rest| <= |s.drain.left| + 5
    ensures AllServed(RunFrom(s, rest))
  {
    var first := ReaderFinishes(s);
    var second := DrainFinishes(RunFrom(s, first));
    rest := first + second;
    RunAppend(s, first, second);
    var end := RunFrom(RunFrom(s, first), second);
    RunFromKeeps(s, rest);
    forall r | Waits(end, r)
      ensures r in end.mail
    {
      HopeIsSafe(end, r);
    }
  }

  /** The close is done, the reader has nothing in hand, and every call that waits has its result. */
  ghost predicate AllServed(s: Client) {
    && s.drain == Sending({}) && s.reader == Idle
    && forall r :: Waits(s, r) ==> r in s.mail
  }

  /** How many senders a close has still to come by or to send on, and the step that takes them. */
  function ToClose(s: Client): nat {
    if s.drain.Sending? then |s.drain.left| else |s.pending| + 1
  }

  /** From every closed state of every run, the reader and the close, left to themselves, finish within one step a
      sender and six more, and then every call that waits has its result. */
  lemma EveryWaiterIsServed(maxPending: nat, actions: seq<Action>) returns (rest: seq<Action>)
    requires Run(maxPending, actions).closed
    ensures AllFinish(rest) && |rest| <= ToClose(Run(maxPending, actions)) + 5
    ensures AllServed(Run(maxPending, actions + rest))
  {
    var s := Run(maxPending, actions);
    RunKeeps(maxPending, actions);
    if s.drain.Sending? {
      rest := WaitersAreServed(s);
    } else {
      var a := ByClose(DrainTable);
      TableIsTaken(s);
      StepKeeps(s, a);
      var more := WaitersAreServed(Next(s, a));
      RunCons(s, a, more);
      FinishesFirst(a, more);
      rest := [a] + more;
    }
    RunAppend(Start(maxPending), actions, rest);
  }

  // ---- The reader's steps amount to handle_response ----

  /** The last two of the reader's steps. */
  function HandleRest(s: Client): Client {
    Next(Next(s, ByReader(LookTwinPending)), ByReader(Deliver))
  }

  /** One response handled with no other step in between. */
  function HandleAlone(s: Client, id: Id, reply: Reply): Client {
    var received := Next(s, ByReader(Receive(id, reply)));
    var looked := Next(Next(received, ByReader(LookPending)), ByReader(LookCancelled));
    HandleRest(Next(looked, ByReader(LookTwinCancelled)))
  }

  /** The table, the window and the waiter are as the routing says. */
  ghost predicate Routed(s: Client, after: Client, routing: Routing) {
    && after.reader == Idle
    && after.pending == routing.pending && after.window == routing.window
    && after.sends == s.sends + (if routing.settled.Some? then [routing.settled.value.0] else [])
    && (routing.settled.Some? && routing.settled.value.0 !in s.mail ==>
         after.mail == s.mail[routing.settled.value.0 := routing.settled.value.1])
  }

  lemma OwnIsRouted(s: Client, id: Id, reply: Reply)
    requires s.reader == Idle && FromWire(id) && id in s.pending
    ensures Routed(s, HandleAlone(s, id, reply), RouteId(s.pending, s.window, id, reply))
  {
    var looked := Next(Next(s, ByReader(Receive(id, reply))), ByReader(LookPending));
    assert looked.reader == Holding(s.pending[id], reply);
    assert Next(looked, ByReader(LookCancelled)) == looked;
  }

  lemma LateIsRouted(s: Client, id: Id, reply: Reply)
    requires s.reader == Idle && FromWire(id) && id !in s.pending && id in s.window.latest
    ensures Routed(s, HandleAlone(s, id, reply), RouteId(s.pending, s.window, id, reply))
  {
    var looked := Next(Next(s, ByReader(Receive(id, reply))), ByReader(LookPending));
    assert Next(looked, ByReader(LookCancelled)).reader == Idle;
  }

  lemma IdleRests(s: Client)
    requires s.reader == Idle
    ensures HandleRest(s) == s
  {
  }

  lemma StrayRests(s: Client, id: Id, twin: Option<Id>)
    requires s.reader == TwinNotCancelled(id) && twin == TypeMismatchCandidateId(id)
    requires twin.Some? ==> twin.value !in s.pending
    ensures HandleRest(s) == s.(reader := Idle)
  {
  }

  lemma TwinFound(s: Client, twin: Id)
    requires twin in s.pending
    ensures PickUpTwin(s, Some(twin)) ==
      s.(reader := Holding(s.pending[twin], Invalid(TypeMismatch)), pending := s.pending - {twin})
  {
  }

  lemma HeldSettles(s: Client)
    requires s.reader.Holding?
    ensures Next(s, ByReader(Deliver)) == Settle(s, s.reader.ticket, s.reader.reply).(reader := Idle)
  {
  }

  lemma TwinSettles(s: Client, id: Id, twin: Id)
    requires s.reader == TwinNotCancelled(id) && TypeMismatchCandidateId(id) == Some(twin) && twin in s.pending
    ensures HandleRest(s) ==
      Settle(s.(pending := s.pending - {twin}), s.pending[twin], Invalid(TypeMismatch)).(reader := Idle)
  {
    var held := s.(reader := Holding(s.pending[twin], Invalid(TypeMismatch)), pending := s.pending - {twin});
    TwinFound(s, twin);
    HeldSettles(held);
    assert Next(s, ByReader(LookTwinPending)) == held;
  }

  lemma MissIsRouted(s: Client, id: Id, reply: Reply)
    requires s.reader == NotCancelled(id) && id !in s.pending && id !in s.window.latest
    ensures Routed(s, HandleRest(Next(s, ByReader(LookTwinCancelled))), RouteId(s.pending, s.window, id, reply))
  {
    var twin, next := TypeMismatchCandidateId(id), Next(s, ByReader(LookTwinCancelled));
    if twin.Some? && twin.value in s.window.latest {
      IdleRests(next);
    } else if twin.Some? && twin.value in s.pending {
      TwinSettles(next, id, twin.value);
    } else {
      StrayRests(next, id, twin);
    }
  }

  lemma TwinIsRouted(s: Client, id: Id, reply: Reply)
    requires s.reader == Idle && FromWire(id) && id !in s.pending && id !in s.window.latest
    ensures Routed(s, HandleAlone(s, id, reply), RouteId(s.pending, s.window, id, reply))
  {
    var missed := s.(received := s.received + {(id, reply)}, reader := NotCancelled(id));
    var looked := Next(Next(s, ByReader(Receive(id, reply))), ByReader(LookPending));
    assert Next(looked, ByReader(LookCancelled)) == missed;
    MissIsRouted(missed, id, reply);
  }

  /** Left to itself the reader does to the table, the window and the waiter just what routing says. */
  lemma ReaderIsRouting(s: Client, id: Id, reply: Reply)
    requires s.reader == Idle && FromWire(id)
    ensures Routed(s, HandleAlone(s, id, reply), RouteId(s.pending, s.window, id, reply))
  {
    if id in s.pending {
      OwnIsRouted(s, id, reply);
    } else if id in s.window.latest {
      LateIsRouted(s, id, reply);
    } else {
      TwinIsRouted(s, id, reply);
    }
  }
}
