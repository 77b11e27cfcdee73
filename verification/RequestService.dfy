/** That calls are let in and answered: what the open client does for a call, whatever other calls do meanwhile. */
module RequestService {
  import opened RequestIds
  import opened Responses
  import opened Sequences
  import opened RequestProtocol
  import opened RequestInvariant
  import opened RequestPromises

  // ---- Being let in ----

  /** Both closed checks let a call go on exactly while the client is open. */
  lemma OpenLetsGoOn(s: Client, r: Ticket)
    ensures At(s, r, Fresh) ==> Next(s, ByCall(r, CheckClosed)) == Move(s, r, if s.closed then Done else Admitted)
    ensures At(s, r, Inserted) ==>
      Next(s, ByCall(r, CheckClosedAgain)) == Move(s, r, if s.closed then Failing else Writing)
  {
  }

  /** The table holds exactly one more entry, that of r under its id. */
  ghost predicate EntryAdded(before: map<Id, Ticket>, after: map<Id, Ticket>, id: Id, r: Ticket) {
    id !in before && after == before[id := r] && |after| == |before| + 1
  }

  lemma OneMore(before: map<Id, Ticket>, id: Id, r: Ticket)
    requires id !in before
    ensures EntryAdded(before, before[id := r], id, r)
  {
    assert before[id := r].Keys == before.Keys + {id};
    assert |before[id := r]| == |before[id := r].Keys| && |before| == |before.Keys|;
  }

  /** A call is refused exactly when as many are pending as may be, and then nothing else changes; otherwise the table
      has its entry and every other. */
  lemma InsertedIff(s: Client, r: Ticket)
    requires Inv(s) && CallEnabled(s, r, Insert)
    ensures var after := Next(s, ByCall(r, Insert));
      if |s.pending| >= s.maxPending then after == Move(s, r, Done)
      else At(after, r, Inserted) && EntryAdded(s.pending, after.pending, s.ids[r], r)
  {
    if |s.pending| < s.maxPending {
      InsertIds(s.calls, s.ids, s.nextId, s.inserted, r);
      InsertTable(s.calls, s.ids, s.inserted, s.drain.Sending?, s.pending, r);
      NotOthers(s, r);
      OneMore(s.pending, s.ids[r], r);
    }
  }

  lemma NotOthers(s: Client, r: Ticket)
    requires Inv(s) && At(s, r, Numbered) && r in s.ids
    ensures s.ids[r] !in s.pending
  {
    if s.ids[r] in s.pending {
      EntryIsOwn(s, s.ids[r]);
      NotInTable(s, r);
      assert InTable(s.ids, s.pending, r);
    }
  }

  // ---- Being served ----

  /** A step of the call itself, of the reader, or one that closes; all others are aside. */
  predicate Aside(a: Action, r: Ticket) {
    match a
    case NewCall => true
    case ByCall(q, _) => q != r
    case ByReader(_) => false
    case ByClose(step) => !step.Close?
  }

  /** The steps that are not aside, in order. */
  function Own(actions: seq<Action>, r: Ticket): seq<Action>
    decreases |actions|
  {
    if actions == [] then []
    else Own(actions[..|actions| - 1], r) + if Aside(actions[|actions| - 1], r) then [] else [actions[|actions| - 1]]
  }

  /** The k-th step of a call that is answered: its own, and those of the reader with one response. */
  function ServiceAt(k: nat, r: Ticket, id: Id, reply: Reply): Action {
    match k
    case 0 => ByCall(r, CheckClosed)
    case 1 => ByCall(r, TakeId)
    case 2 => ByCall(r, Insert)
    case 3 => ByCall(r, CheckClosedAgain)
    case 4 => ByCall(r, WriteDone)
    case 5 => ByReader(Receive(id, reply))
    case 6 => ByReader(LookPending)
    case 7 => ByReader(Deliver)
    case _ => ByCall(r, TakeResult)
  }

  /** All nine of them. */
  function Service(r: Ticket, id: Id, reply: Reply): (steps: seq<Action>)
    ensures |steps| == 9
    ensures forall k :: 0 <= k < 9 ==> steps[k] == ServiceAt(k, r, id, reply)
  {
    seq(9, k requires 0 <= k < 9 => ServiceAt(k, r, id, reply))
  }

  /** There is an id left for the call, there is room in the table when it comes to that, and the response bears the id
      that the call has. */
  predicate Suits(s: Client, a: Action, r: Ticket) {
    && (a == ByCall(r, TakeId) ==> s.nextId < I64_MAX)
    && (a == ByCall(r, Insert) ==> |s.pending| < s.maxPending)
    && (a.ByReader? && a.read.Receive? ==> FromWire(a.read.id) && r in s.ids && s.ids[r] == a.read.id)
  }

  predicate HasMail(s: Client, r: Ticket, reply: Reply) {
    r in s.mail && s.mail[r] == reply
  }

  /** The call has returned with the reply, from a client that is still open. */
  predicate Served(s: Client, r: Ticket, reply: Reply) {
    At(s, r, Done) && HasMail(s, r, reply) && !s.closed
  }

  /** Where the call and the reader are after k of the steps. */
  predicate Stage(s: Client, r: Ticket, k: nat, id: Id, reply: Reply) {
    match k
    case 0 => At(s, r, Fresh) && s.reader == Idle
    case 1 => At(s, r, Admitted) && s.reader == Idle
    case 2 => At(s, r, Numbered) && s.reader == Idle && r in s.ids
    case 3 => At(s, r, Inserted) && s.reader == Idle && HasEntry(s, r)
    case 4 => At(s, r, Writing) && s.reader == Idle && HasEntry(s, r)
    case 5 => At(s, r, Waiting) && s.reader == Idle && HasEntry(s, r)
    case 6 => At(s, r, Waiting) && s.reader == Looking(id, reply) && HasEntry(s, r) && s.ids[r] == id
    case 7 => At(s, r, Waiting) && s.reader == Holding(r, reply)
    case 8 => At(s, r, Waiting) && s.reader == Idle && HasMail(s, r, reply)
    case 9 => At(s, r, Done) && s.reader == Idle && HasMail(s, r, reply)
    case _ => false
  }

  ghost predicate InOpen(s: Client) {
    Inv(s) && !s.closed
  }

  lemma StageStep(s: Client, r: Ticket, k: nat, id: Id, reply: Reply)
    requires InOpen(s) && k < 9 && Stage(s, r, k, id, reply)
    requires Suits(s, ServiceAt(k, r, id, reply), r)
    ensures Stage(Next(s, ServiceAt(k, r, id, reply)), r, k + 1, id, reply)
    ensures InOpen(Next(s, ServiceAt(k, r, id, reply)))
  {
    StepKeeps(s, ServiceAt(k, r, id, reply));
    if k < 3 {
      EarlyStage(s, r, k, id, reply);
    } else if k < 6 {
      MiddleStage(s, r, k, id, reply);
    } else {
      if k == 7 {
        HeldIsUnused(s, r, id, reply);
      }
      LateStage(s, r, k, id, reply);
    }
  }

  lemma EarlyStage(s: Client, r: Ticket, k: nat, id: Id, reply: Reply)
    requires k < 3 && Stage(s, r, k, id, reply) && Suits(s, ServiceAt(k, r, id, reply), r) && !s.closed
    ensures var after := Next(s, ServiceAt(k, r, id, reply)); Stage(after, r, k + 1, id, reply) && !after.closed
  {
  }

  lemma MiddleStage(s: Client, r: Ticket, k: nat, id: Id, reply: Reply)
    requires 3 <= k < 6 && Stage(s, r, k, id, reply) && Suits(s, ServiceAt(k, r, id, reply), r) && !s.closed
    ensures var after := Next(s, ServiceAt(k, r, id, reply)); Stage(after, r, k + 1, id, reply) && !after.closed
  {
  }

  lemma HeldIsUnused(s: Client, r: Ticket, id: Id, reply: Reply)
    requires Inv(s) && Stage(s, r, 7, id, reply)
    ensures r !in s.mail
  {
    DeliverKeeps(s);
  }

  lemma LateStage(s: Client, r: Ticket, k: nat, id: Id, reply: Reply)
    requires 6 <= k < 9 && Stage(s, r, k, id, reply) && !s.closed
    requires k == 7 ==> r !in s.mail
    ensures var after := Next(s, ServiceAt(k, r, id, reply)); Stage(after, r, k + 1, id, reply) && !after.closed
  {
    if k == 6 {
      LookStage(s, r, id, reply);
    } else if k == 7 {
      DeliverStage(s, r, id, reply);
    } else {
      TakeStage(s, r, id, reply);
    }
  }

  lemma LookStage(s: Client, r: Ticket, id: Id, reply: Reply)
    requires Stage(s, r, 6, id, reply) && !s.closed
    ensures var after := Next(s, ByReader(LookPending)); Stage(after, r, 7, id, reply) && !after.closed
  {
  }

  lemma DeliverStage(s: Client, r: Ticket, id: Id, reply: Reply)
    requires Stage(s, r, 7, id, reply) && !s.closed && r !in s.mail
    ensures var after := Next(s, ByReader(Deliver)); Stage(after, r, 8, id, reply) && !after.closed
  {
  }

  lemma TakeStage(s: Client, r: Ticket, id: Id, reply: Reply)
    requires Stage(s, r, 8, id, reply) && !s.closed
    ensures var after := Next(s, ByCall(r, TakeResult)); Stage(after, r, 9, id, reply) && !after.closed
  {
  }

  // ---- What others do meanwhile ----

  /** What a step aside leaves alone. */
  ghost predicate LeavesAlone(s: Client, after: Client, r: Ticket) {
    && r < |s.calls| && r < |after.calls| && after.calls[r] == s.calls[r]
    && after.closed == s.closed && after.reader == s.reader && after.mail == s.mail
    && (r in s.ids ==> r in after.ids && after.ids[r] == s.ids[r])
    && (HasEntry(s, r) ==> HasEntry(after, r))
  }

  lemma OthersIds(s: Client, r: Ticket, q: Ticket)
    requires Ids(s) && r in s.ids && q in s.ids && q != r
    ensures s.ids[q] != s.ids[r]
  {
  }

  lemma CallAside(s: Client, r: Ticket, q: Ticket, step: CallStep)
    requires r < |s.calls| && q != r && CallEnabled(s, q, step)
    requires q in s.ids && r in s.ids ==> s.ids[q] != s.ids[r]
    ensures LeavesAlone(s, CallNext(s, q, step), r)
  {
  }

  lemma StepAside(s: Client, a: Action, r: Ticket)
    requires InOpen(s) && r < |s.calls| && Aside(a, r)
    ensures LeavesAlone(s, Next(s, a), r) && InOpen(Next(s, a))
  {
    StepKeeps(s, a);
    match a
    case NewCall =>
    case ByCall(q, step) =>
      if q in s.ids && r in s.ids {
        OthersIds(s, r, q);
      }
      if CallEnabled(s, q, step) {
        CallAside(s, r, q, step);
      }
    case ByClose(step) =>
  }

  lemma StageAside(s: Client, after: Client, r: Ticket, k: nat, id: Id, reply: Reply)
    requires Stage(s, r, k, id, reply) && LeavesAlone(s, after, r)
    ensures Stage(after, r, k, id, reply)
  {
  }

  // ---- The whole service ----

  /** Every step of the run suits the call in the state that it is taken in. */
  ghost predicate AllSuit(s: Client, actions: seq<Action>, r: Ticket) {
    forall k :: 0 <= k < |actions| ==> Suits(RunFrom(s, actions[..k]), actions[k], r)
  }

  ghost predicate Reached(s: Client, r: Ticket, k: nat, id: Id, reply: Reply) {
    InOpen(s) && Stage(s, r, k, id, reply)
  }

  /** One more step after those in done. */
  lemma ServiceStep(s: Client, a: Action, r: Ticket, done: seq<Action>, id: Id, reply: Reply)
    requires Reached(s, r, |done|, id, reply) && Suits(s, a, r)
    requires !Aside(a, r) ==> |done| < 9 && a == ServiceAt(|done|, r, id, reply)
    ensures Reached(Next(s, a), r, if Aside(a, r) then |done| else |done| + 1, id, reply)
  {
    if Aside(a, r) {
      StepAside(s, a, r);
      StageAside(s, Next(s, a), r, |done|, id, reply);
    } else {
      StageStep(s, r, |done|, id, reply);
    }
  }

  lemma OwnSnoc(init: seq<Action>, a: Action, r: Ticket, steps: seq<Action>)
    requires Own(init + [a], r) <= steps
    ensures Own(init, r) <= steps
    ensures |Own(init + [a], r)| == if Aside(a, r) then |Own(init, r)| else |Own(init, r)| + 1
    ensures !Aside(a, r) ==> |Own(init, r)| < |steps| && a == steps[|Own(init, r)|]
  {
    assert (init + [a])[..|init|] == init;
    if !Aside(a, r) {
      assert Own(init + [a], r)[|Own(init, r)|] == a;
    }
  }

  ghost predicate ReachedBy(s: Client, actions: seq<Action>, r: Ticket, id: Id, reply: Reply) {
    Reached(RunFrom(s, actions), r, |Own(actions, r)|, id, reply)
  }

  lemma ServiceSnoc(s: Client, init: seq<Action>, a: Action, more: seq<Action>, r: Ticket, id: Id, reply: Reply)
    requires ReachedBy(s, init, r, id, reply) && Suits(RunFrom(s, init), a, r)
    requires more == init + [a] && Own(more, r) <= Service(r, id, reply)
    ensures ReachedBy(s, more, r, id, reply)
  {
    OwnSnoc(init, a, r, Service(r, id, reply));
    RunSnoc(s, init, a);
    ServiceStep(RunFrom(s, init), a, r, Own(init, r), id, reply);
  }

  lemma {:induction false} OwnPrefix(actions: seq<Action>, k: nat, r: Ticket)
    requires k <= |actions|
    ensures Own(actions[..k], r) <= Own(actions, r)
    decreases |actions|
  {
    if k == |actions| {
      assert actions[..k] == actions;
    } else {
      var init := actions[..|actions| - 1];
      OwnPrefix(init, k, r);
      assert init[..k] == actions[..k];
    }
  }

  lemma ServiceBegins(s: Client, none: seq<Action>, r: Ticket, id: Id, reply: Reply)
    requires Reached(s, r, 0, id, reply) && none == []
    ensures ReachedBy(s, none, r, id, reply)
  {
  }

  lemma {:induction false} ServiceStages(s: Client, actions: seq<Action>, k: nat, r: Ticket, id: Id, reply: Reply)
    requires Reached(s, r, 0, id, reply) && k <= |actions|
    requires Own(actions, r) <= Service(r, id, reply) && AllSuit(s, actions, r)
    ensures ReachedBy(s, actions[..k], r, id, reply)
    decreases k
  {
    if k == 0 {
      ServiceBegins(s, actions[..k], r, id, reply);
    } else {
      ServiceStages(s, actions, k - 1, r, id, reply);
      OwnPrefix(actions, k, r);
      TakeSnoc(actions, k - 1);
      ServiceSnoc(s, actions[..k - 1], actions[k - 1], actions[..k], r, id, reply);
    }
  }

  lemma ServiceEnds(s: Client, r: Ticket, id: Id, reply: Reply)
    requires Reached(s, r, 9, id, reply)
    ensures Served(s, r, reply)
  {
  }

  /** From every state that keeps the invariant, with the client open: a call that takes its steps, finds an id and
      room, and whose id one response bears, returns with just that reply, whatever steps of other calls, and however
      many, are taken in between. */
  lemma CallIsServed(s: Client, actions: seq<Action>, r: Ticket, id: Id, reply: Reply)
    requires InOpen(s) && At(s, r, Fresh) && s.reader == Idle
    requires Own(actions, r) == Service(r, id, reply) && AllSuit(s, actions, r)
    ensures Served(RunFrom(s, actions), r, reply)
  {
    assert Reached(s, r, 0, id, reply);
    ServiceStages(s, actions, |actions|, r, id, reply);
    assert actions[..|actions|] == actions;
    ServiceEnds(RunFrom(s, actions), r, id, reply);
  }

  // ---- Such runs exist ----

  /** What the first steps of a call alone leave as it was, and which id the call gets. */
  predicate Ready(start: Client, s: Client, k: nat, r: Ticket) {
    && (k <= 1 ==> s.nextId == start.nextId)
    && (k <= 2 ==> s.pending == start.pending && s.maxPending == start.maxPending)
    && (2 <= k <= 5 ==> r in s.ids && s.ids[r] == Integer(start.nextId))
  }

  /** An id is left, and there is room. */
  predicate Admits(s: Client) {
    s.nextId < I64_MAX && |s.pending| < s.maxPending
  }

  lemma ReadySuits(start: Client, s: Client, k: nat, r: Ticket, reply: Reply)
    requires Ready(start, s, k, r) && Admits(start) && k < 9
    ensures Suits(s, ServiceAt(k, r, Integer(start.nextId), reply), r)
  {
  }

  lemma ReadyStep(start: Client, s: Client, k: nat, r: Ticket, reply: Reply)
    requires Ready(start, s, k, r) && Admits(start) && k < 5
    requires Stage(s, r, k, Integer(start.nextId), reply) && !s.closed
    ensures Ready(start, Next(s, ServiceAt(k, r, Integer(start.nextId), reply)), k + 1, r)
  {
  }

  ghost predicate AloneAt(start: Client, s: Client, k: nat, r: Ticket, reply: Reply) {
    Reached(s, r, k, Integer(start.nextId), reply) && Ready(start, s, k, r)
  }

  lemma AloneStep(start: Client, s: Client, k: nat, r: Ticket, reply: Reply)
    requires AloneAt(start, s, k, r, reply) && Admits(start) && k < 9
    ensures AloneAt(start, Next(s, ServiceAt(k, r, Integer(start.nextId), reply)), k + 1, r, reply)
  {
    ReadySuits(start, s, k, r, reply);
    StageStep(s, r, k, Integer(start.nextId), reply);
    if k < 5 {
      ReadyStep(start, s, k, r, reply);
    }
  }

  lemma RunTake(s: Client, steps: seq<Action>, k: nat)
    requires k < |steps|
    ensures RunFrom(s, steps[..k + 1]) == Next(RunFrom(s, steps[..k]), steps[k])
  {
    TakeSnoc(steps, k);
    RunSnoc(s, steps[..k], steps[k]);
  }

  lemma AloneSnoc(start: Client, steps: seq<Action>, k: nat, r: Ticket, reply: Reply)
    requires |steps| == 9 && k < 9 && steps[k] == ServiceAt(k, r, Integer(start.nextId), reply)
    requires AloneAt(start, RunFrom(start, steps[..k]), k, r, reply) && Admits(start)
    ensures AloneAt(start, RunFrom(start, steps[..k + 1]), k + 1, r, reply)
  {
    RunTake(start, steps, k);
    AloneStep(start, RunFrom(start, steps[..k]), k, r, reply);
  }

  lemma {:induction false} AloneStages(start: Client, steps: seq<Action>, r: Ticket, reply: Reply, k: nat)
    requires AloneAt(start, start, 0, r, reply) && Admits(start) && k <= 9 == |steps|
    requires forall i :: 0 <= i < 9 ==> steps[i] == ServiceAt(i, r, Integer(start.nextId), reply)
    ensures AloneAt(start, RunFrom(start, steps[..k]), k, r, reply)
  {
    if k == 0 {
      assert RunFrom(start, steps[..0]) == start;
    } else {
      AloneStages(start, steps, r, reply, k - 1);
      AloneSnoc(start, steps, k - 1, r, reply);
    }
  }

  lemma AloneEnds(start: Client, steps: seq<Action>, r: Ticket, reply: Reply)
    requires |steps| == 9 && AloneAt(start, RunFrom(start, steps[..9]), 9, r, reply)
    ensures Served(RunFrom(start, steps), r, reply)
  {
    assert steps[..9] == steps;
    ServiceEnds(RunFrom(start, steps), r, Integer(start.nextId), reply);
  }

  lemma AloneIsServed(start: Client, r: Ticket, reply: Reply)
    requires AloneAt(start, start, 0, r, reply) && Admits(start)
    ensures Served(RunFrom(start, Service(r, Integer(start.nextId), reply)), r, reply)
  {
    var steps := Service(r, Integer(start.nextId), reply);
    AloneStages(start, steps, r, reply, 9);
    AloneEnds(start, steps, r, reply);
  }

  lemma NewCallIsFresh(s: Client, reply: Reply)
    requires InOpen(s) && s.reader == Idle && Admits(s)
    ensures var start := Next(s, NewCall);
      AloneAt(start, start, 0, |s.calls|, reply) && Admits(start) && start.nextId == s.nextId
  {
    StepKeeps(s, NewCall);
  }

  /** A new call on an open client, with an id left, room in the table and a reader that is idle, is served when it and
      the response to it are left to themselves. */
  lemma NewCallIsServed(s: Client, reply: Reply)
    requires InOpen(s) && s.reader == Idle && Admits(s)
    ensures var r, id := |s.calls|, Integer(s.nextId);
      Served(RunFrom(Next(s, NewCall), Service(r, id, reply)), r, reply)
  {
    NewCallIsFresh(s, reply);
    AloneIsServed(Next(s, NewCall), |s.calls|, reply);
  }

  // ---- Being given up ----

  /** The call has returned, no entry of its is left, and the window remembers its id, if it is to. */
  ghost predicate GivenUp(s: Client, r: Ticket, remembered: bool) {
    && At(s, r, Done) && !InTable(s.ids, s.pending, r)
    && (remembered ==> r in s.ids && s.ids[r] in s.window.latest)
  }

  lemma HasId(s: Client, r: Ticket)
    requires Ids(s) && r < |s.calls| && Sent(s.calls[r])
    ensures r in s.ids
  {
  }

  lemma CancelSteps(s: Client, r: Ticket)
    requires At(s, r, Inserted) || Waits(s, r)
    requires r in s.ids
    ensures var gone := Next(Next(s, ByCall(r, Cancel)), ByCall(r, GuardRemove));
      At(gone, r, Forgetting) && gone.ids == s.ids && gone.pending == s.pending - {s.ids[r]}
  {
  }

  lemma CancelledKeeps(s: Client, r: Ticket)
    requires Inv(s) && (At(s, r, Inserted) || Waits(s, r))
    ensures var gone := Next(Next(s, ByCall(r, Cancel)), ByCall(r, GuardRemove));
      Inv(gone) && CallEnabled(gone, r, GuardRemember) && gone.ids == s.ids
  {
    HasId(s, r);
    CancelSteps(s, r);
    StepKeeps(s, ByCall(r, Cancel));
    StepKeeps(Next(s, ByCall(r, Cancel)), ByCall(r, GuardRemove));
  }

  /** A call can be dropped from the moment its entry is in the table until it returns; its guard then takes the entry
      out and has the id remembered. */
  lemma DroppedCallEnds(s: Client, r: Ticket)
    requires Inv(s) && (At(s, r, Inserted) || Waits(s, r))
    ensures var gone := Next(Next(s, ByCall(r, Cancel)), ByCall(r, GuardRemove));
      GivenUp(Next(gone, ByCall(r, GuardRemember)), r, true)
  {
    CancelledKeeps(s, r);
    RememberKeeps(Next(Next(s, ByCall(r, Cancel)), ByCall(r, GuardRemove)), r);
  }

  lemma FailSteps(s: Client, r: Ticket, step: CallStep)
    requires r in s.ids
    requires (At(s, r, Writing) && step == WriteFailed) || (At(s, r, Inserted) && s.closed && step == CheckClosedAgain)
    ensures var after := Next(Next(s, ByCall(r, step)), ByCall(r, RemoveOwn));
      At(after, r, Done) && after.ids == s.ids && after.pending == s.pending - {s.ids[r]} && after.window == s.window
  {
    assert At(Next(s, ByCall(r, step)), r, Failing);
  }

  /** A call whose write failed, or that found the client closed, takes its entry out; nothing is remembered. */
  lemma FailedCallEnds(s: Client, r: Ticket)
    requires Inv(s) && (At(s, r, Writing) || (At(s, r, Inserted) && s.closed))
    ensures var failed := Next(s, ByCall(r, if At(s, r, Writing) then WriteFailed else CheckClosedAgain));
      var after := Next(failed, ByCall(r, RemoveOwn));
      GivenUp(after, r, false) && after.window == s.window
  {
    HasId(s, r);
    FailSteps(s, r, if At(s, r, Writing) then WriteFailed else CheckClosedAgain);
  }
}
