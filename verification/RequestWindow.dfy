/** What the window of cancelled ids is in every run of the request protocol. */
module RequestWindow {
  import opened Basics
  import opened RequestIds
  import opened CancelledIds
  import opened Responses
  import opened RequestProtocol

  /** What a step asks of the window: a dropped call is remembered, a response that finds no call takes its id. */
  function WindowEvent(s: Client, a: Action): seq<Event> {
    match a
    case ByCall(r, step) => if step.GuardRemember? && CallEnabled(s, r, step) then [Remembered(s.ids[r])] else []
    case ByReader(step) => if ReaderEnabled(s, step) then ReaderEvent(s.reader, step) else []
    case _ => []
  }

  function ReaderEvent(reader: Reader, step: ReaderStep): seq<Event>
    requires step.LookCancelled? ==> reader.NotPending?
    requires step.LookTwinCancelled? ==> reader.NotCancelled?
  {
    match step
    case LookCancelled => [Taken(reader.id)]
    case LookTwinCancelled =>
      var twin := TypeMismatchCandidateId(reader.id);
      if twin.Some? then [Taken(twin.value)] else []
    case _ => []
  }

  /** What a run asked of the window, oldest first. */
  function WindowEvents(maxPending: nat, actions: seq<Action>): seq<Event> {
    if actions == [] then []
    else
      var init := actions[..|actions| - 1];
      WindowEvents(maxPending, init) + WindowEvent(Run(maxPending, init), actions[|actions| - 1])
  }

  lemma ReplayMore(events: seq<Event>, e: Event)
    ensures Replay(events + [e]) ==
      if e.Remembered? then Remember(Replay(events), e.id) else Take(Replay(events), e.id)
  {
    assert (events + [e])[..|events|] == events;
  }

  lemma TakeAbsent(w: Window, id: Id)
    requires id !in w.latest
    ensures Take(w, id) == w
  {
    assert w.latest - {id} == w.latest;
  }

  lemma SwallowTakes(s: Client, id: Id, otherwise: Reader)
    ensures Swallow(s, id, otherwise).window == Take(s.window, id)
  {
    if id !in s.window.latest {
      TakeAbsent(s.window, id);
    }
  }

  lemma ReaderWindow(s: Client, step: ReaderStep, events: seq<Event>)
    requires s.window == Replay(events) && ReaderEnabled(s, step)
    ensures ReaderNext(s, step).window == Replay(events + ReaderEvent(s.reader, step))
  {
    match step
    case LookCancelled =>
      SwallowTakes(s, s.reader.id, NotCancelled(s.reader.id));
      ReplayMore(events, Taken(s.reader.id));
    case LookTwinCancelled =>
      var twin := TypeMismatchCandidateId(s.reader.id);
      if twin.Some? {
        SwallowTakes(s, twin.value, TwinNotCancelled(s.reader.id));
        ReplayMore(events, Taken(twin.value));
      } else {
        assert events + [] == events;
      }
    case _ => assert events + [] == events;
  }

  lemma CallWindow(s: Client, r: Ticket, step: CallStep, events: seq<Event>)
    requires s.window == Replay(events) && CallEnabled(s, r, step)
    ensures CallNext(s, r, step).window == Replay(events + WindowEvent(s, ByCall(r, step)))
  {
    if step.GuardRemember? {
      ReplayMore(events, Remembered(s.ids[r]));
    } else {
      assert events + [] == events;
    }
  }

  lemma StepWindow(s: Client, a: Action, events: seq<Event>)
    requires s.window == Replay(events)
    ensures Next(s, a).window == Replay(events + WindowEvent(s, a))
  {
    assert events + [] == events;
    match a
    case NewCall =>
    case ByCall(r, step) => if CallEnabled(s, r, step) { CallWindow(s, r, step, events); }
    case ByReader(step) => if ReaderEnabled(s, step) { ReaderWindow(s, step, events); }
    case ByClose(step) =>
  }

  /** In every run the window is what its remembers and takes make of it, in their order. */
  lemma {:induction false} WindowIsReplay(maxPending: nat, actions: seq<Action>)
    ensures Run(maxPending, actions).window == Replay(WindowEvents(maxPending, actions))
    decreases |actions|
  {
    if actions != [] {
      var init := actions[..|actions| - 1];
      WindowIsReplay(maxPending, init);
      StepWindow(Run(maxPending, init), actions[|actions| - 1], WindowEvents(maxPending, init));
    }
  }

  /** The reader drops the response it is at. */
  predicate Drops(s: Client, step: ReaderStep) {
    Next(s, ByReader(step)).reader == Idle
  }

  lemma DropsOwn(s: Client)
    requires s.reader.NotPending?
    ensures Drops(s, LookCancelled) <==> s.reader.id in s.window.latest
  {
  }

  lemma DropsTwin(s: Client, twin: Option<Id>)
    requires s.reader.NotCancelled? && twin == TypeMismatchCandidateId(s.reader.id)
    ensures Drops(s, LookTwinCancelled) <==> twin.Some? && twin.value in s.window.latest
  {
  }

  /** A response that finds no call waiting is swallowed exactly when one of the last 1024 dropped calls had its id
      and no response has taken that since. */
  lemma SwallowedIff(maxPending: nat, actions: seq<Action>)
    ensures var s := Run(maxPending, actions);
      s.reader.NotPending? ==>
        (Drops(s, LookCancelled) <==> Wanted(WindowEvents(maxPending, actions), s.reader.id, 1024))
  {
    var s := Run(maxPending, actions);
    WindowIsReplay(maxPending, actions);
    if s.reader.NotPending? {
      WindowIsExact(WindowEvents(maxPending, actions), s.reader.id);
      DropsOwn(s);
    }
  }

  /** Failing that, it is swallowed exactly when this is so of its twin. */
  lemma TwinSwallowedIff(maxPending: nat, actions: seq<Action>)
    ensures var s := Run(maxPending, actions);
      s.reader.NotCancelled? ==>
        var twin := TypeMismatchCandidateId(s.reader.id);
        (Drops(s, LookTwinCancelled) <==>
          twin.Some? && Wanted(WindowEvents(maxPending, actions), twin.value, 1024))
  {
    var s := Run(maxPending, actions);
    WindowIsReplay(maxPending, actions);
    if s.reader.NotCancelled? {
      var twin := TypeMismatchCandidateId(s.reader.id);
      if twin.Some? {
        WindowIsExact(WindowEvents(maxPending, actions), twin.value);
      }
      DropsTwin(s, twin);
    }
  }
}
