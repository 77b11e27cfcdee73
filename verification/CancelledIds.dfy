/** The bounded window of cancelled request ids. */
module CancelledIds {
  import opened Basics
  import opened RequestIds

  const MAX_IDS: nat := 1024
  const WRAP: nat := 0x1_0000_0000_0000_0000

  /** The ids in the order they were remembered, each with the generation it was stamped with;
      the latest stamp of every id that is still wanted; and the next stamp, which wraps. */
  datatype Window = Window(order: seq<(u64, Id)>, latest: map<Id, u64>, next: u64)

  const EMPTY := Window([], map[], 0)

  /** Drops the oldest entry; its id goes too unless it was taken, or remembered again, since. */
  function PopFront(w: Window): Window
    requires w.order != []
  {
    var (generation, evicted) := w.order[0];
    Window(w.order[1..],
           if evicted in w.latest && w.latest[evicted] == generation then w.latest - {evicted} else w.latest,
           w.next)
  }

  function Evict(w: Window): Window
    decreases |w.order|
  {
    if |w.order| >= MAX_IDS then Evict(PopFront(w)) else w
  }

  function Remember(w: Window, id: Id): Window {
    var v := Evict(w);
    Window(v.order + [(v.next, id)], v.latest[id := v.next], if v.next + 1 < WRAP then v.next + 1 else 0)
  }

  function Take(w: Window, id: Id): Window {
    w.(latest := w.latest - {id})
  }

  /** The window as the client holds it. */
  class CancelledRequestIds {
    var order: seq<(u64, Id)>
    var latest: map<Id, u64>
    var nextGeneration: u64

    function Value(): Window
      reads this
    {
      Window(order, latest, nextGeneration)
    }

    constructor ()
      ensures Value() == EMPTY
    {
      order, latest, nextGeneration := [], map[], 0;
    }

    method RememberCancelledRequestId(id: Id)
      modifies this
      ensures Value() == Remember(old(Value()), id)
    {
      while |order| >= MAX_IDS
        invariant Evict(Value()) == Evict(old(Value()))
        decreases |order|
      {
        var (generation, evicted) := order[0];
        order := order[1..];
        if evicted in latest && latest[evicted] == generation {
          latest := latest - {evicted};
        }
      }
      var generation := nextGeneration;
      nextGeneration := if nextGeneration + 1 < WRAP then nextGeneration + 1 else 0;
      order := order + [(generation, id)];
      latest := latest[id := generation];
    }

    method TakeCancelledRequestId(id: Id) returns (taken: bool)
      modifies this
      ensures Value() == Take(old(Value()), id)
      ensures taken <==> id in old(latest)
    {
      taken := id in latest;
      latest := latest - {id};
    }

    method TakeCancelledRequestIdTypeMismatch(id: Id) returns (taken: bool)
      modifies this
      ensures var twin := TypeMismatchCandidateId(id);
        && (taken <==> twin.Some? && twin.value in old(latest))
        && Value() == if twin.Some? then Take(old(Value()), twin.value) else old(Value())
    {
      var twin := TypeMismatchCandidateId(id);
      if twin.None? {
        return false;
      }
      taken := TakeCancelledRequestId(twin.value);
    }
  }

  // ---- What the window remembers ----

  datatype Event = Remembered(id: Id) | Taken(id: Id)

  /** The window after any events, oldest first. */
  function Replay(events: seq<Event>): Window {
    if events == [] then EMPTY
    else
      var w := Replay(events[..|events| - 1]);
      match events[|events| - 1]
      case Remembered(id) => Remember(w, id)
      case Taken(id) => Take(w, id)
  }

  /** One of the last n remembers was for id, and it was not taken since. */
  predicate Wanted(events: seq<Event>, id: Id, n: nat) {
    if events == [] || n == 0 then false
    else
      var init := events[..|events| - 1];
      match events[|events| - 1]
      case Remembered(other) => other == id || Wanted(init, id, n - 1)
      case Taken(other) => other != id && Wanted(init, id, n)
  }

  /** How many remembers there were. */
  function Count(events: seq<Event>): nat {
    if events == [] then 0
    else Count(events[..|events| - 1]) + (if events[|events| - 1].Remembered? then 1 else 0)
  }

  /** How many remembers followed the newest one for id, if id was not taken since. */
  function Age(events: seq<Event>, id: Id): Option<nat> {
    if events == [] then None
    else
      var before := Age(events[..|events| - 1], id);
      match events[|events| - 1]
      case Remembered(other) =>
        if other == id then Some(0) else if before.None? then None else Some(before.value + 1)
      case Taken(other) => if other == id then None else before
  }

  lemma {:induction false} WantedIsYoung(events: seq<Event>, id: Id, n: nat)
    ensures Wanted(events, id, n) <==> Age(events, id).Some? && Age(events, id).value < n
  {
    if events != [] {
      var init := events[..|events| - 1];
      WantedIsYoung(init, id, n);
      if n > 0 {
        WantedIsYoung(init, id, n - 1);
      }
    }
  }

  /** The stamp of the remember that a more followed. */
  function Stamp(count: nat, a: nat): u64
    requires a < count
  {
    (count - 1 - a) % WRAP
  }

  lemma StampsDiffer(count: nat, a: nat, b: nat)
    requires a < count && b < count && a < WRAP && b < WRAP
    ensures Stamp(count, a) == Stamp(count, b) <==> a == b
  {
    var x, y := count - 1 - a, count - 1 - b;
    assert x == WRAP * (x / WRAP) + x % WRAP && y == WRAP * (y / WRAP) + y % WRAP;
  }

  lemma StampShifts(count: nat, a: nat)
    requires a < count
    ensures Stamp(count + 1, a + 1) == Stamp(count, a)
  {
  }

  /** The entry that a more followed stands a places from the end, with its stamp. */
  ghost predicate Stamped(order: seq<(u64, Id)>, count: nat) {
    && |order| == (if count < MAX_IDS then count else MAX_IDS)
    && forall i :: 0 <= i < |order| ==> order[i].0 == Stamp(count, |order| - 1 - i)
  }

  /** The newest entry of each id stands where its age says. */
  ghost predicate Placed(order: seq<(u64, Id)>, events: seq<Event>) {
    forall id :: Age(events, id).Some? && Age(events, id).value < |order| ==>
      order[|order| - 1 - Age(events, id).value].1 == id
  }

  /** The ids whose age is below n, each with the stamp of its newest remember. */
  ghost predicate LatestRight(latest: map<Id, u64>, events: seq<Event>, n: nat) {
    forall id :: (id in latest <==> Age(events, id).Some? && Age(events, id).value < n)
      && (id in latest ==>
           Age(events, id).value < Count(events) && latest[id] == Stamp(Count(events), Age(events, id).value))
  }

  ghost predicate Right(w: Window, events: seq<Event>) {
    && Stamped(w.order, Count(events))
    && Placed(w.order, events)
    && LatestRight(w.latest, events, MAX_IDS)
    && w.next == Count(events) % WRAP
  }

  /** However often the stamps have wrapped, different entries of the window have different stamps. */
  lemma StampsAreDistinct(w: Window, events: seq<Event>)
    requires Right(w, events)
    ensures forall i, j :: 0 <= i < j < |w.order| ==> w.order[i].0 != w.order[j].0
  {
    forall i, j | 0 <= i < j < |w.order|
      ensures w.order[i].0 != w.order[j].0
    {
      StampsDiffer(Count(events), |w.order| - 1 - i, |w.order| - 1 - j);
    }
  }

  /** What is left of the order when there is room for one more. */
  function Kept(order: seq<(u64, Id)>): seq<(u64, Id)> {
    if |order| < MAX_IDS then order else order[1..]
  }

  /** Popping the oldest entry forgets its id exactly when the entry is the id's newest. */
  lemma PopForgets(w: Window, events: seq<Event>)
    requires Right(w, events) && |w.order| == MAX_IDS
    ensures LatestRight(PopFront(w).latest, events, MAX_IDS - 1)
  {
    var v := PopFront(w);
    forall id
      ensures id in v.latest <==> Age(events, id).Some? && Age(events, id).value < MAX_IDS - 1
    {
      if id in w.latest {
        StampsDiffer(Count(events), Age(events, id).value, MAX_IDS - 1);
      }
    }
  }

  lemma {:induction false} AgeBelowCount(events: seq<Event>, id: Id)
    ensures Age(events, id).Some? ==> Age(events, id).value < Count(events)
  {
    if events != [] {
      AgeBelowCount(events[..|events| - 1], id);
    }
  }

  /** Making room forgets exactly the id whose newest remember is the oldest of all entries. */
  lemma EvictRight(w: Window, events: seq<Event>)
    requires Right(w, events)
    ensures var v := Evict(w);
      v.next == w.next && v.order == Kept(w.order) && LatestRight(v.latest, events, MAX_IDS - 1)
  {
    if |w.order| == MAX_IDS {
      assert Evict(w) == PopFront(w);
      PopForgets(w, events);
    } else {
      forall id
        ensures Age(events, id).Some? ==> Age(events, id).value < Count(events)
      {
        AgeBelowCount(events, id);
      }
    }
  }

  lemma AfterRemember(events: seq<Event>, id: Id)
    ensures var after := events + [Remembered(id)];
      && Count(after) == Count(events) + 1
      && (forall other :: Age(after, other) ==
           if other == id then Some(0)
           else if Age(events, other).None? then None
           else Some(Age(events, other).value + 1))
  {
    assert (events + [Remembered(id)])[..|events|] == events;
  }

  lemma LatestNext(latest: map<Id, u64>, events: seq<Event>, id: Id)
    requires LatestRight(latest, events, MAX_IDS - 1)
    ensures LatestRight(latest[id := Count(events) % WRAP], events + [Remembered(id)], MAX_IDS)
  {
    var count, after, u := Count(events), events + [Remembered(id)], latest[id := Count(events) % WRAP];
    AfterRemember(events, id);
    forall other
      ensures other in u <==> Age(after, other).Some? && Age(after, other).value < MAX_IDS
      ensures other in u ==>
        Age(after, other).value < count + 1 && u[other] == Stamp(count + 1, Age(after, other).value)
    {
      if other != id && other in latest {
        StampShifts(count, Age(events, other).value);
      }
    }
  }

  lemma StampedNext(order: seq<(u64, Id)>, count: nat, id: Id)
    requires Stamped(order, count)
    ensures Stamped(Kept(order) + [(count % WRAP, id)], count + 1)
  {
    var u := Kept(order) + [(count % WRAP, id)];
    var dropped := |order| + 1 - |u|;
    forall i | 0 <= i < |u|
      ensures u[i].0 == Stamp(count + 1, |u| - 1 - i)
    {
      if i < |u| - 1 {
        assert u[i] == order[i + dropped];
        StampShifts(count, |u| - 2 - i);
      }
    }
  }

  lemma PlacedNext(order: seq<(u64, Id)>, events: seq<Event>, id: Id, stamp: u64)
    requires Placed(order, events)
    ensures Placed(Kept(order) + [(stamp, id)], events + [Remembered(id)])
  {
    var u, after := Kept(order) + [(stamp, id)], events + [Remembered(id)];
    AfterRemember(events, id);
    forall other | Age(after, other).Some? && Age(after, other).value < |u|
      ensures u[|u| - 1 - Age(after, other).value].1 == other
    {
      if other != id {
        assert u[|u| - 1 - Age(after, other).value] == order[|order| - 1 - Age(events, other).value];
      }
    }
  }

  lemma RememberRight(w: Window, events: seq<Event>, id: Id)
    requires Right(w, events)
    ensures Right(Remember(w, id), events + [Remembered(id)])
  {
    EvictRight(w, events);
    AfterRemember(events, id);
    LatestNext(Evict(w).latest, events, id);
    StampedNext(w.order, Count(events), id);
    PlacedNext(w.order, events, id, Count(events) % WRAP);
  }

  lemma TakeRight(w: Window, events: seq<Event>, id: Id)
    requires Right(w, events)
    ensures Right(Take(w, id), events + [Taken(id)])
  {
    var after := events + [Taken(id)];
    assert after[..|events|] == events && Count(after) == Count(events);
    assert forall other :: Age(after, other) == if other == id then None else Age(events, other);
  }

  lemma {:induction false} ReplayRight(events: seq<Event>)
    ensures Right(Replay(events), events)
    decreases |events|
  {
    if events != [] {
      var init, last := events[..|events| - 1], events[|events| - 1];
      ReplayRight(init);
      assert events == init + [last];
      if last.Remembered? {
        RememberRight(Replay(init), init, last.id);
      } else {
        TakeRight(Replay(init), init, last.id);
      }
    }
  }

  /** An id is in the window exactly when one of the last 1024 remembers was for it with no take since,
      however many remembers there were and however often their stamps wrapped. */
  lemma WindowIsExact(events: seq<Event>, id: Id)
    ensures id in Replay(events).latest <==> Wanted(events, id, 1024)
    ensures |Replay(events).order| <= 1024
  {
    ReplayRight(events);
    WantedIsYoung(events, id, MAX_IDS);
  }
}
