/** How the two size limits relate to parsing without limits. */
module SseLimits {
  import opened Bytes
  import opened Utf8
  import opened SseSpec

  predicate IsLimitError(e: End) {
    e == Broken(LineTooLarge) || e == Broken(EventTooLarge)
  }

  /** How many lines the unlimited parse looks at: up to the first malformed one. */
  function Looked(ls: seq<Bytes>): (n: nat)
    ensures n <= |ls|
  {
    if ls == [] then 0 else if !IsUtf8(ls[0]) then 1 else 1 + Looked(ls[1..])
  }

  /** The data in hand when the unlimited parse stops at a malformed line. */
  function Unfinished(ls: seq<Bytes>, p: Progress): Bytes {
    if ls == [] then []
    else
      match Step(ls[0], p, Unbounded)
      case Stop(_) => p.data
      case Complete => Unfinished(ls[1..], START)
      case Continue(q) => Unfinished(ls[1..], q)
  }

  ghost predicate LongLine(ls: seq<Bytes>, b: Bound) {
    exists i :: 0 <= i < Looked(ls) && !b.FitsLine(|ls[i]|)
  }

  ghost predicate LongEvent(events: seq<Bytes>, b: Bound) {
    exists i :: 0 <= i < |events| && !b.FitsEvent(|events[i]|)
  }

  lemma LongLineStep(ls: seq<Bytes>, b: Bound)
    requires ls != []
    ensures LongLine(ls, b) <==> !b.FitsLine(|ls[0]|) || (IsUtf8(ls[0]) && LongLine(ls[1..], b))
  {
    if LongLine(ls, b) {
      var i :| 0 <= i < Looked(ls) && !b.FitsLine(|ls[i]|);
      assert i > 0 ==> ls[i] == ls[1..][i - 1];
    }
    if IsUtf8(ls[0]) && LongLine(ls[1..], b) {
      var i :| 0 <= i < Looked(ls[1..]) && !b.FitsLine(|ls[1..][i]|);
      assert ls[i + 1] == ls[1..][i];
    }
  }

  lemma LongEventStep(data: Bytes, events: seq<Bytes>, b: Bound)
    ensures LongEvent([data] + events, b) <==> !b.FitsEvent(|data|) || LongEvent(events, b)
  {
    if LongEvent(events, b) {
      var i :| 0 <= i < |events| && !b.FitsEvent(|events[i]|);
      assert ([data] + events)[i + 1] == events[i];
    }
    if !b.FitsEvent(|data|) {
      assert ([data] + events)[0] == data;
    }
  }

  /** A limit shows in a single step exactly when the line or the data it makes is too long. */
  lemma StepRefines(line: Bytes, p: Progress, b: Bound)
    requires p.count == 0 ==> p == START
    requires b.FitsEvent(|p.data|)
    ensures var t, u := Step(line, p, b), Step(line, p, Unbounded);
      && (u.Stop? <==> !IsUtf8(line)) && (u.Stop? ==> u == Stop(InvalidUtf8))
      && (u.Complete? ==> p.count > 0)
      && (u.Continue? ==> p.data <= u.progress.data && (u.progress.count == 0 ==> u.progress == START))
      && t == (
        if !b.FitsLine(|line|) then Stop(LineTooLarge)
        else if u.Continue? && !b.FitsEvent(|u.progress.data|) then Stop(EventTooLarge)
        else u)
      && (u.Continue? && !b.FitsEvent(|u.progress.data|) ==> u.progress.count > 0)
  {
  }

  /** Data in hand only grows, so it is a prefix of the event it ends up in. */
  lemma {:induction false} DataGrows(ls: seq<Bytes>, p: Progress)
    requires p.count > 0
    ensures var u := Run(ls, p, Unbounded);
      if u.events == [] then p.data <= Unfinished(ls, p) else p.data <= u.events[0]
  {
    if ls != [] && Step(ls[0], p, Unbounded).Continue? {
      StepRefines(ls[0], p, Unbounded);
      DataGrows(ls[1..], Step(ls[0], p, Unbounded).progress);
    }
  }

  /** Some line that is looked at, or the data of some event, is over its limit. */
  ghost predicate Exceeds(ls: seq<Bytes>, p: Progress, b: Bound) {
    || LongLine(ls, b)
    || LongEvent(Run(ls, p, Unbounded).events, b)
    || !b.FitsEvent(|Unfinished(ls, p)|)
  }

  lemma OversizedDataExceeds(ls: seq<Bytes>, p: Progress, b: Bound)
    requires p.count > 0 && !b.FitsEvent(|p.data|)
    ensures Exceeds(ls, p, b)
  {
    DataGrows(ls, p);
    var events := Run(ls, p, Unbounded).events;
    if events != [] {
      assert !b.FitsEvent(|events[0]|);
    }
  }

  lemma {:induction false} LimitsRefineFrom(ls: seq<Bytes>, p: Progress, b: Bound)
    requires p.count == 0 ==> p == START
    requires b.FitsEvent(|p.data|)
    ensures Run(ls, p, b).events <= Run(ls, p, Unbounded).events
    ensures IsLimitError(Run(ls, p, b).end) <==> Exceeds(ls, p, b)
    ensures !IsLimitError(Run(ls, p, b).end) ==> Run(ls, p, b) == Run(ls, p, Unbounded)
  {
    if ls != [] {
      var t, u := Step(ls[0], p, b), Step(ls[0], p, Unbounded);
      LongLineStep(ls, b);
      StepRefines(ls[0], p, b);
      if t.Continue? {
        LimitsRefineFrom(ls[1..], t.progress, b);
      } else if t.Complete? {
        LimitsRefineFrom(ls[1..], START, b);
        LongEventStep(p.data, Run(ls[1..], START, Unbounded).events, b);
      } else if t.error == EventTooLarge {
        OversizedDataExceeds(ls[1..], u.progress, b);
      }
    }
  }

  /** The limited parse is a prefix of the unlimited one, cut exactly when something is over a limit. */
  lemma LimitsRefine(ls: seq<Bytes>, b: Bound)
    ensures ParseStream(ls, b).events <= ParseStream(ls, Unbounded).events
    ensures IsLimitError(ParseStream(ls, b).end) <==>
      || LongLine(ls, b)
      || LongEvent(ParseStream(ls, Unbounded).events, b)
      || !b.FitsEvent(|Unfinished(ls, START)|)
    ensures !IsLimitError(ParseStream(ls, b).end) ==> ParseStream(ls, b) == ParseStream(ls, Unbounded)
  {
    CallsAreOneFold(ls, b);
    CallsAreOneFold(ls, Unbounded);
    LimitsRefineFrom(ls, START, b);
  }

  /** In numbers: lines, events and unfinished data may be as long as their limit, and no longer. */
  lemma LimitsInNumbers(ls: seq<Bytes>, maxLine: nat, maxEvent: nat)
    ensures IsLimitError(ParseStream(ls, Bounded(maxLine, maxEvent)).end) <==>
      || (exists i :: 0 <= i < Looked(ls) && |ls[i]| > maxLine)
      || (exists i :: 0 <= i < |ParseStream(ls, Unbounded).events| && |ParseStream(ls, Unbounded).events[i]| > maxEvent)
      || |Unfinished(ls, START)| > maxEvent
  {
    LimitsRefine(ls, Bounded(maxLine, maxEvent));
  }
}
