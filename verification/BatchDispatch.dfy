/** What a reader does with one decoded message: a batch, member by member, or a single one
    (handle_incoming_value and handle_incoming_item). */
module BatchDispatch {
  import opened Basics
  import opened Json
  import opened RequestIds
  import opened Responses
  import opened Sequences

  /** Why a message is refused. */
  datatype Offence =
    | EmptyBatch
    | EmptyNestedBatch
    | NestedBatch
    | NotAMessage
    | BadVersion
    | BadMethod
    | BadRequestId
    | ResponseWithoutId
    | ResponseWithBadId

  /** What a member of a batch is. An offender is answered under an id, or not at all. */
  datatype Item =
    | Request(id: Id, name: string, params: Option<Json>)
    | Notification(name: string, params: Option<Json>)
    | Response(value: Json)
    | Bad(offence: Offence, answer: Option<Json>)

  function ErrorResponseIdOrNull(value: Json): Json {
    if value.Str? || value.Num? then value else Null
  }

  /** An object that has a method. */
  function ClassifyCall(fields: map<string, Json>): Item
    requires "method" in fields
  {
    var id := Field(fields, "id");
    var answer := if id.Some? then Some(ErrorResponseIdOrNull(id.value)) else None;
    if !fields["method"].Str? then Bad(BadMethod, answer)
    else if !VersionTwo(fields) then Bad(BadVersion, answer)
    else if id.None? then Notification(fields["method"].s, Field(fields, "params"))
    else if ParseIdOwned(id.value).None? then Bad(BadRequestId, Some(Null))
    else Request(ParseIdOwned(id.value).value, fields["method"].s, Field(fields, "params"))
  }

  function Classify(value: Json): Item {
    match value
    case Arr(_) => Bad(NestedBatch, Some(Null))
    case Obj(fields) =>
      if "method" in fields then ClassifyCall(fields)
      else if "id" !in fields then Bad(ResponseWithoutId, None)
      else if ParseIdOwned(fields["id"]).None? then Bad(ResponseWithBadId, None)
      else Response(value)
    case _ => Bad(NotAMessage, Some(Null))
  }

  // ---- What handling has done ----

  /** A bounded queue to a handler of this process. */
  datatype Queue = Queue(room: nat, open: bool)

  datatype Effect =
    | Queued(id: Id, name: string, params: Option<Json>)  // given to the handler, a reply is due
    | Refused(id: Id, code: int)                          // an error reply is due instead
    | Notified(name: string, params: Option<Json>)
    | Overflowed                                          // the connection was closed for it
    | Routed(value: Json)                                 // left to handle_response
    | Said(offence: Offence, to: Json)                    // an error reply is sent off at once

  datatype State = State(requests: Queue, notifications: Queue, closed: bool, effects: seq<Effect>)

  const OVERLOADED: int := -32000
  const NO_HANDLER: int := -32601

  function TakeRoom(q: Queue): Queue {
    if q.room > 0 then q.(room := q.room - 1) else q
  }

  function Did(s: State, e: Effect): State {
    s.(effects := s.effects + [e])
  }

  function Dispatch(s: State, id: Id, name: string, params: Option<Json>): State {
    if !s.requests.open then Did(s, Refused(id, NO_HANDLER))
    else if s.requests.room == 0 then Did(s, Refused(id, OVERLOADED))
    else Did(s.(requests := TakeRoom(s.requests)), Queued(id, name, params))
  }

  function Notify(s: State, name: string, params: Option<Json>): State {
    if !s.notifications.open || s.notifications.room == 0 then Did(s.(closed := true), Overflowed)
    else Did(s.(notifications := TakeRoom(s.notifications)), Notified(name, params))
  }

  /** One member handled. */
  function Handle(s: State, item: Item): State {
    match item
    case Request(id, name, params) => Dispatch(s, id, name, params)
    case Notification(name, params) => Notify(s, name, params)
    case Response(value) => Did(s, Routed(value))
    case Bad(offence, answer) => if answer.Some? then Did(s, Said(offence, answer.value)) else s
  }

  /** How a batch ended: its writer finished, or the connection was found closed. */
  datatype Ending = Finished(offence: Option<Offence>) | Dropped

  /** What others did while a member was handled: they may have closed the connection, and taken from
      the queues or shut them. */
  datatype Outside = Outside(closes: bool, requests: Queue, notifications: Queue)

  function Meanwhile(s: State, o: Outside): State {
    s.(closed := s.closed || o.closes, requests := o.requests, notifications := o.notifications)
  }

  /** The state at the closed check after the next member, with the first of what others did. */
  function AtCheck(s: State, others: seq<Outside>): State {
    if others == [] then s else Meanwhile(s, others[0])
  }

  function Later(others: seq<Outside>): seq<Outside> {
    if others == [] then [] else others[1..]
  }

  /** The members in order, up to the first offender or until the connection is found closed. */
  function Walk(s: State, items: seq<Json>, others: seq<Outside>): (State, Ending)
    decreases |items|
  {
    if items == [] then (s, Finished(None))
    else
      var item, next := Classify(items[0]), Handle(s, Classify(items[0]));
      if item.Bad? then (next, Finished(Some(item.offence)))
      else if AtCheck(next, others).closed then (AtCheck(next, others), Dropped)
      else Walk(AtCheck(next, others), items[1..], Later(others))
  }

  function HandleValue(s: State, value: Json, others: seq<Outside>): (State, Ending) {
    if !value.Arr? then
      (Handle(s, Classify(value)), Finished(if Classify(value).Bad? then Some(Classify(value).offence) else None))
    else if value.items == [] then (Did(s, Said(EmptyBatch, Null)), Finished(Some(EmptyBatch)))
    else Walk(s, value.items, others)
  }

  // ---- The code: one explicit stack ----

  /** The items, last first, none of which may be expanded. */
  function Reversed(items: seq<Json>): (stack: seq<(Json, bool)>)
    ensures |stack| == |items|
    ensures forall i :: 0 <= i < |items| ==> stack[i] == (items[|items| - 1 - i], false)
  {
    if items == [] then [] else Reversed(items[1..]) + [(items[0], false)]
  }

  class Context {
    var requests: Queue
    var notifications: Queue
    var closed: bool
    var effects: seq<Effect>

    function Value(): State
      reads this
    {
      State(requests, notifications, closed, effects)
    }

    constructor (requests: Queue, notifications: Queue)
      ensures Value() == State(requests, notifications, false, [])
    {
      this.requests, this.notifications, closed, effects := requests, notifications, false, [];
    }

    /** A request is owed one reply, whatever became of it; it is given to the handler exactly when there
        is room for it. */
    method SendRequest(id: Id, name: string, params: Option<Json>)
      modifies this
      ensures Value() == Dispatch(old(Value()), id, name, params)
      ensures Orders(effects) == Orders(old(effects)) + [Reserve(id)]
      ensures closed == old(closed) && notifications == old(notifications)
      ensures Queued(id, name, params) == effects[|effects| - 1] <==> old(requests).open && old(requests).room > 0
    {
      DispatchOrders(Value(), id, name, params);
      if !requests.open {
        effects := effects + [Refused(id, NO_HANDLER)];
      } else if requests.room == 0 {
        effects := effects + [Refused(id, OVERLOADED)];
      } else {
        requests := TakeRoom(requests);
        effects := effects + [Queued(id, name, params)];
      }
    }

    /** A notification is owed nothing; one that is not handed on costs the connection. */
    method SendNotification(name: string, params: Option<Json>)
      modifies this
      ensures Value() == Notify(old(Value()), name, params)
      ensures Orders(effects) == Orders(old(effects))
      ensures requests == old(requests)
      ensures closed <==> old(closed) || effects[|effects| - 1] != Notified(name, params)
    {
      NotifyOrders(Value(), name, params);
      if notifications.open && notifications.room > 0 {
        notifications := TakeRoom(notifications);
        effects := effects + [Notified(name, params)];
      } else {
        closed := true;
        effects := effects + [Overflowed];
      }
    }

    /** An error reply under an id, when there is an id. */
    method Say(offence: Offence, id: Option<Json>)
      modifies this
      ensures Value() == Handle(old(Value()), Bad(offence, id))
    {
      if id.Some? {
        effects := effects + [Said(offence, id.value)];
      }
    }

    method HandleCall(fields: map<string, Json>) returns (failure: Option<Offence>)
      requires "method" in fields
      modifies this
      ensures var item := ClassifyCall(fields);
        Value() == Handle(old(Value()), item) && failure == if item.Bad? then Some(item.offence) else None
    {
      var id := Field(fields, "id");
      if !fields["method"].Str? {
        Say(BadMethod, if id.Some? then Some(ErrorResponseIdOrNull(id.value)) else None);
        return Some(BadMethod);
      }
      if !VersionTwo(fields) {
        Say(BadVersion, if id.Some? then Some(ErrorResponseIdOrNull(id.value)) else None);
        return Some(BadVersion);
      }
      var params := Field(fields, "params");
      if id.Some? {
        var parsed := ParseIdOwned(id.value);
        if parsed.None? {
          Say(BadRequestId, Some(Null));
          return Some(BadRequestId);
        }
        SendRequest(parsed.value, fields["method"].s, params);
        return None;
      }
      SendNotification(fields["method"].s, params);
      return None;
    }

    /** One value, which may be an array that stands for its members when expansion is allowed. */
    method HandleIncomingItem(value: Json, allowBatchExpansion: bool, stack: seq<(Json, bool)>)
      returns (failure: Option<Offence>, rest: seq<(Json, bool)>)
      modifies this
      ensures if value.Arr? && allowBatchExpansion then
          if value.items == []
          then
            && Value() == Did(old(Value()), Said(EmptyNestedBatch, Null))
            && failure == Some(EmptyNestedBatch) && rest == stack
          else Value() == old(Value()) && failure == None && rest == stack + Reversed(value.items)
        else
          && Value() == Handle(old(Value()), Classify(value))
          && failure == (if Classify(value).Bad? then Some(Classify(value).offence) else None)
          && rest == stack
    {
      rest := stack;
      match value {
        case Arr(items) =>
          if !allowBatchExpansion {
            Say(NestedBatch, Some(Null));
            return Some(NestedBatch), rest;
          }
          if items == [] {
            Say(EmptyNestedBatch, Some(Null));
            return Some(EmptyNestedBatch), rest;
          }
          rest := stack + Reversed(items);
          return None, rest;
        case Obj(fields) =>
          if "method" in fields {
            failure := HandleCall(fields);
            return;
          }
          if "id" !in fields {
            return Some(ResponseWithoutId), rest;
          }
          if ParseIdOwned(fields["id"]).None? {
            return Some(ResponseWithBadId), rest;
          }
          effects := effects + [Routed(value)];
          return None, rest;
        case _ =>
          Say(NotAMessage, Some(Null));
          return Some(NotAMessage), rest;
      }
    }

    /** The closed check between members, which sees what others did since the last one. */
    method IsClosed(others: seq<Outside>) returns (answer: bool)
      modifies this
      ensures Value() == AtCheck(old(Value()), others) && answer == closed
    {
      if others != [] {
        closed := closed || others[0].closes;
        requests, notifications := others[0].requests, others[0].notifications;
      }
      return closed;
    }

    /** A whole decoded message. The stack always holds the members still to come, and no array among
        them is ever expanded. */
    method HandleIncomingValue(value: Json, others: seq<Outside>) returns (ending: Ending)
      modifies this
      ensures (Value(), ending) == HandleValue(old(Value()), value, others)
    {
      if !value.Arr? {
        var failure, _ := HandleIncomingItem(value, true, []);
        return Finished(failure);
      }
      if value.items == [] {
        Say(EmptyBatch, Some(Null));
        return Finished(Some(EmptyBatch));
      }
      ghost var left := value.items;
      var ahead := others;
      var stack := Reversed(value.items);
      while stack != []
        invariant stack == Reversed(left)
        invariant Walk(Value(), left, ahead) == Walk(old(Value()), value.items, others)
        decreases |left|
      {
        var (item, allowBatchExpansion) := stack[|stack| - 1];
        stack := stack[..|stack| - 1];
        assert item == left[0] && !allowBatchExpansion && stack == Reversed(left[1..]);
        var failure;
        failure, stack := HandleIncomingItem(item, allowBatchExpansion, stack);
        if failure.Some? {
          return Finished(failure);
        }
        var isClosed := IsClosed(ahead);
        if isClosed {
          return Dropped;
        }
        left, ahead := left[1..], Later(ahead);
      }
      return Finished(None);
    }
  }

  // ---- What a batch is owed ----

  /** What the reader asks of the writer of the batch's replies. */
  datatype Order = Reserve(id: Id) | Say(to: Json)

  /** A slot for a request, however it was dispatched; an answer to an offender. */
  function OrderOf(effect: Effect): seq<Order> {
    match effect
    case Queued(id, _, _) => [Reserve(id)]
    case Refused(id, _) => [Reserve(id)]
    case Said(_, id) => [Say(id)]
    case _ => []
  }

  function Orders(effects: seq<Effect>): seq<Order>
    decreases |effects|
  {
    if effects == [] then [] else Orders(effects[..|effects| - 1]) + OrderOf(effects[|effects| - 1])
  }

  /** The requests among the items, in order. */
  function Requests(items: seq<Json>): seq<Id> {
    if items == [] then []
    else (if Classify(items[0]).Request? then [Classify(items[0]).id] else []) + Requests(items[1..])
  }

  /** How many items come before the first offender. */
  function GoodPrefix(items: seq<Json>): (n: nat)
    ensures n <= |items|
    ensures forall i :: 0 <= i < n ==> !Classify(items[i]).Bad?
    ensures n < |items| ==> Classify(items[n]).Bad?
  {
    if items == [] || Classify(items[0]).Bad? then 0 else 1 + GoodPrefix(items[1..])
  }

  function Reserves(ids: seq<Id>): (r: seq<Order>)
    ensures |r| == |ids|
    ensures forall i :: 0 <= i < |ids| ==> r[i] == Reserve(ids[i])
  {
    seq(|ids|, i requires 0 <= i < |ids| => Reserve(ids[i]))
  }

  /** The ids that offenders are answered under: that of the first one, if it gets an answer. */
  function Answers(items: seq<Json>): seq<Json> {
    var n := GoodPrefix(items);
    if n < |items| && Classify(items[n]).answer.Some? then [Classify(items[n]).answer.value] else []
  }

  function LastWord(items: seq<Json>): seq<Order> {
    if Answers(items) == [] then [] else [Say(Answers(items)[0])]
  }

  /** Everything a batch is owed: a reply for each request before the first offender, and its answer. */
  function Due(items: seq<Json>): seq<Order> {
    Reserves(Requests(items[..GoodPrefix(items)])) + LastWord(items)
  }

  /** What one member is owed. */
  function DueTo(item: Item): seq<Order> {
    match item
    case Request(id, _, _) => [Reserve(id)]
    case Bad(_, answer) => if answer.Some? then [Say(answer.value)] else []
    case _ => []
  }

  lemma DueOfBad(items: seq<Json>, item: Item)
    requires items != [] && item == Classify(items[0]) && item.Bad?
    ensures Due(items) == DueTo(item)
  {
    assert items[..0] == [] && Reserves([]) == [];
  }

  lemma RequestsUnfold(items: seq<Json>, item: Item)
    requires items != [] && item == Classify(items[0]) && !item.Bad?
    ensures GoodPrefix(items) == 1 + GoodPrefix(items[1..])
    ensures Requests(items[..GoodPrefix(items)])
         == (if item.Request? then [item.id] else []) + Requests(items[1..][..GoodPrefix(items[1..])])
  {
    var n := GoodPrefix(items[1..]);
    assert items[..n + 1][0] == items[0] && items[..n + 1][1..] == items[1..][..n];
  }

  lemma LastWordUnfolds(items: seq<Json>)
    requires items != [] && !Classify(items[0]).Bad?
    ensures LastWord(items) == LastWord(items[1..])
  {
    var n := GoodPrefix(items[1..]);
    assert GoodPrefix(items) == n + 1 && (n + 1 < |items| ==> items[n + 1] == items[1..][n]);
  }

  lemma DueOfGood(items: seq<Json>, item: Item)
    requires items != [] && item == Classify(items[0]) && !item.Bad?
    ensures Due(items) == DueTo(item) + Due(items[1..])
  {
    RequestsUnfold(items, item);
    LastWordUnfolds(items);
    if item.Request? {
      var ids := Requests(items[1..][..GoodPrefix(items[1..])]);
      assert Reserves([item.id] + ids) == [Reserve(item.id)] + Reserves(ids);
      AppendAssoc([Reserve(item.id)], Reserves(ids), LastWord(items[1..]));
    }
  }

  lemma DueUnfolds(items: seq<Json>)
    requires items != []
    ensures var item := Classify(items[0]);
      Due(items) == DueTo(item) + if item.Bad? then [] else Due(items[1..])
  {
    var item := Classify(items[0]);
    if item.Bad? {
      DueOfBad(items, item);
    } else {
      DueOfGood(items, item);
    }
  }

  /** What the first offender did wrong, if there is one. */
  function FirstOffence(items: seq<Json>): Option<Offence> {
    var n := GoodPrefix(items);
    if n < |items| then Some(Classify(items[n]).offence) else None
  }

  lemma OrdersGrow(effects: seq<Effect>, e: Effect)
    ensures Orders(effects + [e]) == Orders(effects) + OrderOf(e)
  {
    assert (effects + [e])[..|effects|] == effects;
  }

  lemma DidOrders(s: State, e: Effect)
    ensures Orders(Did(s, e).effects) == Orders(s.effects) + OrderOf(e)
  {
    OrdersGrow(s.effects, e);
  }

  /** A request is owed exactly one reply, and its slot is reserved even when it is refused. */
  lemma DispatchOrders(s: State, id: Id, name: string, params: Option<Json>)
    ensures Orders(Dispatch(s, id, name, params).effects) == Orders(s.effects) + [Reserve(id)]
  {
    if !s.requests.open {
      DidOrders(s, Refused(id, NO_HANDLER));
    } else if s.requests.room == 0 {
      DidOrders(s, Refused(id, OVERLOADED));
    } else {
      DidOrders(s.(requests := TakeRoom(s.requests)), Queued(id, name, params));
    }
  }

  /** A notification is owed nothing, even when it costs the connection. */
  lemma NotifyOrders(s: State, name: string, params: Option<Json>)
    ensures Orders(Notify(s, name, params).effects) == Orders(s.effects)
  {
    if !s.notifications.open || s.notifications.room == 0 {
      DidOrders(s.(closed := true), Overflowed);
    } else {
      DidOrders(s.(notifications := TakeRoom(s.notifications)), Notified(name, params));
    }
  }

  /** Handling a member orders what the member is owed. */
  lemma HandleOrders(s: State, item: Item)
    ensures Orders(Handle(s, item).effects) == Orders(s.effects) + DueTo(item)
  {
    assert Orders(s.effects) + [] == Orders(s.effects);
    match item
    case Request(id, name, params) => DispatchOrders(s, id, name, params);
    case Notification(name, params) => NotifyOrders(s, name, params);
    case Response(value) => DidOrders(s, Routed(value));
    case Bad(offence, answer) => if answer.Some? { DidOrders(s, Said(offence, answer.value)); }
  }

  /** A walk that is not cut short by a close orders exactly what the batch is owed, and fails exactly
      when there is an offender; one that is cut short has ordered a part of it. Whatever others do to the
      connection and the queues meanwhile makes no other difference. */
  lemma {:induction false} WalkOrdersDue(s: State, items: seq<Json>, others: seq<Outside>)
    ensures var (end, ending) := Walk(s, items, others);
      if ending.Finished? then
        && Orders(end.effects) == Orders(s.effects) + Due(items)
        && ending.offence == FirstOffence(items)
      else
        Orders(end.effects) <= Orders(s.effects) + Due(items) && end.closed
    decreases |items|
  {
    if items != [] {
      var item, next := Classify(items[0]), AtCheck(Handle(s, Classify(items[0])), others);
      DueUnfolds(items);
      HandleOrders(s, item);
      if !item.Bad? {
        AppendAssoc(Orders(s.effects), DueTo(item), Due(items[1..]));
        if !next.closed {
          WalkOrdersDue(next, items[1..], Later(others));
        }
      }
    }
  }
}
