/** What a member of a batch, or a message of its own, is taken for, as what handling it does shows. */
module BatchMembers {
  import opened Basics
  import opened Json
  import opened RequestIds
  import opened Responses
  import opened Sequences
  import opened ResponseReplies
  import opened BatchDispatch

  // ---- The three good kinds ----

  predicate IsCall(v: Json, name: string, params: Option<Json>) {
    && v.Obj? && Versioned(v.fields)
    && Has(v.fields, "method", Json.Str(name)) && HasMaybe(v.fields, "params", params)
  }

  predicate IsRequest(v: Json, id: Id, name: string, params: Option<Json>) {
    IsCall(v, name, params) && BearsId(v, id)
  }

  predicate IsNotification(v: Json, name: string, params: Option<Json>) {
    IsCall(v, name, params) && "id" !in v.fields
  }

  predicate IsResponse(v: Json, id: Id) {
    BearsId(v, id) && "method" !in v.fields
  }

  ghost predicate SomeRequest(v: Json) {
    exists id, name, params :: IsRequest(v, id, name, params)
  }

  ghost predicate SomeNotification(v: Json) {
    exists name, params :: IsNotification(v, name, params)
  }

  ghost predicate SomeResponse(v: Json) {
    exists id :: IsResponse(v, id)
  }

  ghost predicate Good(v: Json) {
    SomeRequest(v) || SomeNotification(v) || SomeResponse(v)
  }

  // ---- Offenders ----

  /** Why a member that is none of these is refused. */
  function WhyBad(v: Json): Offence {
    if v.Arr? then NestedBatch
    else if !v.Obj? then NotAMessage
    else if "method" in v.fields then
      if !v.fields["method"].Str? then BadMethod else if !Versioned(v.fields) then BadVersion else BadRequestId
    else if "id" !in v.fields then ResponseWithoutId
    else ResponseWithBadId
  }

  /** Under which id it is answered: none when it is an object without an id or without a method; else the id it has,
      where that is a string or a number and not the very thing that is wrong; else null. */
  function AnswerTo(v: Json): Option<Json> {
    if v.Obj? && ("method" !in v.fields || "id" !in v.fields) then None
    else if v.Obj? && WhyBad(v) != BadRequestId && (v.fields["id"].Str? || v.fields["id"].Num?)
    then Some(v.fields["id"])
    else Some(Null)
  }

  // ---- What an item is ----

  lemma RequestIsClassified(v: Json, id: Id, name: string, params: Option<Json>)
    ensures Classify(v) == Request(id, name, params) <==> IsRequest(v, id, name, params)
  {
    if v.Obj? && "id" in v.fields {
      IdIsWritten(v.fields["id"], id);
    }
  }

  lemma NotificationIsClassified(v: Json, name: string, params: Option<Json>)
    ensures Classify(v) == Notification(name, params) <==> IsNotification(v, name, params)
  {
  }

  lemma ResponseIsClassified(v: Json)
    ensures Classify(v) == Response(v) <==> SomeResponse(v)
    ensures Classify(v).Response? ==> Classify(v) == Response(v)
  {
    if v.Obj? && "id" in v.fields {
      var parsed := ParseIdOwned(v.fields["id"]);
      forall id
        ensures BearsId(v, id) <==> parsed == Some(id)
      {
        IdIsWritten(v.fields["id"], id);
      }
      if parsed.Some? && "method" !in v.fields {
        assert IsResponse(v, parsed.value);
      }
    }
  }

  lemma GoodIsClassified(v: Json)
    ensures Classify(v).Request? <==> SomeRequest(v)
    ensures Classify(v).Notification? <==> SomeNotification(v)
    ensures Classify(v).Response? <==> SomeResponse(v)
  {
    var item := Classify(v);
    if item.Request? {
      RequestIsClassified(v, item.id, item.name, item.params);
    }
    if id, name, params :| IsRequest(v, id, name, params) {
      RequestIsClassified(v, id, name, params);
    }
    if item.Notification? {
      NotificationIsClassified(v, item.name, item.params);
    }
    if name, params :| IsNotification(v, name, params) {
      NotificationIsClassified(v, name, params);
    }
    ResponseIsClassified(v);
  }

  lemma BadIsClassified(v: Json)
    requires Classify(v).Bad?
    ensures Classify(v) == Bad(WhyBad(v), AnswerTo(v))
  {
  }

  // ---- What one member does ----

  /** One member of a batch, with nothing done by others. */
  function Member(s: State, v: Json): (State, Ending) {
    Walk(s, [v], [])
  }

  lemma MemberIsHandled(s: State, v: Json)
    ensures Member(s, v).0 == Handle(s, Classify(v))
    ensures Classify(v).Bad? ==> Member(s, v).1 == Finished(Some(Classify(v).offence))
    ensures !Classify(v).Bad? ==> Member(s, v).1 == if Handle(s, Classify(v)).closed then Dropped else Finished(None)
  {
    assert [v][1..] == [] && Later([]) == [];
    assert Walk(AtCheck(Handle(s, Classify(v)), []), [], []) == (Handle(s, Classify(v)), Finished(None));
  }

  /** A message that is not an array is handled as a member is; there is no check of the connection after it. */
  lemma AloneLikeAMember(s: State, v: Json, others: seq<Outside>)
    requires !v.Arr?
    ensures HandleValue(s, v, others).0 == Member(s, v).0
    ensures HandleValue(s, v, others).1 == if Good(v) then Finished(None) else Finished(Some(WhyBad(v)))
  {
    MemberIsHandled(s, v);
    GoodIsClassified(v);
    if Classify(v).Bad? {
      BadIsClassified(v);
    }
  }

  /** What the room left in a queue and its being open mean for one more entry. */
  predicate Takes(q: Queue) {
    q.open && q.room > 0
  }

  function Less1(q: Queue): Queue
    requires q.room > 0
  {
    Queue(q.room - 1, q.open)
  }

  /** A request goes to the handler with its id, its method and its parameters, or is refused under its id when the
      queue is full or shut; it never closes the connection. */
  lemma RequestIsHandled(s: State, v: Json, id: Id, name: string, params: Option<Json>)
    requires IsRequest(v, id, name, params)
    ensures Member(s, v).0 ==
      if Takes(s.requests) then s.(requests := Less1(s.requests), effects := s.effects + [Queued(id, name, params)])
      else s.(effects := s.effects + [Refused(id, if s.requests.open then -32000 else -32601)])
  {
    RequestIsClassified(v, id, name, params);
    MemberIsHandled(s, v);
  }

  /** A notification goes to its handler, or costs the connection when the queue is full or shut. */
  lemma NotificationIsHandled(s: State, v: Json, name: string, params: Option<Json>)
    requires IsNotification(v, name, params)
    ensures Member(s, v).0 ==
      if Takes(s.notifications)
      then s.(notifications := Less1(s.notifications), effects := s.effects + [Notified(name, params)])
      else s.(closed := true, effects := s.effects + [Overflowed])
  {
    NotificationIsClassified(v, name, params);
    MemberIsHandled(s, v);
  }

  /** A response is left to handle_response, as it is. */
  lemma ResponseIsHandled(s: State, v: Json)
    requires SomeResponse(v)
    ensures Member(s, v).0 == s.(effects := s.effects + [Routed(v)])
  {
    ResponseIsClassified(v);
    MemberIsHandled(s, v);
  }

  /** Everything else fails the message, for the reason it has, with one error reply to whom it is due or with none. */
  lemma OffenderIsHandled(s: State, v: Json)
    requires !Good(v)
    ensures Member(s, v).1 == Finished(Some(WhyBad(v)))
    ensures Member(s, v).0 ==
      if AnswerTo(v).Some? then s.(effects := s.effects + [Said(WhyBad(v), AnswerTo(v).value)]) else s
  {
    MemberIsHandled(s, v);
    GoodIsClassified(v);
    BadIsClassified(v);
  }

  lemma GoodGoesOn(s: State, v: Json)
    requires Good(v)
    ensures Member(s, v).1 == if Member(s, v).0.closed then Dropped else Finished(None)
  {
    MemberIsHandled(s, v);
    GoodIsClassified(v);
  }

  // ---- What an effect tells of the member ----

  /** What handling the member added to what was done before. */
  predicate Does(s: State, v: Json, e: Effect) {
    Member(s, v).0.effects == s.effects + [e]
  }

  /** What a member did when it did anything, as a value. */
  function EffectOf(s: State, item: Item): Option<Effect> {
    var after := Handle(s, item).effects;
    if |after| > |s.effects| then Some(after[|s.effects|]) else None
  }

  lemma EffectIsOne(s: State, v: Json, e: Effect)
    ensures Does(s, v, e) <==> EffectOf(s, Classify(v)) == Some(e)
  {
    MemberIsHandled(s, v);
    var after := Handle(s, Classify(v)).effects;
    assert after == s.effects || after == s.effects + [after[|s.effects|]];
  }

  /** A request is given to the handler exactly when it is one, with that id, method and parameters, and there is
      room; a notification likewise; and only a response is left to handle_response. */
  lemma GivenExactly(s: State, v: Json, id: Id, name: string, params: Option<Json>)
    ensures Does(s, v, Queued(id, name, params)) <==> IsRequest(v, id, name, params) && Takes(s.requests)
    ensures Does(s, v, Notified(name, params)) <==> IsNotification(v, name, params) && Takes(s.notifications)
    ensures forall w :: Does(s, v, Routed(w)) <==> w == v && SomeResponse(v)
  {
    EffectIsOne(s, v, Queued(id, name, params));
    EffectIsOne(s, v, Notified(name, params));
    RequestIsClassified(v, id, name, params);
    NotificationIsClassified(v, name, params);
    ResponseIsClassified(v);
    forall w
      ensures Does(s, v, Routed(w)) <==> w == v && SomeResponse(v)
    {
      EffectIsOne(s, v, Routed(w));
    }
  }

  /** What is turned away: a request for want of room or of a handler, a notification likewise, and an offender. */
  lemma TurnedAwayExactly(s: State, v: Json)
    ensures forall id, code :: Does(s, v, Refused(id, code)) <==>
      SomeRequest(v) && BearsId(v, id) && !Takes(s.requests) && code == if s.requests.open then -32000 else -32601
    ensures Does(s, v, Overflowed) <==> SomeNotification(v) && !Takes(s.notifications)
    ensures forall offence, to :: Does(s, v, Said(offence, to)) <==>
      !Good(v) && offence == WhyBad(v) && AnswerTo(v) == Some(to)
  {
    GoodIsClassified(v);
    EffectIsOne(s, v, Overflowed);
    forall id, code
      ensures Does(s, v, Refused(id, code)) <==>
        SomeRequest(v) && BearsId(v, id) && !Takes(s.requests) && code == if s.requests.open then -32000 else -32601
    {
      EffectIsOne(s, v, Refused(id, code));
      RefusedUnderItsId(v, id);
    }
    forall offence, to
      ensures Does(s, v, Said(offence, to)) <==> !Good(v) && offence == WhyBad(v) && AnswerTo(v) == Some(to)
    {
      EffectIsOne(s, v, Said(offence, to));
      if Classify(v).Bad? {
        BadIsClassified(v);
      }
    }
  }

  lemma RefusedUnderItsId(v: Json, id: Id)
    ensures Classify(v).Request? ==> (Classify(v).id == id <==> BearsId(v, id))
  {
    if Classify(v).Request? {
      IdIsWritten(v.fields["id"], id);
    }
  }

  // ---- A batch is its members in turn ----

  /** The rest of a batch is handled from where its first member left it, unless that was an offender or the connection
      is found closed. */
  lemma MembersInTurn(s: State, v: Json, rest: seq<Json>, others: seq<Outside>)
    ensures Walk(s, [v] + rest, others) ==
      if !Good(v) then Member(s, v)
      else if AtCheck(Member(s, v).0, others).closed then (AtCheck(Member(s, v).0, others), Dropped)
      else Walk(AtCheck(Member(s, v).0, others), rest, Later(others))
  {
    MemberIsHandled(s, v);
    GoodIsClassified(v);
    assert ([v] + rest)[0] == v && ([v] + rest)[1..] == rest;
  }

  /** What others did while the member was handled is seen at the check after it: a close ends the batch there. */
  lemma OthersAreSeen(s: State, v: Json, rest: seq<Json>, o: Outside, others: seq<Outside>)
    requires Good(v)
    ensures var after := Member(s, v).0.(requests := o.requests, notifications := o.notifications);
      Walk(s, [v] + rest, [o] + others) ==
        if Member(s, v).0.closed || o.closes then (after.(closed := true), Dropped)
        else Walk(after.(closed := false), rest, others)
  {
    MembersInTurn(s, v, rest, [o] + others);
    assert ([o] + others)[1..] == others;
  }

  // ---- Messages as peers write them ----

  function CallFields(name: string, params: Option<Json>): map<string, Json> {
    var fields: map<string, Json> := map["jsonrpc" := Json.Str("2.0"), "method" := Json.Str(name)];
    if params.Some? then fields["params" := params.value] else fields
  }

  function EncodeRequest(id: Id, name: string, params: Option<Json>): Json {
    Obj(CallFields(name, params)["id" := IdValue(id)])
  }

  function EncodeNotification(name: string, params: Option<Json>): Json {
    Obj(CallFields(name, params))
  }

  lemma Encoded(id: Id, name: string, params: Option<Json>)
    requires FromWire(id)
    ensures IsRequest(EncodeRequest(id, name, params), id, name, params)
    ensures IsNotification(EncodeNotification(name, params), name, params)
  {
  }

  datatype Call = Call(id: Id, name: string, params: Option<Json>)

  function EncodeAll(calls: seq<Call>): seq<Json> {
    if calls == [] then [] else [EncodeRequest(calls[0].id, calls[0].name, calls[0].params)] + EncodeAll(calls[1..])
  }

  function QueuedAll(calls: seq<Call>): seq<Effect> {
    if calls == [] then [] else [Queued(calls[0].id, calls[0].name, calls[0].params)] + QueuedAll(calls[1..])
  }

  lemma OneIsQueued(s: State, c: Call, rest: seq<Json>)
    requires Takes(s.requests) && !s.closed && FromWire(c.id)
    ensures Walk(s, [EncodeRequest(c.id, c.name, c.params)] + rest, []) ==
      Walk(s.(requests := Less1(s.requests), effects := s.effects + [Queued(c.id, c.name, c.params)]), rest, [])
  {
    var v := EncodeRequest(c.id, c.name, c.params);
    Encoded(c.id, c.name, c.params);
    RequestIsHandled(s, v, c.id, c.name, c.params);
    MembersInTurn(s, v, rest, []);
  }

  /** A batch of requests that there is room for is given to the handler whole and in order, unchanged. */
  lemma {:induction false} BatchIsQueued(s: State, calls: seq<Call>)
    requires s.requests.open && s.requests.room >= |calls| && !s.closed
    requires forall i :: 0 <= i < |calls| ==> FromWire(calls[i].id)
    ensures Walk(s, EncodeAll(calls), []) ==
      (s.(requests := Queue(s.requests.room - |calls|, true), effects := s.effects + QueuedAll(calls)), Finished(None))
    decreases |calls|
  {
    if calls == [] {
      assert s.effects + [] == s.effects;
    } else {
      var effect := Queued(calls[0].id, calls[0].name, calls[0].params);
      OneIsQueued(s, calls[0], EncodeAll(calls[1..]));
      BatchIsQueued(s.(requests := Less1(s.requests), effects := s.effects + [effect]), calls[1..]);
      AppendAssoc(s.effects, [effect], QueuedAll(calls[1..]));
    }
  }

  /** An array stands for its members, and an empty one is an offender itself. */
  lemma ArrayIsItsMembers(s: State, items: seq<Json>, others: seq<Outside>)
    ensures HandleValue(s, Arr(items), others) ==
      if items != [] then Walk(s, items, others)
      else (s.(effects := s.effects + [Said(EmptyBatch, Null)]), Finished(Some(EmptyBatch)))
  {
  }

  // ---- What a batch is owed, by the look of its members ----

  /** The members before the first offender are the good ones that come first, and the answer is the offender's. */
  lemma OwedByShape(items: seq<Json>)
    ensures var n := GoodPrefix(items);
      && (forall i :: 0 <= i < n ==> Good(items[i]))
      && (n < |items| ==> !Good(items[n]))
      && Answers(items) == if n < |items| && AnswerTo(items[n]).Some? then [AnswerTo(items[n]).value] else []
  {
    var n := GoodPrefix(items);
    forall i | 0 <= i < n
      ensures Good(items[i])
    {
      GoodIsClassified(items[i]);
    }
    if n < |items| {
      GoodIsClassified(items[n]);
      BadIsClassified(items[n]);
    }
  }

  /** The requests among the members are those that look like one, under the ids that they bear. */
  lemma RequestsByShape(v: Json, rest: seq<Json>, id: Id)
    ensures SomeRequest(v) && BearsId(v, id) ==> Requests([v] + rest) == [id] + Requests(rest)
    ensures !SomeRequest(v) ==> Requests([v] + rest) == Requests(rest)
  {
    assert ([v] + rest)[0] == v && ([v] + rest)[1..] == rest;
    GoodIsClassified(v);
    RefusedUnderItsId(v, id);
  }
}
