/** What a response says, as the routing of whole JSON messages shows it. */
module ResponseReplies {
  import opened Basics
  import opened Json
  import opened RequestIds
  import opened CancelledIds
  import opened Responses

  // ---- Responses as peers write them ----

  function WithId(id: Id): map<string, Json> {
    map["jsonrpc" := Json.Str("2.0"), "id" := IdValue(id)]
  }

  function SuccessResponse(id: Id, result: Json): Json {
    Obj(WithId(id)["result" := result])
  }

  function ErrorObject(code: i64, message: string, data: Option<Json>): map<string, Json> {
    var fields: map<string, Json> := map["code" := IntValue(code), "message" := Json.Str(message)];
    if data.Some? then fields["data" := data.value] else fields
  }

  function ErrorResponse(id: Id, code: i64, message: string, data: Option<Json>): Json {
    Obj(WithId(id)["error" := Obj(ErrorObject(code, message, data))])
  }

  /** The request with this id is settled with the reply, and nothing else changes. */
  ghost predicate Settled(pending: map<Id, Ticket>, window: Window, id: Id, r: Routing, reply: Reply) {
    id in pending && r == Routing(Accepted, pending - {id}, window, Some((pending[id], reply)))
  }

  /** Whatever the result is, null included, the request with the id gets just that. */
  lemma ResultArrives(pending: map<Id, Ticket>, window: Window, id: Id, result: Json)
    requires FromWire(id) && id in pending
    ensures Settled(pending, window, id, Route(pending, window, SuccessResponse(id, result)), Result(result))
  {
    IdIsWritten(IdValue(id), id);
  }

  /** An error arrives with its code, its message, and its data if it has any. */
  lemma ErrorArrives(pending: map<Id, Ticket>, window: Window, id: Id, code: i64, message: string, data: Option<Json>)
    requires FromWire(id) && id in pending
    ensures Settled(pending, window, id, Route(pending, window, ErrorResponse(id, code, message, data)),
                    RpcError(code, message, data))
  {
    IdIsWritten(IdValue(id), id);
  }

  // ---- What a response must be to say something ----

  predicate Has(fields: map<string, Json>, key: string, value: Json) {
    key in fields && fields[key] == value
  }

  predicate HasMaybe(fields: map<string, Json>, key: string, value: Option<Json>) {
    if value.Some? then Has(fields, key, value.value) else key !in fields
  }

  predicate Versioned(fields: map<string, Json>) {
    Has(fields, "jsonrpc", Json.Str("2.0"))
  }

  predicate SaysResult(fields: map<string, Json>, result: Json) {
    Versioned(fields) && Has(fields, "result", result) && "error" !in fields
  }

  /** The error alone is there, and is an object. */
  predicate HasErrorObject(fields: map<string, Json>) {
    Versioned(fields) && "error" in fields && fields["error"].Obj? && "result" !in fields
  }

  predicate SaysError(fields: map<string, Json>, code: i64, message: string, data: Option<Json>) {
    && HasErrorObject(fields)
    && var error := fields["error"].fields;
       Has(error, "code", IntValue(code)) && Has(error, "message", Json.Str(message)) && HasMaybe(error, "data", data)
  }

  ghost predicate SaysSomeError(fields: map<string, Json>) {
    exists code: i64, message, data :: SaysError(fields, code, message, data)
  }

  ghost predicate SaysSomeResult(fields: map<string, Json>) {
    exists result :: SaysResult(fields, result)
  }

  /** The reply is exactly what the fields say. */
  ghost predicate IsSaid(fields: map<string, Json>, reply: Reply) {
    match reply
    case Result(result) => SaysResult(fields, result)
    case RpcError(code, message, data) => SaysError(fields, code, message, data)
    case Invalid(WrongVersion) => !Versioned(fields)
    case Invalid(BadError) => HasErrorObject(fields) && !SaysSomeError(fields)
    case Invalid(NotExactlyOne) => Versioned(fields) && !HasErrorObject(fields) && !SaysSomeResult(fields)
    case _ => false
  }

  lemma CodeIsWritten(value: Json, code: i64)
    ensures AsI64(value) == Some(code) <==> value == IntValue(code)
  {
  }

  lemma ErrorIsSaid(fields: map<string, Json>)
    requires HasErrorObject(fields)
    ensures IsSaid(fields, ReadReply(fields))
  {
    var error := fields["error"].fields;
    if "code" in error && AsI64(error["code"]).Some? {
      CodeIsWritten(error["code"], AsI64(error["code"]).value);
    }
    if code: i64, message, data :| SaysError(fields, code, message, data) {
      CodeIsWritten(error["code"], code);
      assert ReadReply(fields) == RpcError(code, message, Field(error, "data"));
    }
  }

  lemma ReplyIsSaid(fields: map<string, Json>)
    ensures IsSaid(fields, ReadReply(fields))
  {
    if HasErrorObject(fields) {
      ErrorIsSaid(fields);
    } else if SaysSomeResult(fields) {
      var result :| SaysResult(fields, result);
      assert ReadReply(fields) == Result(result);
    } else if Versioned(fields) && "result" in fields && "error" !in fields {
      assert SaysResult(fields, fields["result"]);
    }
  }

  /** Nothing is said in two ways. */
  lemma SaidOnce(fields: map<string, Json>, a: Reply, b: Reply)
    requires IsSaid(fields, a) && IsSaid(fields, b)
    ensures a == b
  {
  }

  lemma IdIsNoPart(fields: map<string, Json>, reply: Reply)
    ensures IsSaid(fields - {"id"}, reply) <==> IsSaid(fields, reply)
  {
    var rest := fields - {"id"};
    assert HasErrorObject(rest) <==> HasErrorObject(fields);
    assert forall code: i64, message, data ::
      SaysError(rest, code, message, data) <==> SaysError(fields, code, message, data);
    assert forall result :: SaysResult(rest, result) <==> SaysResult(fields, result);
    assert SaysSomeError(rest) <==> SaysSomeError(fields);
    assert SaysSomeResult(rest) <==> SaysSomeResult(fields);
  }

  /** The value is an object whose id is this one. */
  predicate BearsId(value: Json, id: Id) {
    value.Obj? && Has(value.fields, "id", IdValue(id)) && FromWire(id)
  }

  /** A response that bears the id of a pending request settles that request, and does so with a reply exactly when
      that is what it says: a result only if the version is right, the result is there and no error is; an error only
      if it is an object with an integer code and a text, and no result is there; else the flaw that it has. */
  lemma SettledExactly(pending: map<Id, Ticket>, window: Window, value: Json, id: Id, reply: Reply)
    requires BearsId(value, id) && id in pending
    ensures Settled(pending, window, id, Route(pending, window, value), reply) <==> IsSaid(value.fields, reply)
  {
    var said := ReadReply(value.fields - {"id"});
    IdIsWritten(value.fields["id"], id);
    ReplyIsSaid(value.fields - {"id"});
    IdIsNoPart(value.fields, said);
    if IsSaid(value.fields, reply) {
      SaidOnce(value.fields, said, reply);
    }
  }

  /** A message that bears an id is routed under it, and one that bears none is turned away, as what it is, without
      any effect. */
  lemma RoutedByItsId(pending: map<Id, Ticket>, window: Window, value: Json)
    ensures var r := Route(pending, window, value);
      && (r.verdict == NotAnObject <==> !value.Obj?)
      && (r.verdict == MissingId <==> value.Obj? && "id" !in value.fields)
      && (r.verdict == Accepted <==> exists id :: BearsId(value, id))
      && (r.verdict != Accepted ==> r.pending == pending && r.window == window && r.settled == None)
      && (forall id :: BearsId(value, id) ==> exists reply :: r == RouteId(pending, window, id, reply))
  {
    if value.Obj? && "id" in value.fields {
      var parsed := ParseIdOwned(value.fields["id"]);
      forall id
        ensures BearsId(value, id) <==> parsed == Some(id)
      {
        IdIsWritten(value.fields["id"], id);
      }
      if parsed.Some? {
        assert BearsId(value, parsed.value);
      }
    }
  }
}
