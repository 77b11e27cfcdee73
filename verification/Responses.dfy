/** Routing one response of the peer to the request it answers (handle_response). */
module Responses {
  import opened Basics
  import opened Json
  import opened RequestIds
  import opened CancelledIds

  datatype Flaw = TypeMismatch | WrongVersion | BadError | NotExactlyOne

  /** What a request is settled with. */
  datatype Reply =
    | Result(value: Json)
    | RpcError(code: i64, message: string, data: Option<Json>)
    | Invalid(flaw: Flaw)
    | Closed(reason: string)

  function Field(fields: map<string, Json>, key: string): Option<Json> {
    if key in fields then Some(fields[key]) else None
  }

  function AsI64(value: Json): Option<i64> {
    match value
    case Num(PosInt(n)) => if n <= I64_MAX then Some(n) else None
    case Num(NegInt(n)) => Some(n)
    case _ => None
  }

  /** The version tag that every message must carry. */
  predicate VersionTwo(fields: map<string, Json>) {
    Field(fields, "jsonrpc") == Some(Json.Str("2.0"))
  }

  function ReadError(error: map<string, Json>): Reply {
    var code := if "code" in error then AsI64(error["code"]) else None;
    if code.Some? && "message" in error && error["message"].Str?
    then RpcError(code.value, error["message"].s, Field(error, "data"))
    else Invalid(BadError)
  }

  /** The reply that the fields of a response amount to. */
  function ReadReply(fields: map<string, Json>): Reply {
    if !VersionTwo(fields) then Invalid(WrongVersion)
    else
      match (Field(fields, "error"), Field(fields, "result"))
      case (Some(Obj(error)), None) => ReadError(error)
      case (None, Some(result)) => Result(result)
      case _ => Invalid(NotExactlyOne)
  }

  datatype Verdict = Accepted | NotAnObject | MissingId | InvalidId

  /** A waiting request: the sending end of its result channel. */
  type Ticket = nat

  /** What one response does to the table, to the window and to one waiter at most. */
  datatype Routing = Routing(verdict: Verdict, pending: map<Id, Ticket>, window: Window,
                             settled: Option<(Ticket, Reply)>)

  function Rejected(verdict: Verdict, pending: map<Id, Ticket>, window: Window): Routing {
    Routing(verdict, pending, window, None)
  }

  /** Routing of a response with a known id: its own request, the cancelled ids, then the twin's request. */
  function RouteId(pending: map<Id, Ticket>, window: Window, id: Id, reply: Reply): Routing {
    var twin := TypeMismatchCandidateId(id);
    if id in pending then Routing(Accepted, pending - {id}, window, Some((pending[id], reply)))
    else if id in window.latest then Routing(Accepted, pending, Take(window, id), None)
    else if twin.Some? && twin.value in window.latest then Routing(Accepted, pending, Take(window, twin.value), None)
    else if twin.Some? && twin.value in pending then
      Routing(Accepted, pending - {twin.value}, window, Some((pending[twin.value], Invalid(TypeMismatch))))
    else Routing(Accepted, pending, window, None)
  }

  function Route(pending: map<Id, Ticket>, window: Window, value: Json): Routing {
    if !value.Obj? then Rejected(NotAnObject, pending, window)
    else if "id" !in value.fields then Rejected(MissingId, pending, window)
    else
      var id := ParseIdOwned(value.fields["id"]);
      if id.None? then Rejected(InvalidId, pending, window)
      else RouteId(pending, window, id.value, ReadReply(value.fields - {"id"}))
  }

  class Router {
    var pending: map<Id, Ticket>
    const cancelled: CancelledRequestIds
    /** Every result sent, in order. */
    var sent: seq<(Ticket, Reply)>

    constructor (cancelled: CancelledRequestIds)
      ensures this.cancelled == cancelled && pending == map[] && sent == []
    {
      this.cancelled, pending, sent := cancelled, map[], [];
    }

    method TakePendingTypeMismatchSender(id: Id) returns (tx: Option<Ticket>)
      modifies this`pending
      ensures var twin := TypeMismatchCandidateId(id);
        if twin.Some? && twin.value in old(pending)
        then tx == Some(old(pending)[twin.value]) && pending == old(pending) - {twin.value}
        else tx == None && pending == old(pending)
    {
      var twin := TypeMismatchCandidateId(id);
      if twin.None? || twin.value !in pending {
        return None;
      }
      tx := Some(pending[twin.value]);
      pending := pending - {twin.value};
    }

    method HandleResponse(value: Json) returns (verdict: Verdict)
      modifies this, cancelled
      ensures var r := Route(old(pending), old(cancelled.Value()), value);
        && verdict == r.verdict
        && pending == r.pending
        && cancelled.Value() == r.window
        && sent == old(sent) + if r.settled.Some? then [r.settled.value] else []
    {
      if !value.Obj? {
        return NotAnObject;
      }
      if "id" !in value.fields {
        return MissingId;
      }
      var parsed := ParseIdOwned(value.fields["id"]);
      if parsed.None? {
        return InvalidId;
      }
      var id := parsed.value;
      if id !in pending {
        var late := cancelled.TakeCancelledRequestId(id);
        if !late {
          late := cancelled.TakeCancelledRequestIdTypeMismatch(id);
        }
        if !late {
          var tx := TakePendingTypeMismatchSender(id);
          if tx.Some? {
            sent := sent + [(tx.value, Invalid(TypeMismatch))];
          }
        }
        return Accepted;
      }
      var tx := pending[id];
      pending := pending - {id};
      sent := sent + [(tx, ReadReply(value.fields - {"id"}))];
      return Accepted;
    }
  }

  /** The routing took the entry of hit out of the table and settled its request. */
  ghost predicate Settles(pending: map<Id, Ticket>, r: Routing, hit: Id) {
    && hit in pending
    && r.pending == pending - {hit}
    && r.settled.Some? && r.settled.value.0 == pending[hit]
  }

  /** hit is the twin of id, and neither spelling was otherwise accounted for. */
  ghost predicate OnlyByTwin(pending: map<Id, Ticket>, window: Window, id: Id, hit: Id) {
    && TypeMismatchCandidateId(hit) == Some(id)
    && id !in pending && id !in window.latest && hit !in window.latest
  }

  /** A response settles one pending request at most: its own, with what the response says; or the
      twin's, with a mismatch error, when neither id was pending or cancelled before it. */
  lemma RoutingIsPrecise(pending: map<Id, Ticket>, window: Window, id: Id, reply: Reply)
    requires FromWire(id)
    ensures var r := RouteId(pending, window, id, reply);
      if id in pending then
        Settles(pending, r, id) && r.settled.value.1 == reply && r.window == window
      else if r.settled.Some? then
        && r.window == window && r.settled.value.1 == Invalid(TypeMismatch)
        && exists hit :: Settles(pending, r, hit) && OnlyByTwin(pending, window, id, hit)
      else
        r.pending == pending && |r.window.latest| >= |window.latest| - 1
  {
    var twin := TypeMismatchCandidateId(id);
    if id !in pending && id in window.latest {
      TakeForgetsOne(window, id);
    } else if id !in pending && twin.Some? && twin.value in window.latest {
      TakeForgetsOne(window, twin.value);
    } else if id !in pending && twin.Some? && twin.value in pending {
      TwinIsInvolution(id);
      assert Settles(pending, RouteId(pending, window, id, reply), twin.value);
      assert OnlyByTwin(pending, window, id, twin.value);
    }
  }

  lemma TakeForgetsOne(window: Window, id: Id)
    ensures |Take(window, id).latest| == |window.latest| - (if id in window.latest then 1 else 0)
  {
    var before, after := window.latest, Take(window, id).latest;
    assert after.Keys == before.Keys - {id};
    assert |after| == |after.Keys| && |before| == |before.Keys|;
  }

  /** A late reply to a remembered id is swallowed once, under either spelling of the id. */
  lemma LateReplyIsSwallowed(pending: map<Id, Ticket>, window: Window, id: Id, reply: Reply)
    requires FromWire(id) && id !in pending
    requires id in window.latest ||
      (TypeMismatchCandidateId(id).Some? && TypeMismatchCandidateId(id).value in window.latest)
    ensures var r := RouteId(pending, window, id, reply);
      && r.settled == None && r.pending == pending
      && |r.window.latest| == |window.latest| - 1
  {
    var gone := if id in window.latest then id else TypeMismatchCandidateId(id).value;
    TakeForgetsOne(window, gone);
  }
}
