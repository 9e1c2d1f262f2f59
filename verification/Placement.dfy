/** Placing one Order value, any number of times, over a network that may lose requests and
    replies (trade/orders.go, internal/transport/transport.go). The server takes an id once:
    from then on it answers that the id is already used. */
module Placement {
  import opened Options
  import opened Orders
  import opened Strings
  import opened Transport

  const DUPLICATE_CODE := "OPENAPI_TRADE_PLACE_ORDER_REPEAT"

  /** What becomes of one attempt: the request may not arrive; the server may judge the order
      valid or not; and the reply may be lost or replaced by a gateway's error. */
  datatype Delivery = Lost | Arrives(valid: bool, replyLost: bool, gatewayError: bool)

  datatype Server = Server(used: set<string>, accepted: seq<string>)

  datatype Answer = Silence | Receipt | Rejected(code: string) | GatewayError

  function Handle(server: Server, id: string, delivery: Delivery): (Server, Answer) {
    match delivery
    case Lost => (server, Silence)
    case Arrives(valid, replyLost, gatewayError) =>
      var duplicate := id in server.used;
      var server' := if !duplicate && valid then Server(server.used + {id}, server.accepted + [id]) else server;
      (server',
       if replyLost then Silence
       else if gatewayError then GatewayError
       else if duplicate then Rejected(DUPLICATE_CODE)
       else if valid then Receipt
       else Rejected("OPENAPI_PARAM_ERR"))
  }

  /** The reply as the transport sees it. */
  function AsReply(answer: Answer): Reply {
    match answer
    case Silence => NoResponse
    case Receipt => Response(200, Decodable)
    case Rejected(_) => Response(417, Decodable)
    case GatewayError => Response(502, Empty)
  }

  const PLACE := Request("POST", true, true, false, true)

  /** The server after the attempts 0 to k of one request. */
  function ServerAfter(server: Server, id: string, deliveries: nat -> Delivery, k: nat): Server {
    if k == 0 then server else Handle(ServerAfter(server, id, deliveries, k - 1), id, deliveries(k - 1)).0
  }

  function AnswerAt(server: Server, id: string, deliveries: nat -> Delivery, k: nat): Answer {
    Handle(ServerAfter(server, id, deliveries, k), id, deliveries(k)).1
  }

  function Replies(server: Server, id: string, deliveries: nat -> Delivery): nat -> Reply {
    (k: nat) => AsReply(AnswerAt(server, id, deliveries, k))
  }

  datatype PlaceError = InvalidOrder | DuplicateOrder | OtherError

  /** `classify`: a rejection with the duplicate code has a name, all else passes through. */
  function Classify(result: Result, answer: Answer): Option<PlaceError> {
    if result.Done? then None
    else if result.NotAuthorized? then Some(OtherError)
    else if answer == Rejected(DUPLICATE_CODE) then Some(DuplicateOrder)
    else Some(OtherError)
  }

  datatype State = State(order: Order, server: Server)

  /** Placing the order with the given policy and network, or correcting other fields of it
      after a rejection. `last` is the attempt the transport stopped with. */
  datatype Step =
    | Place(policy: RetryPolicy, newId: string, authorized: Option<bool>, deliveries: nat -> Delivery,
            waited: nat -> bool, last: nat, result: Result, trace: seq<Event>)
    | Correct(order: Order)

  ghost predicate Enabled(s: State, step: Step) {
    match step
    case Place(policy, newId, authorized, deliveries, waited, last, result, trace) =>
      && IdOk(newId)
      && var p := Prepared(s.order, newId);
         Behaves(policy, PLACE, authorized, Replies(s.server, p.clientOrderID, deliveries), waited, last, result, trace)
    case Correct(order) => order.clientOrderID == s.order.clientOrderID
  }

  /** The order is completed, its id included, before anything is sent; the server sees the
      attempts the transport makes. */
  function Apply(s: State, step: Step): State {
    match step
    case Place(policy, newId, authorized, deliveries, waited, last, result, trace) =>
      var p := Prepared(s.order, newId);
      var reaches := Acceptable(p) && !result.NotAuthorized?;
      State(p, if reaches then ServerAfter(s.server, p.clientOrderID, deliveries, last + 1) else s.server)
    case Correct(order) => s.(order := order)
  }

  /** What a `Place` step returns. */
  function Returned(s: State, step: Step): Option<PlaceError>
    requires step.Place?
  {
    var p := Prepared(s.order, step.newId);
    if !Acceptable(p) then Some(InvalidOrder)
    else Classify(step.result, AnswerAt(s.server, p.clientOrderID, step.deliveries, step.last))
  }

  ghost predicate Valid(s: State, run: seq<Step>)
    decreases |run|
  {
    run == [] || (Enabled(s, run[0]) && Valid(Apply(s, run[0]), run[1..]))
  }

  function After(s: State, run: seq<Step>): State
    decreases |run|
  {
    if run == [] then s else After(Apply(s, run[0]), run[1..])
  }

  lemma AfterOne(server: Server, id: string, deliveries: nat -> Delivery)
    ensures ServerAfter(server, id, deliveries, 1) == Handle(server, id, deliveries(0)).0
  {
    assert ServerAfter(server, id, deliveries, 0) == server;
  }

  /** A placement reaches the server at most once, because a POST is never sent again. */
  lemma SentOnce(s: State, step: Step)
    requires step.Place? && Enabled(s, step) && !step.result.NotAuthorized?
    ensures step.last == 0
  {
    assert ToUpper("POST") == "POST";
    var reply := Replies(s.server, Prepared(s.order, step.newId).clientOrderID, step.deliveries);
    var first := reply(0);
    assert step.last == 0 || Retryable(PLACE, first);
    assert !Retryable(PLACE, first);
  }

  /** The only id accepted so far, if any, is the order's, which it keeps. */
  predicate Inv(s: State) {
    s.server.accepted == [] ||
    (s.order.clientOrderID != "" && s.server.accepted == [s.order.clientOrderID] &&
     s.order.clientOrderID in s.server.used)
  }

  lemma InvStep(s: State, step: Step)
    requires Inv(s) && Enabled(s, step)
    ensures Inv(Apply(s, step))
    ensures s.order.clientOrderID != "" ==> Apply(s, step).order.clientOrderID == s.order.clientOrderID
  {
    if step.Place? && !step.result.NotAuthorized? {
      SentOnce(s, step);
      var p := Prepared(s.order, step.newId);
      AfterOne(s.server, p.clientOrderID, step.deliveries);
    }
  }

  /** However often one Order value is placed, and whatever the network loses, at most one
      placement of it is accepted. */
  lemma {:induction false} AtMostOneAcceptance(s: State, run: seq<Step>)
    requires Inv(s) && Valid(s, run)
    ensures Inv(After(s, run)) && |After(s, run).server.accepted| <= 1
    ensures s.order.clientOrderID != "" ==> After(s, run).order.clientOrderID == s.order.clientOrderID
    decreases |run|
  {
    if run != [] {
      InvStep(s, run[0]);
      AtMostOneAcceptance(Apply(s, run[0]), run[1..]);
    }
  }

  /** A placement that is told the id is already used was preceded by its acceptance: it is
      never its own request, sent a second time, that the server recognises. */
  lemma DuplicateWasAccepted(s: State, step: Step)
    requires step.Place? && Enabled(s, step) && Returned(s, step) == Some(DuplicateOrder)
    ensures Prepared(s.order, step.newId).clientOrderID in s.server.used
    ensures Apply(s, step).server == s.server
  {
    SentOnce(s, step);
    var p := Prepared(s.order, step.newId);
    AfterOne(s.server, p.clientOrderID, step.deliveries);
  }

  /** What a placement returns, by what became of it: the error for a used id exactly if the
      request arrived, its answer came back, and the id had been taken. */
  lemma ReturnedExactly(s: State, step: Step)
    requires step.Place? && Enabled(s, step)
    ensures var (p, first) := (Prepared(s.order, step.newId), step.deliveries(0));
      var sent := Acceptable(p) && step.authorized != Some(false);
      var answered := sent && first.Arrives? && !first.replyLost && !first.gatewayError;
      && (Returned(s, step) == Some(InvalidOrder) <==> !Acceptable(p))
      && (Returned(s, step) == Some(DuplicateOrder) <==> answered && p.clientOrderID in s.server.used)
      && (Returned(s, step) == None <==> answered && p.clientOrderID !in s.server.used && first.valid)
      && (Apply(s, step).server == if sent && first.Arrives? && first.valid && p.clientOrderID !in s.server.used
                                   then Server(s.server.used + {p.clientOrderID}, s.server.accepted + [p.clientOrderID])
                                   else s.server)
  {
    var p := Prepared(s.order, step.newId);
    hide Prepared, Acceptable;
    if step.authorized != Some(false) {
      SentOnce(s, step);
      AfterOne(s.server, p.clientOrderID, step.deliveries);
      assert ServerAfter(s.server, p.clientOrderID, step.deliveries, 0) == s.server;
    }
  }

  /** A receipt, too, tells the truth: the order was accepted by this very placement. */
  lemma ReceiptMeansAccepted(s: State, step: Step)
    requires step.Place? && Enabled(s, step) && Returned(s, step).None?
    ensures var id := Prepared(s.order, step.newId).clientOrderID;
      id !in s.server.used && Apply(s, step).server.accepted == s.server.accepted + [id]
  {
    SentOnce(s, step);
    var p := Prepared(s.order, step.newId);
    AfterOne(s.server, p.clientOrderID, step.deliveries);
  }
}
