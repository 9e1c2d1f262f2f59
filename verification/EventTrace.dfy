/** What one call of the event stream's `Recv` may do, as a language of traces. `Recv`
    waits for three things: the next response on the current stream, the end of a reconnect
    delay, and the outcome of a connection attempt. A trace records what it waited for, what
    it was answered, and how the stream's context stood when it looked at the answer. */
module EventTrace {
  import opened Options
  import opened Units
  import opened EventErrors

  /** The error of the stream's context, None while it goes on. */
  type Ctx = Option<StreamError>

  predicate CtxOk(ctx: Ctx) {
    ctx.Some? ==> ctx.value.Canceled? || ctx.value.DeadlineExceeded?
  }

  datatype Read = Got(resp: Response) | Broke(err: StreamError)

  datatype Wait = Elapsed | CtxDone

  /** How far a connection attempt gets: no connection, no request or stream on it, no first
      response, or a first response. In the last case the stream would go on with `responses`. */
  datatype Dial =
    | NoConn(err: StreamError)
    | NoStream(err: StreamError)
    | NoFirst(err: StreamError)
    | First(resp: Response, responses: seq<Read>)

  datatype Op =
    | DidRead(read: Read, ctx: Ctx)
    | DidWait(delay: int, wait: Wait, ctx: Ctx)
    | DidDial(dial: Dial, ctx: Ctx)

  /** How a call ends. `Blocked` is not a return: nothing has been answered yet. */
  datatype Result = Event(resp: Response) | Fail(err: StreamError) | GaveUp(attempts: int) | Blocked

  /** What `connect` returns: None for a subscription that was acknowledged before the
      context ended. */
  function ConnectError(d: Dial, ctx: Ctx): Option<StreamError> {
    match d
    case NoConn(err) => Some(err)
    case NoStream(err) => Some(err)
    case NoFirst(err) => Some(err)
    case First(resp, _) =>
      if ControlError(resp).Some? then ControlError(resp)
      else if !resp.eventType.SubscribeSuccess? then Some(Local)
      else ctx
  }

  predicate Transient(d: Dial, ctx: Ctx) {
    ConnectError(d, ctx).Some? && !IsTerminal(ConnectError(d, ctx).value)
  }

  /** An attempt is retried only when the server gave no first response, and succeeds only with
      an acknowledgement that came before the stream's context ended. Any other first
      response, a business event among them, ends the stream. */
  lemma RetriedExactly(d: Dial, ctx: Ctx)
    requires CtxOk(ctx)
    ensures Transient(d, ctx) <==> !d.First? && Retryable(d.err)
    ensures ConnectError(d, ctx).None? <==> d.First? && d.resp.eventType.SubscribeSuccess? && ctx.None?
  {
  }

  function Delay(reconnectDelay: int): int {
    if reconnectDelay <= 0 then 5 * SECOND else reconnectDelay
  }

  // ---------- where the answers come from ----------

  /** The answers still to come: what the current stream will deliver, how the delays will
      end, and how the attempts will go, each of which brings its own stream. */
  datatype Answers = Answers(rpc: seq<Read>, timers: seq<Wait>, attempts: seq<Dial>)

  /** The next answer of the kind that `op` waited for is the one it got. */
  predicate Offers(rest: Answers, op: Op) {
    match op
    case DidRead(read, _) => rest.rpc != [] && rest.rpc[0] == read
    case DidWait(_, wait, _) => rest.timers != [] && rest.timers[0] == wait
    case DidDial(dial, _) => rest.attempts != [] && rest.attempts[0] == dial
  }

  /** Reading goes on where a successful attempt says, and nowhere else. */
  function Taking(rest: Answers, op: Op): Answers
    requires Offers(rest, op)
  {
    match op
    case DidRead(_, _) => rest.(rpc := rest.rpc[1..])
    case DidWait(_, _, _) => rest.(timers := rest.timers[1..])
    case DidDial(dial, ctx) =>
      rest.(attempts := rest.attempts[1..], rpc := if ConnectError(dial, ctx).None? then dial.responses else rest.rpc)
  }

  /** `ops` was answered from `start`, and `rest` is what it left. */
  predicate Taken(ops: seq<Op>, start: Answers, rest: Answers)
    decreases |ops|
  {
    if ops == [] then rest == start
    else Offers(start, ops[0]) && Taken(ops[1..], Taking(start, ops[0]), rest)
  }

  lemma {:induction false} TakeOne(ops: seq<Op>, op: Op, start: Answers, rest: Answers)
    requires Taken(ops, start, rest) && Offers(rest, op)
    ensures Taken(ops + [op], start, Taking(rest, op))
    decreases |ops|
  {
    if ops == [] {
      assert ([] + [op])[1..] == [];
    } else {
      assert (ops + [op])[1..] == ops[1..] + [op];
      TakeOne(ops[1..], op, Taking(start, ops[0]), rest);
    }
  }

  lemma {:induction false} TakenThen(a: seq<Op>, b: seq<Op>, start: Answers, middle: Answers, rest: Answers)
    requires Taken(a, start, middle) && Taken(b, middle, rest)
    ensures Taken(a + b, start, rest)
    decreases |a|
  {
    if a == [] {
      assert a + b == b;
    } else {
      assert (a + b)[1..] == a[1..] + b;
      TakenThen(a[1..], b, Taking(start, a[0]), middle, rest);
    }
  }

  /** The answers left when the first k have been taken. */
  lemma {:induction false} TakenUpTo(ops: seq<Op>, k: nat, start: Answers, rest: Answers) returns (middle: Answers)
    requires Taken(ops, start, rest) && k <= |ops|
    ensures Taken(ops[..k], start, middle) && Taken(ops[k..], middle, rest)
    decreases k
  {
    if k == 0 {
      middle := start;
      assert ops[0..] == ops;
    } else {
      middle := TakenUpTo(ops[1..], k - 1, Taking(start, ops[0]), rest);
      assert ops[..k][1..] == ops[1..][..k - 1];
      assert ops[k..] == ops[1..][k - 1..];
    }
  }

  lemma {:induction false} TakenSame(ops: seq<Op>, start: Answers, r1: Answers, r2: Answers)
    requires Taken(ops, start, r1) && Taken(ops, start, r2)
    ensures r1 == r2
    decreases |ops|
  {
    if ops != [] {
      TakenSame(ops[1..], Taking(start, ops[0]), r1, r2);
    }
  }

  // ---------- which answers may follow each other ----------

  /** Within a call, `b` may directly follow `a`. A renewal dials at once; every other dial
      follows a full delay; nothing follows a terminal answer or a business event; and a
      context that has ended stays ended. */
  predicate Follows(a: Op, b: Op) {
    && (a.ctx.Some? ==> b.ctx == a.ctx)
    && match a
       case DidRead(Got(resp), _) =>
         if resp.eventType.SubscribeExpired? then b.DidDial?
         else (resp.eventType.SubscribeSuccess? || resp.eventType.Ping?) && b.DidRead?
       case DidRead(Broke(err), ctx) => ctx.None? && Retryable(err) && b.DidWait?
       case DidWait(_, wait, _) => wait.Elapsed? && b.DidDial?
       case DidDial(dial, ctx) =>
         if ConnectError(dial, ctx).None? then b.DidRead? else Transient(dial, ctx) && b.DidWait?
  }

  /** Every delay is the configured one, and only the end of the context cuts one short. */
  predicate OpOk(op: Op, delay: int) {
    CtxOk(op.ctx) && (op.DidWait? ==> op.delay == delay && (op.wait.CtxDone? ==> op.ctx.Some?))
  }

  predicate Paced(ops: seq<Op>, delay: int) {
    && (ops != [] ==> ops[0].DidRead?)
    && (forall k :: 0 <= k < |ops| - 1 ==> Follows(ops[k], ops[k + 1]))
    && (forall k :: 0 <= k < |ops| ==> OpOk(ops[k], delay))
  }

  /** How many delays have been waited since the last read: the delayed attempts of the
      outage the trace ends in. */
  function DelaysSinceRead(ops: seq<Op>): nat {
    if ops == [] then 0
    else
      var rest := ops[..|ops| - 1];
      match ops[|ops| - 1]
      case DidRead(_, _) => 0
      case DidWait(_, _, _) => DelaysSinceRead(rest) + 1
      case DidDial(_, _) => DelaysSinceRead(rest)
  }

  /** With a budget, no outage waits for more attempts than that. */
  predicate WithinBudget(ops: seq<Op>, budget: int) {
    budget > 0 ==> forall k :: 0 <= k <= |ops| ==> DelaysSinceRead(ops[..k]) <= budget
  }

  // The call may still go on, and what it waits for.

  predicate WantsRead(ops: seq<Op>) {
    ops == [] || match ops[|ops| - 1]
      case DidRead(Got(resp), _) => resp.eventType.SubscribeSuccess? || resp.eventType.Ping?
      case DidDial(dial, ctx) => ConnectError(dial, ctx).None?
      case _ => false
  }

  predicate WantsWait(ops: seq<Op>) {
    ops != [] && match ops[|ops| - 1]
      case DidRead(Broke(err), ctx) => ctx.None? && Retryable(err)
      case DidDial(dial, ctx) => Transient(dial, ctx)
      case _ => false
  }

  predicate WantsDial(ops: seq<Op>) {
    ops != [] && match ops[|ops| - 1]
      case DidRead(Got(resp), _) => resp.eventType.SubscribeExpired?
      case DidWait(_, wait, _) => wait.Elapsed?
      case _ => false
  }

  /** The call's last answer calls for exactly this result. */
  predicate Ends(ops: seq<Op>, budget: int, result: Result) {
    match result
    case Blocked =>
      WantsRead(ops) || WantsDial(ops) || (WantsWait(ops) && (budget > 0 ==> DelaysSinceRead(ops) < budget))
    case GaveUp(attempts) => WantsWait(ops) && budget > 0 && attempts == budget == DelaysSinceRead(ops)
    case Event(resp) =>
      ops != [] && ops[|ops| - 1].DidRead? && ops[|ops| - 1].read == Got(resp) && resp.eventType.Business?
    case Fail(err) => ops != [] && match ops[|ops| - 1]
      case DidRead(Got(resp), _) => ControlError(resp) == Some(err)
      case DidRead(Broke(broke), ctx) => if ctx.Some? then ctx == Some(err) else !Retryable(broke) && broke == err
      case DidWait(_, wait, ctx) => wait.CtxDone? && ctx == Some(err)
      case DidDial(dial, ctx) => ConnectError(dial, ctx) == Some(err) && IsTerminal(err)
  }

  /** Blocked is only a call that waits for an answer there is not. */
  predicate Starved(ops: seq<Op>, rest: Answers) {
    && (WantsRead(ops) ==> rest.rpc == [])
    && (WantsWait(ops) ==> rest.timers == [])
    && (WantsDial(ops) ==> rest.attempts == [])
  }

  /** `ops` and `result` are what a call does that is answered from `start` and leaves `rest`. */
  predicate Outcome(ops: seq<Op>, result: Result, delay: int, budget: int, start: Answers, rest: Answers) {
    && Paced(ops, delay) && WithinBudget(ops, budget) && Ends(ops, budget, result)
    && Taken(ops, start, rest) && (result.Blocked? ==> Starved(ops, rest))
  }

  lemma Finish(ops: seq<Op>, result: Result, delay: int, budget: int, start: Answers, rest: Answers)
    requires Paced(ops, delay) && WithinBudget(ops, budget) && Ends(ops, budget, result) && Taken(ops, start, rest)
    requires result.Blocked? ==> Starved(ops, rest)
    ensures Outcome(ops, result, delay, budget, start, rest)
  {
  }

  /** The context as the trace last saw it still stands so. */
  predicate UpToDate(ops: seq<Op>, ctx: Ctx) {
    CtxOk(ctx) && (ops != [] && ops[|ops| - 1].ctx.Some? ==> ctx == ops[|ops| - 1].ctx)
  }

  /** A legal trace stays legal with a next answer of the kind it waits for. */
  lemma Extend(ops: seq<Op>, op: Op, delay: int, budget: int)
    requires Paced(ops, delay) && WithinBudget(ops, budget) && OpOk(op, delay) && UpToDate(ops, op.ctx)
    requires match op
      case DidRead(_, _) => WantsRead(ops)
      case DidWait(_, _, _) => WantsWait(ops) && (budget > 0 ==> DelaysSinceRead(ops) < budget)
      case DidDial(_, _) => WantsDial(ops)
    ensures Paced(ops + [op], delay) && WithinBudget(ops + [op], budget)
    ensures DelaysSinceRead(ops + [op]) ==
      if op.DidRead? then 0 else if op.DidWait? then DelaysSinceRead(ops) + 1 else DelaysSinceRead(ops)
  {
    assert (ops + [op])[..|ops|] == ops;
    forall k | 0 <= k <= |ops|
      ensures (ops + [op])[..k] == ops[..k]
    {
    }
    assert ops[..|ops|] == ops;
    assert (ops + [op])[..|ops| + 1] == ops + [op];
  }

  lemma NothingTaken(start: Answers, delay: int, budget: int)
    ensures Taken([], start, start) && Paced([], delay) && WithinBudget([], budget)
  {
  }

  // ---------- the trace is determined by the answers ----------

  /** What a call does at its step k: what the trace before it asks for, and is answered. */
  lemma NextOp(ops: seq<Op>, result: Result, k: nat, delay: int, budget: int, start: Answers, rest: Answers)
    returns (middle: Answers)
    requires Outcome(ops, result, delay, budget, start, rest) && k < |ops|
    ensures Taken(ops[..k], start, middle) && Offers(middle, ops[k])
    ensures match ops[k]
      case DidRead(_, _) => WantsRead(ops[..k])
      case DidWait(d, _, _) =>
        WantsWait(ops[..k]) && d == delay && (budget > 0 ==> DelaysSinceRead(ops[..k]) < budget)
      case DidDial(_, _) => WantsDial(ops[..k])
  {
    middle := TakenUpTo(ops, k, start, rest);
    var p := ops[..k];
    assert ops[..k + 1][..k] == p && ops[..k + 1][k] == ops[k];
    assert ops[k..][0] == ops[k];
    assert k > 0 ==> Follows(ops[k - 1], ops[k]) && p[|p| - 1] == ops[k - 1];
    assert OpOk(ops[k], delay);
    assert budget > 0 ==> DelaysSinceRead(ops[..k + 1]) <= budget;
  }

  /** Where the code looks at the context at the same point, it finds the same. */
  predicate SameContext(a: seq<Op>, b: seq<Op>) {
    forall k :: 0 <= k < |a| && k < |b| ==> a[k].ctx == b[k].ctx
  }

  /** Two calls answered alike that have done the same so far do the same next. */
  lemma SameNext(a: seq<Op>, ra: Result, resta: Answers, b: seq<Op>, rb: Result, restb: Answers, k: nat,
                 delay: int, budget: int, start: Answers)
    requires Outcome(a, ra, delay, budget, start, resta) && Outcome(b, rb, delay, budget, start, restb)
    requires SameContext(a, b) && k < |a| && k <= |b| && a[..k] == b[..k]
    ensures k < |b| && a[k] == b[k]
  {
    hide Paced, WithinBudget, Taken, DelaysSinceRead;
    var ma := NextOp(a, ra, k, delay, budget, start, resta);
    if k < |b| {
      var mb := NextOp(b, rb, k, delay, budget, start, restb);
      TakenSame(a[..k], start, ma, mb);
      assert a[k].ctx == b[k].ctx;
    } else {
      assert b == b[..k];
      TakenSame(b, start, ma, restb);
    }
  }

  lemma {:induction false} SamePrefix(a: seq<Op>, ra: Result, resta: Answers, b: seq<Op>, rb: Result, restb: Answers,
                                      k: nat, delay: int, budget: int, start: Answers)
    requires Outcome(a, ra, delay, budget, start, resta) && Outcome(b, rb, delay, budget, start, restb)
    requires SameContext(a, b) && k <= |a|
    ensures k <= |b| && a[..k] == b[..k]
  {
    hide Outcome;
    if k > 0 {
      SamePrefix(a, ra, resta, b, rb, restb, k - 1, delay, budget, start);
      SameNext(a, ra, resta, b, rb, restb, k - 1, delay, budget, start);
      assert a[..k] == a[..k - 1] + [a[k - 1]];
      assert b[..k] == b[..k - 1] + [b[k - 1]];
    }
  }

  /** The answers and the context leave no choice: neither in what a call does, nor in what it
      returns, nor in which answers it leaves. */
  lemma Determined(a: seq<Op>, ra: Result, resta: Answers, b: seq<Op>, rb: Result, restb: Answers,
                   delay: int, budget: int, start: Answers)
    requires Outcome(a, ra, delay, budget, start, resta) && Outcome(b, rb, delay, budget, start, restb)
    requires SameContext(a, b)
    ensures a == b && ra == rb && resta == restb
  {
    hide Paced, WithinBudget, Taken, DelaysSinceRead;
    SamePrefix(a, ra, resta, b, rb, restb, |a|, delay, budget, start);
    SamePrefix(b, rb, restb, a, ra, resta, |b|, delay, budget, start);
    assert a == a[..|a|] == b[..|b|] == b;
    TakenSame(a, start, resta, restb);
    assert Ends(a, budget, ra) && Ends(a, budget, rb);
  }

  // ---------- how a call ends, answer by answer ----------

  const WORTH_A_RECONNECT := {EndOfStream, Status(2), Status(13), Status(14)}

  /** The error that an answer ends a call with, if it ends it with one. */
  predicate EndsWith(op: Op, err: StreamError) {
    match op
    case DidRead(Got(resp), _) =>
      (resp.eventType == AuthError && err == AuthFailed) ||
      (resp.eventType == NumOfConnExceed && err == ConnectionLimit)
    case DidRead(Broke(broke), ctx) =>
      if ctx.Some? then err == ctx.value else err == broke && broke !in WORTH_A_RECONNECT
    case DidWait(_, wait, ctx) => wait == CtxDone && ctx == Some(err)
    case DidDial(First(resp, _), ctx) =>
      if resp.eventType == AuthError then err == AuthFailed
      else if resp.eventType == NumOfConnExceed then err == ConnectionLimit
      else if resp.eventType != SubscribeSuccess then err == Local
      else ctx == Some(err)
    case DidDial(dial, _) => err == dial.err && dial.err !in WORTH_A_RECONNECT
  }

  /** A call ends with the error its last answer calls for, with the business event it read, or
      with its budget, if it has one. */
  lemma ResultExactly(ops: seq<Op>, result: Result, delay: int, budget: int, start: Answers, rest: Answers,
                      err: StreamError)
    requires Outcome(ops, result, delay, budget, start, rest)
    ensures result == Fail(err) <==> ops != [] && EndsWith(ops[|ops| - 1], err)
    ensures result.Event? <==>
      && ops != [] && ops[|ops| - 1].DidRead? && ops[|ops| - 1].read.Got?
      && ops[|ops| - 1].read.resp.eventType.Business?
    ensures result.Event? ==> result.resp == ops[|ops| - 1].read.resp
    ensures result.GaveUp? ==> budget > 0 && result.attempts == budget
  {
    hide DelaysSinceRead, WithinBudget, Taken;
    if ops != [] {
      assert OpOk(ops[|ops| - 1], delay);
      hide Paced;
    }
  }

  /** The server's answer, where there is one. */
  function ResponseOf(op: Op): Option<Response> {
    match op
    case DidRead(Got(resp), _) => Some(resp)
    case DidDial(First(resp, _), _) => Some(resp)
    case _ => None
  }

  /** The transport reports this error itself. */
  predicate Reports(op: Op, err: StreamError) {
    match op
    case DidRead(Broke(broke), _) => broke == err
    case DidDial(dial, _) => !dial.First? && dial.err == err
    case _ => false
  }

  /** The server's two rejections, each read or received as first response, end a call with their
      own errors; and nothing else does, if the transport does not report those itself. */
  lemma RejectionsExactly(ops: seq<Op>, result: Result, delay: int, budget: int, start: Answers, rest: Answers)
    requires Outcome(ops, result, delay, budget, start, rest)
    requires forall k :: 0 <= k < |ops| ==> !Reports(ops[k], AuthFailed) && !Reports(ops[k], ConnectionLimit)
    ensures result == Fail(AuthFailed) <==>
      ops != [] && ResponseOf(ops[|ops| - 1]).Some? && ResponseOf(ops[|ops| - 1]).value.eventType == AuthError
    ensures result == Fail(ConnectionLimit) <==>
      ops != [] && ResponseOf(ops[|ops| - 1]).Some? && ResponseOf(ops[|ops| - 1]).value.eventType == NumOfConnExceed
  {
    ResultExactly(ops, result, delay, budget, start, rest, AuthFailed);
    ResultExactly(ops, result, delay, budget, start, rest, ConnectionLimit);
    if ops != [] {
      assert OpOk(ops[|ops| - 1], delay);
    }
    hide Outcome, Paced;
  }

  /** The delay is the one asked for, or five seconds where none is. */
  lemma DelayExactly(asked: int)
    ensures Delay(asked) > 0
    ensures asked > 0 ==> Delay(asked) == asked
    ensures asked <= 0 ==> Delay(asked) == 5_000_000_000
  {
  }

  // ---------- what is delivered ----------

  /** Everything read, in order. */
  function Reads(ops: seq<Op>): seq<Read> {
    if ops == [] then []
    else
      var rest, last := Reads(ops[..|ops| - 1]), ops[|ops| - 1];
      if last.DidRead? then rest + [last.read] else rest
  }

  predicate Connects(op: Op) {
    op.DidDial? && ConnectError(op.dial, op.ctx).None?
  }

  /** What was read, stream by stream: a successful attempt starts the next one. */
  function Sessions(ops: seq<Op>): (ss: seq<seq<Read>>)
    ensures |ss| >= 1
  {
    if ops == [] then [[]]
    else
      var ss, last := Sessions(ops[..|ops| - 1]), ops[|ops| - 1];
      var n := |ss| - 1;
      if last.DidRead? then ss[..n] + [ss[n] + [last.read]] else if Connects(last) then ss + [[]] else ss
  }

  /** What each of those streams had to deliver, the first one `rpc`. */
  function Streams(rpc: seq<Read>, ops: seq<Op>): (streams: seq<seq<Read>>) {
    if ops == [] then [rpc]
    else
      var streams, last := Streams(rpc, ops[..|ops| - 1]), ops[|ops| - 1];
      if Connects(last) then streams + [last.dial.responses] else streams
  }

  function Flatten(ss: seq<seq<Read>>): seq<Read> {
    if ss == [] then [] else Flatten(ss[..|ss| - 1]) + ss[|ss| - 1]
  }

  lemma FlattenOneMore(ss: seq<seq<Read>>, s: seq<Read>)
    ensures Flatten(ss + [s]) == Flatten(ss) + s
  {
    assert (ss + [s])[..|ss|] == ss;
  }

  lemma {:induction false} ReadsInSessions(ops: seq<Op>)
    ensures Reads(ops) == Flatten(Sessions(ops))
    decreases |ops|
  {
    if ops == [] {
      FlattenOneMore([], []);
    } else {
      var rest, last := ops[..|ops| - 1], ops[|ops| - 1];
      ReadsInSessions(rest);
      var ss := Sessions(rest);
      var n := |ss| - 1;
      assert ss == ss[..n] + [ss[n]];
      FlattenOneMore(ss[..n], ss[n]);
      FlattenOneMore(ss, []);
      if last.DidRead? {
        FlattenOneMore(ss[..n], ss[n] + [last.read]);
      }
    }
  }

  /** Each stream has been read from its beginning and without a gap, and the last one goes on
      with `rest`. */
  predicate ReadSoFar(ss: seq<seq<Read>>, streams: seq<seq<Read>>, rest: seq<Read>) {
    && |ss| == |streams| >= 1 && streams[|ss| - 1] == ss[|ss| - 1] + rest
    && forall i :: 0 <= i < |ss| ==> ss[i] <= streams[i]
  }

  lemma ReadOn(ss: seq<seq<Read>>, streams: seq<seq<Read>>, rest: seq<Read>)
    requires ReadSoFar(ss, streams, rest) && rest != []
    ensures ReadSoFar(ss[..|ss| - 1] + [ss[|ss| - 1] + [rest[0]]], streams, rest[1..])
  {
    var n := |ss| - 1;
    assert ss[n] + rest == ss[n] + [rest[0]] + rest[1..];
    assert ss[n] + [rest[0]] <= streams[n];
  }

  lemma ReadNext(ss: seq<seq<Read>>, streams: seq<seq<Read>>, rest: seq<Read>, responses: seq<Read>)
    requires ReadSoFar(ss, streams, rest)
    ensures ReadSoFar(ss + [[]], streams + [responses], responses)
  {
  }

  lemma ReadOneMore(ops: seq<Op>, op: Op, rpc: seq<Read>, middle: Answers)
    requires ReadSoFar(Sessions(ops), Streams(rpc, ops), middle.rpc) && Offers(middle, op)
    ensures ReadSoFar(Sessions(ops + [op]), Streams(rpc, ops + [op]), Taking(middle, op).rpc)
  {
    hide ReadSoFar;
    assert (ops + [op])[..|ops|] == ops;
    if op.DidRead? {
      ReadOn(Sessions(ops), Streams(rpc, ops), middle.rpc);
    } else if Connects(op) {
      ReadNext(Sessions(ops), Streams(rpc, ops), middle.rpc, op.dial.responses);
    }
  }

  lemma {:induction false} SessionsReadStreams(ops: seq<Op>, start: Answers, rest: Answers)
    requires Taken(ops, start, rest)
    ensures ReadSoFar(Sessions(ops), Streams(start.rpc, ops), rest.rpc)
    decreases |ops|
  {
    if ops != [] {
      var n := |ops| - 1;
      var middle := TakenUpTo(ops, n, start, rest);
      assert ops[n..][0] == ops[n] && ops[n..][1..] == [] && ops == ops[..n] + [ops[n]];
      hide ReadSoFar, Sessions, Streams;
      SessionsReadStreams(ops[..n], start, middle);
      ReadOneMore(ops[..n], ops[n], start.rpc, middle);
    }
  }

  predicate BusinessRead(read: Read) {
    read.Got? && read.resp.eventType.Business?
  }

  /** The business events among what was read. */
  function BusinessEvents(got: seq<Read>): seq<Response> {
    if got == [] then []
    else
      var rest := BusinessEvents(got[..|got| - 1]);
      var last := got[|got| - 1];
      if BusinessRead(last) then rest + [last.resp] else rest
  }

  /** An attempt whose first response is a business event; `connect` reads it and reports an
      error instead. */
  predicate TakesEvent(op: Op) {
    op.DidDial? && op.dial.First? && op.dial.resp.eventType.Business?
  }

  /** All business events that reached the client, read or taken by an attempt, in order. */
  function Received(ops: seq<Op>): seq<Response> {
    if ops == [] then []
    else
      var rest, last := Received(ops[..|ops| - 1]), ops[|ops| - 1];
      if last.DidRead? && BusinessRead(last.read) then rest + [last.read.resp]
      else if TakesEvent(last) then rest + [last.dial.resp]
      else rest
  }

  lemma {:induction false} Concat(a: seq<Op>, b: seq<Op>)
    ensures Reads(a + b) == Reads(a) + Reads(b)
    ensures Received(a + b) == Received(a) + Received(b)
    decreases |b|
  {
    if b == [] {
      assert a + b == a;
    } else {
      assert (a + b)[..|a + b| - 1] == a + b[..|b| - 1];
      Concat(a, b[..|b| - 1]);
    }
  }

  lemma {:induction false} BusinessConcat(a: seq<Read>, b: seq<Read>)
    ensures BusinessEvents(a + b) == BusinessEvents(a) + BusinessEvents(b)
    decreases |b|
  {
    if b == [] {
      assert a + b == a;
    } else {
      assert (a + b)[..|a + b| - 1] == a + b[..|b| - 1];
      BusinessConcat(a, b[..|b| - 1]);
    }
  }

  predicate EndsInEvent(ops: seq<Op>) {
    ops != [] && ops[|ops| - 1].DidRead? && BusinessRead(ops[|ops| - 1].read)
  }

  predicate EndsInLoss(ops: seq<Op>) {
    ops != [] && TakesEvent(ops[|ops| - 1])
  }

  /** The answer brings the client no business event. */
  predicate Uneventful(op: Op) {
    !TakesEvent(op) && !(op.DidRead? && BusinessRead(op.read))
  }

  lemma FollowedIsUneventful(a: Op, b: Op)
    requires Follows(a, b)
    ensures Uneventful(a)
  {
  }

  lemma LastIsEventful(ops: seq<Op>)
    requires ops != []
    ensures var (rest, last) := (ops[..|ops| - 1], ops[|ops| - 1]);
      && BusinessEvents(Reads(ops)) == BusinessEvents(Reads(rest)) + (if EndsInEvent(ops) then [last.read.resp] else [])
      && Received(ops) == Received(rest) +
           (if Uneventful(last) then [] else if last.DidRead? then [last.read.resp] else [last.dial.resp])
  {
    var rest, last := ops[..|ops| - 1], ops[|ops| - 1];
    if last.DidRead? {
      BusinessConcat(Reads(rest), [last.read]);
      assert [last.read][..0] == [];
    }
  }

  lemma {:induction false} NothingYet(ops: seq<Op>)
    requires forall k :: 0 <= k < |ops| ==> Uneventful(ops[k])
    ensures BusinessEvents(Reads(ops)) == [] && Received(ops) == []
    decreases |ops|
  {
    hide BusinessEvents, Received, Reads;
    if ops == [] {
      EmptyTrace();
    } else {
      LastIsEventful(ops);
      NothingYet(ops[..|ops| - 1]);
    }
  }

  lemma EmptyTrace()
    ensures BusinessEvents(Reads([])) == [] && Received([]) == []
  {
  }

  /** A legal trace meets no business event before its last answer: neither does it read one
      and go on, nor does it go on after an attempt that took one. */
  lemma NothingPassedOver(ops: seq<Op>, delay: int)
    requires Paced(ops, delay)
    ensures forall k :: 0 <= k < |ops| - 1 ==> Uneventful(ops[k])
    ensures BusinessEvents(Reads(ops)) == if EndsInEvent(ops) then [ops[|ops| - 1].read.resp] else []
    ensures Received(ops) == BusinessEvents(Reads(ops)) + if EndsInLoss(ops) then [ops[|ops| - 1].dial.resp] else []
  {
    forall k | 0 <= k < |ops| - 1
      ensures Uneventful(ops[k])
    {
      FollowedIsUneventful(ops[k], ops[k + 1]);
    }
    hide Follows, OpOk, BusinessEvents, Received, Reads;
    EmptyTrace();
    if ops != [] {
      LastIsEventful(ops);
      NothingYet(ops[..|ops| - 1]);
    }
  }

  lemma EndsDecides(ops: seq<Op>, budget: int, result: Result)
    requires Ends(ops, budget, result)
    ensures EndsInEvent(ops) <==> result.Event?
    ensures result.Event? ==> ops[|ops| - 1].read.resp == result.resp && !EndsInLoss(ops)
    ensures EndsInLoss(ops) ==> result == Fail(Local)
  {
    hide DelaysSinceRead;
  }

  /** One call delivers the one business event it read, if it read one, and nothing else. What
      an attempt took is lost, and then the call ends in an error. */
  lemma OneDelivery(ops: seq<Op>, delay: int, budget: int, result: Result)
    requires Paced(ops, delay) && Ends(ops, budget, result)
    ensures BusinessEvents(Reads(ops)) == if result.Event? then [result.resp] else []
    ensures EndsInLoss(ops) ==> result == Fail(Local)
    ensures Received(ops) == BusinessEvents(Reads(ops)) + if EndsInLoss(ops) then [ops[|ops| - 1].dial.resp] else []
    ensures (exists k :: 0 <= k < |ops| && TakesEvent(ops[k])) <==> EndsInLoss(ops)
  {
    hide Paced, BusinessEvents, Received, Reads, Ends, EndsInEvent;
    NothingPassedOver(ops, delay);
    EndsDecides(ops, budget, result);
    if EndsInLoss(ops) {
      assert TakesEvent(ops[|ops| - 1]);
    }
    hide TakesEvent;
    if k :| 0 <= k < |ops| && TakesEvent(ops[k]) {
      assert !Uneventful(ops[k]);
      assert k == |ops| - 1;
    }
  }

  /** The calls up to here got all events that reached the client. */
  predicate AllDelivered(trace: seq<Op>, events: seq<Response>) {
    events == BusinessEvents(Reads(trace)) == Received(trace) && forall k :: 0 <= k < |trace| ==> !TakesEvent(trace[k])
  }

  /** One more call either returns the next event, or ends the run with at most one lost. */
  lemma OneMoreCall(trace: seq<Op>, events: seq<Response>, ops: seq<Op>, delay: int, budget: int, result: Result)
    requires AllDelivered(trace, events) && Paced(ops, delay) && Ends(ops, budget, result)
    ensures result.Event? ==> AllDelivered(trace + ops, events + [result.resp])
    ensures !result.Event? ==> Delivers(trace + ops, events, result)
  {
    hide Paced, Ends, BusinessEvents, Received, Reads;
    OneDelivery(ops, delay, budget, result);
    EndsDecides(ops, budget, result);
    Concat(trace, ops);
    BusinessConcat(Reads(trace), Reads(ops));
    LossInTrace(trace, ops);
  }

  /** A trace that ends in a call with a loss holds it, and one without holds none. */
  lemma LossInTrace(before: seq<Op>, ops: seq<Op>)
    requires forall k :: 0 <= k < |before| ==> !TakesEvent(before[k])
    requires (exists k :: 0 <= k < |ops| && TakesEvent(ops[k])) <==> EndsInLoss(ops)
    ensures (forall k :: 0 <= k < |before + ops| ==> !TakesEvent((before + ops)[k])) <==> !EndsInLoss(ops)
    ensures EndsInLoss(ops) ==> EndsInLoss(before + ops) && (before + ops)[|before + ops| - 1] == ops[|ops| - 1]
  {
    var all := before + ops;
    if EndsInLoss(ops) {
      assert TakesEvent(all[|all| - 1]);
    }
    forall k | 0 <= k < |all| && !EndsInLoss(ops)
      ensures !TakesEvent(all[k])
    {
      assert all[k] == if k < |before| then before[k] else ops[k - |before|];
    }
  }

  /** What a receive loop got of a run that ended with `last`. Delivered are the events that
      were read. They are all events that reached the client exactly if no attempt took one in
      place of the acknowledgement; otherwise one is missing, the last. */
  predicate Delivers(trace: seq<Op>, events: seq<Response>, last: Result) {
    && events == BusinessEvents(Reads(trace))
    && (events == Received(trace) <==> forall k :: 0 <= k < |trace| ==> !TakesEvent(trace[k]))
    && (events != Received(trace) ==>
          EndsInLoss(trace) && last == Fail(Local) && Received(trace) == events + [trace[|trace| - 1].dial.resp])
  }

  // ---------- a run of calls ----------

  /** One call: its trace, what it returned, and the answers it left. */
  datatype Call = Call(ops: seq<Op>, result: Result, rest: Answers)

  /** Each call does what a call does that starts where the one before it stopped. */
  predicate Follow(calls: seq<Call>, delay: int, budget: int, start: Answers) {
    forall i :: 0 <= i < |calls| ==> CallAt(calls[i], delay, budget, LeftBefore(calls, start, i))
  }

  /** The answers the call at position i starts with. */
  function LeftBefore(calls: seq<Call>, start: Answers, i: nat): Answers
    requires i <= |calls|
  {
    if i == 0 then start else calls[i - 1].rest
  }

  predicate CallAt(call: Call, delay: int, budget: int, start: Answers) {
    Outcome(call.ops, call.result, delay, budget, start, call.rest)
  }

  function TraceOf(calls: seq<Call>): seq<Op> {
    if calls == [] then [] else TraceOf(calls[..|calls| - 1]) + calls[|calls| - 1].ops
  }

  /** The calls of a receive loop: each returned the next event, until one did not, with `last`. */
  predicate Loop(calls: seq<Call>, events: seq<Response>, last: Result, delay: int, budget: int,
                 start: Answers, rest: Answers) {
    && |calls| == |events| + 1 && Follow(calls, delay, budget, start)
    && (forall i :: 0 <= i < |events| ==> calls[i].result == Event(events[i]))
    && calls[|events|].result == last && !last.Event? && calls[|events|].rest == rest
  }

  /** The calls so far have all returned events. */
  predicate Looping(calls: seq<Call>, events: seq<Response>, delay: int, budget: int, start: Answers, rest: Answers) {
    && |calls| == |events| && Follow(calls, delay, budget, start)
    && (forall i :: 0 <= i < |events| ==> calls[i].result == Event(events[i]))
    && rest == LeftBefore(calls, start, |calls|)
  }

  lemma NextCall(calls: seq<Call>, events: seq<Response>, call: Call, delay: int, budget: int, start: Answers,
                 rest: Answers)
    requires Looping(calls, events, delay, budget, start, rest)
    requires Outcome(call.ops, call.result, delay, budget, rest, call.rest)
    ensures TraceOf(calls + [call]) == TraceOf(calls) + call.ops
    ensures call.result.Event? ==> Looping(calls + [call], events + [call.result.resp], delay, budget, start, call.rest)
    ensures !call.result.Event? ==> Loop(calls + [call], events, call.result, delay, budget, start, call.rest)
  {
    hide Outcome;
    var calls' := calls + [call];
    assert calls'[..|calls|] == calls;
    forall i | 0 <= i < |calls'|
      ensures CallAt(calls'[i], delay, budget, LeftBefore(calls', start, i))
    {
      assert LeftBefore(calls', start, i) == LeftBefore(calls, start, i);
      assert i < |calls| ==> CallAt(calls[i], delay, budget, LeftBefore(calls, start, i));
    }
  }

  lemma SameCall(a: Call, b: Call, delay: int, budget: int, start: Answers)
    requires CallAt(a, delay, budget, start) && CallAt(b, delay, budget, start) && SameContext(a.ops, b.ops)
    ensures a == b
  {
    hide Outcome, SameContext;
    Determined(a.ops, a.result, a.rest, b.ops, b.result, b.rest, delay, budget, start);
  }

  lemma {:induction false} SameCalls(a: seq<Call>, b: seq<Call>, k: nat, delay: int, budget: int, start: Answers)
    requires Follow(a, delay, budget, start) && Follow(b, delay, budget, start) && k <= |a| && k <= |b|
    requires forall i :: 0 <= i < k ==> SameContext(a[i].ops, b[i].ops)
    ensures a[..k] == b[..k]
    decreases k
  {
    hide CallAt, SameContext;
    if k > 0 {
      SameCalls(a, b, k - 1, delay, budget, start);
      assert k > 1 ==> a[k - 2] == a[..k - 1][k - 2] && b[k - 2] == b[..k - 1][k - 2];
      assert LeftBefore(a, start, k - 1) == LeftBefore(b, start, k - 1);
      SameCall(a[k - 1], b[k - 1], delay, budget, LeftBefore(a, start, k - 1));
      assert a[..k] == a[..k - 1] + [a[k - 1]] && b[..k] == b[..k - 1] + [b[k - 1]];
    }
  }

  /** The answers, and the context where it is looked at, leave no choice in the whole loop. */
  lemma LoopDetermined(a: seq<Call>, ea: seq<Response>, la: Result, resta: Answers,
                       b: seq<Call>, eb: seq<Response>, lb: Result, restb: Answers,
                       delay: int, budget: int, start: Answers)
    requires Loop(a, ea, la, delay, budget, start, resta) && Loop(b, eb, lb, delay, budget, start, restb)
    requires forall i :: 0 <= i < |a| && i < |b| ==> SameContext(a[i].ops, b[i].ops)
    ensures a == b && ea == eb && la == lb && resta == restb
  {
    hide Follow, SameContext;
    var k := if |a| <= |b| then |a| else |b|;
    SameCalls(a, b, k, delay, budget, start);
    assert a[..k][k - 1] == a[k - 1] && b[..k][k - 1] == b[k - 1];
    assert |a| == |b|;
    assert a == a[..k] == b[..k] == b;
    assert forall i :: 0 <= i < |ea| ==> a[i].result == Event(ea[i]) && b[i].result == Event(eb[i]);
  }

  /** Each stream was read from its beginning and without a gap. */
  predicate InSessions(trace: seq<Op>, rpc: seq<Read>) {
    && Reads(trace) == Flatten(Sessions(trace)) && |Sessions(trace)| == |Streams(rpc, trace)|
    && forall i :: 0 <= i < |Sessions(trace)| ==> Sessions(trace)[i] <= Streams(rpc, trace)[i]
  }

  lemma TakenInSessions(trace: seq<Op>, start: Answers, rest: Answers)
    requires Taken(trace, start, rest)
    ensures InSessions(trace, start.rpc)
  {
    ReadsInSessions(trace);
    SessionsReadStreams(trace, start, rest);
  }

  /** A clean end of stream, a delay, and an event in place of the acknowledgement: the event
      reached the client, the call fails, and no later call returns it. */
  lemma LostEvent(delay: int, event: Response)
    requires event.eventType.Business?
    ensures var ops :=
        [DidRead(Broke(EndOfStream), None), DidWait(delay, Elapsed, None), DidDial(First(event, []), None)];
      var start := Answers([Broke(EndOfStream)], [Elapsed], [First(event, [])]);
      && Outcome(ops, Fail(Local), delay, 0, start, Answers([], [], []))
      && BusinessEvents(Reads(ops)) == [] && Received(ops) == [event]
    ensures forall ops, result, rest :: Outcome(ops, result, delay, 0, Answers([], [], []), rest) ==> result == Blocked
  {
    var ops := [DidRead(Broke(EndOfStream), None), DidWait(delay, Elapsed, None), DidDial(First(event, []), None)];
    var s0 := Answers([Broke(EndOfStream)], [Elapsed], [First(event, [])]);
    var s1 := Taking(s0, ops[0]);
    var s2 := Taking(s1, ops[1]);
    assert Taken([], Answers([], [], []), Answers([], [], []));
    assert ops[2..][1..] == [] && ops[1..][1..] == ops[2..];
    assert Taken(ops[2..], s2, Answers([], [], []));
    assert Taken(ops[1..], s1, Answers([], [], []));
    assert Follows(ops[0], ops[1]) && Follows(ops[1], ops[2]);
    assert Paced(ops, delay);
    assert ops[..2][..1] == ops[..1] && ops[..1][..0] == [];
    assert Reads(ops[..1]) == [Broke(EndOfStream)] && Reads(ops[..2]) == [Broke(EndOfStream)];
    OneDelivery(ops, delay, 0, Fail(Local));
    forall ops, result, rest | Outcome(ops, result, delay, 0, Answers([], [], []), rest)
      ensures result == Blocked
    {
      assert ops == [];
    }
  }

  // ---------- what a legal trace rules out ----------

  /** How many connection attempts have been made since the last read. */
  function DialsSinceRead(ops: seq<Op>): nat {
    if ops == [] then 0
    else
      var rest := ops[..|ops| - 1];
      match ops[|ops| - 1]
      case DidRead(_, _) => 0
      case DidWait(_, _, _) => DialsSinceRead(rest)
      case DidDial(_, _) => DialsSinceRead(rest) + 1
  }

  /** The outage a trace ends in began with an expiry, so with an undelayed renewal. */
  predicate Renewing(ops: seq<Op>) {
    ops != [] && match ops[|ops| - 1]
      case DidRead(read, _) => read.Got? && read.resp.eventType.SubscribeExpired?
      case _ => Renewing(ops[..|ops| - 1])
  }

  /** In each outage every attempt has its own delay, but for one renewal. */
  lemma {:induction false} AttemptsPerOutage(ops: seq<Op>, delay: int)
    requires Paced(ops, delay)
    ensures DialsSinceRead(ops) ==
      DelaysSinceRead(ops)
      + (if Renewing(ops) && !(ops[|ops| - 1].DidRead?) then 1 else 0)
      - (if ops != [] && ops[|ops| - 1].DidWait? then 1 else 0)
    decreases |ops|
  {
    if ops != [] {
      var rest, last := ops[..|ops| - 1], ops[|ops| - 1];
      assert rest != [] ==> Follows(ops[|ops| - 2], last);
      AttemptsPerOutage(rest, delay);
    }
  }

  /** With budget M, an outage makes at most M delayed attempts and one renewal, and a call
      that gives up has made exactly M delayed ones since the last response. */
  lemma ReconnectBudget(ops: seq<Op>, delay: int, budget: int, result: Result)
    requires Paced(ops, delay) && WithinBudget(ops, budget) && Ends(ops, budget, result) && budget > 0
    ensures forall k :: 0 <= k <= |ops| ==> DialsSinceRead(ops[..k]) <= budget + (if Renewing(ops[..k]) then 1 else 0)
    ensures result.GaveUp? ==>
      && ops[|ops| - 1].DidDial? && result.attempts == budget
      && DialsSinceRead(ops) == budget + (if Renewing(ops) then 1 else 0)
  {
    forall k | 0 <= k <= |ops|
      ensures DialsSinceRead(ops[..k]) <= budget + (if Renewing(ops[..k]) then 1 else 0)
    {
      AttemptsPerOutage(ops[..k], delay);
    }
    AttemptsPerOutage(ops, delay);
  }

  /** Nothing is attempted after a connect error that must end the stream, nor after a
      stream error that is not worth a reconnect. */
  lemma NothingAfterTerminal(ops: seq<Op>, delay: int, k: nat)
    requires Paced(ops, delay) && k < |ops|
    requires match ops[k]
      case DidDial(dial, ctx) => ConnectError(dial, ctx).Some? && IsTerminal(ConnectError(dial, ctx).value)
      case DidRead(Broke(err), ctx) => ctx.Some? || !Retryable(err)
      case DidRead(Got(resp), _) => ControlError(resp).Some?
      case DidWait(_, wait, _) => wait.CtxDone?
    ensures k == |ops| - 1
  {
    assert k < |ops| - 1 ==> Follows(ops[k], ops[k + 1]);
  }
}
