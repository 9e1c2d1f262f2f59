/** `Stream` of events/client.go. Its environment is what the streams deliver, how the
    reconnect delays end and how the connection attempts go, as EventTrace.Answers, and other
    goroutines that may run `Close` or end the context wherever `Recv` is not holding `s.mu`.
    Every method carries out steps of StreamLifecycle, so what is proved there of all
    interleavings holds of this object. */
module EventStream {
  import opened Options
  import opened EventErrors
  import opened EventTrace
  import Lifecycle = StreamLifecycle

  class Stream {
    const maxReconnectAttempts: int
    const reconnectDelay: int
    var shared: Lifecycle.Shared
    /** The error of `s.ctx`. */
    var ctxErr: Ctx
    /** The goroutines in `Close` that have not taken the lock yet. */
    var closing: set<Lifecycle.Tid>
    var dialled: nat
    /** What is to come; its `rpc` is the stream that `s.rpc` receives from. */
    var answers: Answers
    ghost var life: Lifecycle.State

    ghost predicate Valid()
      reads this
    {
      && Lifecycle.Reached(life)
      && life.shared == shared && life.closers == closing && life.dialled == dialled
      && CtxOk(ctxErr) && (shared.cancelled <==> ctxErr.Some?)
    }

    /** As `Subscribe` leaves it before its first `connect`. */
    constructor (maxReconnectAttempts: int, reconnectDelay: int, answers: Answers)
      ensures Valid() && life == Lifecycle.Init() && ctxErr.None?
      ensures this.maxReconnectAttempts == maxReconnectAttempts && this.reconnectDelay == reconnectDelay
      ensures this.answers == answers
    {
      this.maxReconnectAttempts, this.reconnectDelay, this.answers := maxReconnectAttempts, reconnectDelay, answers;
      shared, ctxErr, closing, dialled := Lifecycle.Shared(None, false, {}, []), None, {}, 0;
      life := Lifecycle.Init();
      Lifecycle.ReachedAtFirst();
    }

    /** The ghost record of one step. */
    ghost method Take(step: Lifecycle.Step)
      requires Lifecycle.Reached(life) && Lifecycle.Enabled(life, step)
      modifies this`life
      ensures Lifecycle.Reached(life) && life == Lifecycle.Apply(old(life), step)
    {
      Lifecycle.ReachedThen(life, step);
      life := Lifecycle.Apply(life, step);
    }

    /** Ends the context, if it has not ended. */
    method EndContext()
      requires Valid()
      modifies this`shared, this`ctxErr, this`life
      ensures Valid() && ctxErr.Some? && (old(ctxErr).Some? ==> ctxErr == old(ctxErr))
      ensures life == old(life).(shared := old(life).shared.(cancelled := true))
    {
      hide Lifecycle.Reached;
      Take(Lifecycle.ParentCancels);
      shared := shared.(cancelled := true);
      if ctxErr.None? {
        ctxErr := Some(Canceled);
        if * {
          ctxErr := Some(DeadlineExceeded);
        }
      }
    }

    /** What other goroutines do meanwhile: any number of steps of any number of them. */
    method Others()
      requires Valid()
      modifies this`shared, this`ctxErr, this`closing, this`life
      ensures Valid() && life.recv == old(life).recv
      ensures old(ctxErr).Some? ==> ctxErr == old(ctxErr)
      ensures shared.conn == old(shared).conn || shared.conn.None?
      ensures old(life).closeReturned ==> life.closeReturned
    {
      hide Lifecycle.Reached;
      var n: nat :| n >= 0;
      for k := 0 to n
        invariant Valid() && life.recv == old(life).recv
        invariant old(ctxErr).Some? ==> ctxErr == old(ctxErr)
        invariant shared.conn == old(shared).conn || shared.conn.None?
        invariant old(life).closeReturned ==> life.closeReturned
      {
        var tid: Lifecycle.Tid := *;
        if tid in closing {
          CloseLocks(tid);
        } else if * {
          CloseCancels(tid);
        } else {
          EndContext();
        }
      }
    }

    /** The two halves of `Close`, between which other goroutines may run. */
    method CloseCancels(tid: Lifecycle.Tid)
      requires Valid() && tid !in closing
      modifies this`shared, this`ctxErr, this`closing, this`life
      ensures Valid() && closing == old(closing) + {tid}
      ensures life == Lifecycle.Apply(old(life), Lifecycle.CloseCancels(tid))
      ensures ctxErr == if old(ctxErr).Some? then old(ctxErr) else Some(Canceled)
    {
      hide Lifecycle.Reached;
      Take(Lifecycle.CloseCancels(tid));
      shared := shared.(cancelled := true);
      if ctxErr.None? {
        ctxErr := Some(Canceled);
      }
      closing := closing + {tid};
    }

    method CloseLocks(tid: Lifecycle.Tid)
      requires Valid() && tid in closing
      modifies this`shared, this`closing, this`life
      ensures Valid() && closing == old(closing) - {tid}
      ensures life == Lifecycle.Apply(old(life), Lifecycle.CloseLocks(tid))
    {
      hide Lifecycle.Reached;
      Take(Lifecycle.CloseLocks(tid));
      closing := closing - {tid};
      if shared.conn.Some? {
        var c := shared.conn.value;
        shared := shared.(open := shared.open - {c}, closed := shared.closed + [c]);
        shared := shared.(conn := None);
      }
    }

    /** The connection that was published is closed, once in the whole life of the stream, and
        no other is touched. From here on nothing is open but what a `connect` that is under
        way still has in hand, and that will not be published. */
    method Close(tid: Lifecycle.Tid)
      requires Valid() && tid !in closing
      modifies this`shared, this`ctxErr, this`closing, this`life
      ensures Valid() && closing == old(closing) && life.recv == old(life).recv && life.closeReturned && ctxErr.Some?
      ensures forall c :: c in shared.open <==> c in old(shared).open && old(shared).conn != Some(c)
      ensures old(shared).conn.Some? ==> multiset(shared.closed)[old(shared).conn.value] == 1
      ensures shared.open == if Lifecycle.Connecting(life.recv) then {life.recv.conn} else {}
    {
      hide Lifecycle.Reached, Lifecycle.Apply, Lifecycle.Enabled;
      Lifecycle.ReachedInv(life);
      Lifecycle.CloseEffect(life, tid);
      CloseCancels(tid);
      CloseLocks(tid);
    }

    /** Closes the published connection, if there is one: once in the whole life of the stream,
        and no other with it. */
    method DropConn()
      requires Valid() && life.recv.Elsewhere?
      modifies this`shared, this`life
      ensures Valid() && life == Lifecycle.Apply(old(life), Lifecycle.Drop)
      ensures shared.conn.None? && shared.open == {} && shared.cancelled == old(shared).cancelled
      ensures old(shared).conn.Some? ==> multiset(shared.closed)[old(shared).conn.value] == 1
      ensures forall c :: Some(c) != old(shared).conn ==> (c in shared.closed <==> c in old(shared).closed)
    {
      Lifecycle.ReachedInv(life);
      ghost var was := shared;
      Take(Lifecycle.Drop);
      if shared.conn.Some? {
        var c := shared.conn.value;
        shared := shared.(open := shared.open - {c}, closed := shared.closed + [c]);
        shared := shared.(conn := None);
      }
      if was.conn.Some? {
        Lifecycle.ClosedThen(was.closed, was.conn.value);
      }
    }

    /** Takes the next outcome of a connection attempt. On an error the attempt's connection,
        if it got one, is closed again. On success it is published, and responses are read
        from its stream from then on. `ctx` is the context as it stood when it was looked at. */
    method Connect() returns (err: Option<StreamError>, ghost ctx: Ctx)
      requires Valid() && life.recv.Dropped? && answers.attempts != []
      modifies this`shared, this`ctxErr, this`closing, this`life, this`dialled, this`answers
      ensures Valid() && life.recv.Elsewhere? && UpToDate([DidDial(old(answers).attempts[0], ctx)], ctxErr)
      ensures CtxOk(ctx) && (old(ctxErr).Some? ==> ctx == old(ctxErr))
      ensures err == ConnectError(old(answers).attempts[0], ctx)
      ensures Offers(old(answers), DidDial(old(answers).attempts[0], ctx))
      ensures answers == Taking(old(answers), DidDial(old(answers).attempts[0], ctx))
      ensures shared.conn == if err.None? then Some(old(dialled)) else None
      ensures shared.open == if err.None? then {old(dialled)} else {}
      ensures old(life).closeReturned ==> life.closeReturned && err.Some?
    {
      hide Lifecycle.Reached;
      var dial := answers.attempts[0];
      answers := answers.(attempts := answers.attempts[1..]);
      Lifecycle.ReachedOpen(life);
      if dial.NoConn? {
        Take(Lifecycle.NoDial);
        return Some(dial.err), ctxErr;
      }
      var c := dialled;
      Take(Lifecycle.Dial);
      dialled := dialled + 1;
      shared := shared.(open := shared.open + {c});
      Others();
      if !dial.First? || ControlError(dial.resp).Some? || !dial.resp.eventType.SubscribeSuccess? {
        Discard(c, Lifecycle.ConnectFails);
        ctx := ctxErr;
        if !dial.First? {
          return Some(dial.err), ctx;
        }
        if ControlError(dial.resp).Some? {
          return ControlError(dial.resp), ctx;
        }
        return Some(Local), ctx;
      }
      err, ctx := Publish(c, dial.responses);
    }

    /** The acknowledged connection is published, unless the context has ended meanwhile. */
    method Publish(c: Lifecycle.ConnId, responses: seq<Read>) returns (err: Option<StreamError>, ghost ctx: Ctx)
      requires Valid() && life.recv == Lifecycle.Dialled(c)
      modifies this`shared, this`ctxErr, this`closing, this`life, this`answers
      ensures Valid() && life.recv.Elsewhere?
      ensures err == ctx && CtxOk(ctx) && (ctx.Some? ==> ctxErr == ctx) && (old(ctxErr).Some? ==> ctx == old(ctxErr))
      ensures answers == if err.None? then old(answers).(rpc := responses) else old(answers)
      ensures shared.conn == if err.None? then Some(c) else None
      ensures shared.open == if err.None? then {c} else {}
      ensures old(life).closeReturned ==> life.closeReturned && err.Some?
    {
      hide Lifecycle.Reached;
      Lifecycle.ReachedOpen(life);
      Take(Lifecycle.TryPublish);
      if ctxErr.Some? {
        Others();
        Discard(c, Lifecycle.Discard);
        return ctxErr, ctxErr;
      }
      shared := shared.(conn := Some(c));
      answers := answers.(rpc := responses);
      Lifecycle.ReachedOpen(life);
      return None, None;
    }

    /** Closes a connection that is not going to be published. */
    method Discard(c: Lifecycle.ConnId, ghost step: Lifecycle.Step)
      requires Valid() && Lifecycle.Connecting(life.recv) && life.recv.conn == c
      requires step == if life.recv.Dialled? then Lifecycle.ConnectFails else Lifecycle.Discard
      modifies this`shared, this`life
      ensures Valid() && life == Lifecycle.Apply(old(life), step)
      ensures shared.conn.None? && shared.open == {}
    {
      Lifecycle.ReachedOpen(life);
      Take(step);
      shared := shared.(open := shared.open - {c}, closed := shared.closed + [c]);
    }

    /** One turn of Reconnect after its budget check: wait out the delay, then connect. */
    method DelayedAttempt(ghost ops: seq<Op>, ghost start: Answers)
      returns (result: Option<Result>, err: Option<StreamError>, ghost ops': seq<Op>)
      requires Valid() && life.recv.Dropped? && Taken(ops, start, answers) && UpToDate(ops, ctxErr) && WantsWait(ops)
      requires Paced(ops, Delay(reconnectDelay)) && WithinBudget(ops, maxReconnectAttempts)
      requires maxReconnectAttempts > 0 ==> DelaysSinceRead(ops) < maxReconnectAttempts
      modifies this`shared, this`ctxErr, this`closing, this`life, this`dialled, this`answers
      ensures Valid() && Taken(ops', start, answers) && UpToDate(ops', ctxErr)
      ensures Paced(ops', Delay(reconnectDelay)) && WithinBudget(ops', maxReconnectAttempts)
      ensures |answers.timers| < |old(answers).timers| || result.Some?
      ensures result.Some? ==>
        && Outcome(ops', result.value, Delay(reconnectDelay), maxReconnectAttempts, start, answers)
        && !result.value.Event? && (!result.value.Blocked? ==> life.recv.Elsewhere?) && shared.conn.None?
      ensures result.None? ==>
        && life.recv.Elsewhere? && ops' != [] && ops'[|ops'| - 1].DidDial?
        && err == ConnectError(ops'[|ops'| - 1].dial, ops'[|ops'| - 1].ctx)
        && DelaysSinceRead(ops') == DelaysSinceRead(ops) + 1
        && |answers.attempts| < |old(answers).attempts| && (err.Some? ==> shared.conn.None?)
      ensures old(life).closeReturned ==> life.closeReturned
    {
      hide Lifecycle.Reached, Taken, Paced, WithinBudget, DelaysSinceRead;
      ghost var delay, budget := Delay(reconnectDelay), maxReconnectAttempts;
      Lifecycle.ReachedOpen(life);
      if answers.timers == [] {
        return Some(Blocked), None, ops;
      }
      var wait := answers.timers[0];
      Others();
      if wait.CtxDone? {
        EndContext();
      }
      ghost var op := DidWait(delay, wait, ctxErr);
      Extend(ops, op, delay, budget);
      TakeOne(ops, op, start, answers);
      answers := answers.(timers := answers.timers[1..]);
      ops' := ops + [op];
      if wait.CtxDone? {
        Take(Lifecycle.NoDial);
        return Some(Fail(ctxErr.value)), None, ops';
      }
      if answers.attempts == [] {
        return Some(Blocked), None, ops';
      }
      ghost var dial := answers.attempts[0];
      ghost var before, ctx := answers, ctxErr;
      err, ctx := Connect();
      Extend(ops', DidDial(dial, ctx), delay, budget);
      TakeOne(ops', DidDial(dial, ctx), start, before);
      ops' := ops' + [DidDial(dial, ctx)];
      result := None;
    }

    /** Retries until a subscription is acknowledged. The call it belongs to began with the
        answers `start` and has the trace `ops` so far. */
    method Reconnect(failures0: nat, ghost ops: seq<Op>, ghost start: Answers)
      returns (failures: nat, result: Option<Result>, ghost ops': seq<Op>)
      requires Valid() && life.recv.Elsewhere? && Taken(ops, start, answers) && UpToDate(ops, ctxErr)
      requires Paced(ops, Delay(reconnectDelay)) && WithinBudget(ops, maxReconnectAttempts)
      requires WantsWait(ops) && failures0 == DelaysSinceRead(ops) && (failures0 > 0 ==> shared.conn.None?)
      modifies this`shared, this`ctxErr, this`closing, this`life, this`dialled, this`answers
      ensures Valid() && Taken(ops', start, answers) && UpToDate(ops', ctxErr)
      ensures Paced(ops', Delay(reconnectDelay)) && WithinBudget(ops', maxReconnectAttempts)
      ensures result.None? ==>
        && life.recv.Elsewhere? && failures == 0 && WantsRead(ops') && ops' != []
        && |answers.attempts| < |old(answers).attempts|
      ensures result.Some? ==>
        && Outcome(ops', result.value, Delay(reconnectDelay), maxReconnectAttempts, start, answers)
        && !result.value.Event? && (!result.value.Blocked? ==> life.recv.Elsewhere?) && shared.conn.None?
      ensures old(life).closeReturned ==> life.closeReturned
    {
      hide Lifecycle.Reached, Taken, Paced, WithinBudget;
      failures := failures0;
      ops' := ops;
      while true
        invariant Valid() && life.recv.Elsewhere? && Taken(ops', start, answers) && UpToDate(ops', ctxErr)
        invariant Paced(ops', Delay(reconnectDelay)) && WithinBudget(ops', maxReconnectAttempts)
        invariant WantsWait(ops') && failures == DelaysSinceRead(ops') && (failures > 0 ==> shared.conn.None?)
        invariant |answers.attempts| <= |old(answers).attempts|
        invariant old(life).closeReturned ==> life.closeReturned
        decreases if maxReconnectAttempts > 0 then maxReconnectAttempts - failures else |answers.timers|
      {
        failures := failures + 1;
        if maxReconnectAttempts > 0 && failures > maxReconnectAttempts {
          BudgetSpent(ops', maxReconnectAttempts);
          return failures, Some(GaveUp(failures - 1)), ops';
        }
        Others();
        DropConn();
        var err;
        result, err, ops' := DelayedAttempt(ops', start);
        if result.Some? {
          return;
        }
        if err.None? {
          return 0, None, ops';
        }
        if IsTerminal(err.value) {
          return failures, Some(Fail(err.value)), ops';
        }
      }
    }

    /** Resubscribes at once after an expiry; a transient failure falls back to Reconnect. */
    method Renew(failures0: nat, ghost ops: seq<Op>, ghost start: Answers)
      returns (failures: nat, result: Option<Result>, ghost ops': seq<Op>)
      requires Valid() && life.recv.Elsewhere? && Taken(ops, start, answers) && UpToDate(ops, ctxErr)
      requires Paced(ops, Delay(reconnectDelay)) && WithinBudget(ops, maxReconnectAttempts)
      requires ops != [] && ops[|ops| - 1].DidRead? && WantsDial(ops) && failures0 == 0
      modifies this`shared, this`ctxErr, this`closing, this`life, this`dialled, this`answers
      ensures Valid() && Taken(ops', start, answers) && UpToDate(ops', ctxErr)
      ensures Paced(ops', Delay(reconnectDelay)) && WithinBudget(ops', maxReconnectAttempts)
      ensures result.None? ==>
        && life.recv.Elsewhere? && failures == 0 && WantsRead(ops') && ops' != []
        && |answers.attempts| < |old(answers).attempts|
      ensures result.Some? ==>
        && Outcome(ops', result.value, Delay(reconnectDelay), maxReconnectAttempts, start, answers)
        && !result.value.Event? && (!result.value.Blocked? ==> life.recv.Elsewhere?) && shared.conn.None?
      ensures old(life).closeReturned ==> life.closeReturned
    {
      hide Lifecycle.Reached, Taken, Paced, WithinBudget;
      Others();
      DropConn();
      if answers.attempts == [] {
        return failures0, Some(Blocked), ops;
      }
      ghost var dial, before := answers.attempts[0], answers;
      Others();
      var err: Option<StreamError>;
      ghost var ctx;
      err, ctx := Connect();
      Extend(ops, DidDial(dial, ctx), Delay(reconnectDelay), maxReconnectAttempts);
      TakeOne(ops, DidDial(dial, ctx), start, before);
      ops' := ops + [DidDial(dial, ctx)];
      if err.None? {
        return failures0, None, ops';
      }
      if IsTerminal(err.value) {
        return failures0, Some(Fail(err.value)), ops';
      }
      failures, result, ops' := Reconnect(failures0, ops', start);
    }

    /** The next business event, or the error that ends the stream. `ops` is the trace. Other
        goroutines may run at any point; if one of them has returned from `Close`, nothing is
        left open. */
    method Recv() returns (result: Result, ghost ops: seq<Op>)
      requires Valid() && life.recv.Elsewhere?
      modifies this`shared, this`ctxErr, this`closing, this`life, this`dialled, this`answers
      ensures Valid() && Outcome(ops, result, Delay(reconnectDelay), maxReconnectAttempts, old(answers), answers)
      ensures !result.Blocked? ==> life.recv.Elsewhere? && (life.closeReturned ==> shared.open == {})
      ensures old(life).closeReturned ==> life.closeReturned
      ensures result.Event? ==>
        |answers.attempts| < |old(answers).attempts| ||
        (|answers.attempts| == |old(answers).attempts| && |answers.rpc| < |old(answers).rpc|)
    {
      hide Lifecycle.Reached, Paced, WithinBudget, Taken, DelaysSinceRead, Outcome;
      ghost var start := answers;
      ghost var delay, budget := Delay(reconnectDelay), maxReconnectAttempts;
      var failures := 0;
      ops := [];
      NothingTaken(start, delay, budget);
      while true
        invariant Valid() && life.recv.Elsewhere? && Taken(ops, start, answers) && UpToDate(ops, ctxErr)
        invariant Paced(ops, delay) && WithinBudget(ops, budget)
        invariant WantsRead(ops) && failures == 0
        invariant old(life).closeReturned ==> life.closeReturned
        invariant |answers.attempts| < |old(answers).attempts| ||
          (|answers.attempts| == |old(answers).attempts| && |answers.rpc| <= |old(answers).rpc|)
        decreases |answers.attempts|, |answers.rpc|
      {
        if answers.rpc == [] {
          Finish(ops, Blocked, delay, budget, start, answers);
          return Blocked, ops;
        }
        var read := answers.rpc[0];
        Others();
        ghost var op := DidRead(read, ctxErr);
        Extend(ops, op, delay, budget);
        TakeOne(ops, op, start, answers);
        answers := answers.(rpc := answers.rpc[1..]);
        ops := ops + [op];
        NoDelaySinceRead(ops);
        Lifecycle.ReachedOpen(life);
        var failed: Option<Result> := None;
        if read.Broke? {
          if ctxErr.Some? {
            Finish(ops, Fail(ctxErr.value), delay, budget, start, answers);
            return Fail(ctxErr.value), ops;
          }
          if !Retryable(read.err) {
            Finish(ops, Fail(read.err), delay, budget, start, answers);
            return Fail(read.err), ops;
          }
          failures, failed, ops := Reconnect(failures, ops, start);
          if failed.Some? {
            Lifecycle.ReachedOpen(life);
            return failed.value, ops;
          }
          continue;
        }
        if ControlError(read.resp).Some? {
          Finish(ops, Fail(ControlError(read.resp).value), delay, budget, start, answers);
          return Fail(ControlError(read.resp).value), ops;
        }
        match read.resp.eventType {
          case SubscribeSuccess => continue;
          case Ping => continue;
          case SubscribeExpired =>
            failures, failed, ops := Renew(failures, ops, start);
            if failed.Some? {
              Lifecycle.ReachedOpen(life);
              return failed.value, ops;
            }
            continue;
          case _ =>
        }
        Finish(ops, Event(read.resp), delay, budget, start, answers);
        return Event(read.resp), ops;
      }
    }

    /** The receive loop of the package documentation. It calls `Recv` until that returns no
        event. What it gets are the business events read from the successive streams, in order
        and once each, and at most one that reached the client is missing. */
    method Consume() returns (events: seq<Response>, last: Result, ghost calls: seq<Call>)
      requires Valid() && life.recv.Elsewhere?
      modifies this`shared, this`ctxErr, this`closing, this`life, this`dialled, this`answers
      ensures Valid()
      ensures Loop(calls, events, last, Delay(reconnectDelay), maxReconnectAttempts, old(answers), answers)
      ensures Delivers(TraceOf(calls), events, last)
      ensures Taken(TraceOf(calls), old(answers), answers) && InSessions(TraceOf(calls), old(answers).rpc)
    {
      hide Lifecycle.Reached, Paced, WithinBudget, Taken, Ends, AllDelivered, Delivers, InSessions, Loop,
        Looping, TraceOf;
      events, calls := [], [];
      ghost var start, delay, budget := answers, Delay(reconnectDelay), maxReconnectAttempts;
      NoCallYet(start, delay, budget);
      while true
        invariant Valid() && life.recv.Elsewhere? && Taken(TraceOf(calls), start, answers)
        invariant AllDelivered(TraceOf(calls), events) && Looping(calls, events, delay, budget, start, answers)
        decreases |answers.attempts|, |answers.rpc|
      {
        ghost var ops;
        ghost var middle := answers;
        last, ops := Recv();
        OneMoreCall(TraceOf(calls), events, ops, delay, budget, last);
        TakenThen(TraceOf(calls), ops, start, middle, answers);
        NextCall(calls, events, Call(ops, last, answers), delay, budget, start, middle);
        calls := calls + [Call(ops, last, answers)];
        if !last.Event? {
          TakenInSessions(TraceOf(calls), start, answers);
          return;
        }
        events := events + [last.resp];
      }
    }
  }

  lemma NoCallYet(start: Answers, delay: int, budget: int)
    ensures AllDelivered(TraceOf([]), []) && Taken(TraceOf([]), start, start)
    ensures Looping([], [], delay, budget, start, start)
  {
  }

  lemma BudgetSpent(ops: seq<Op>, budget: int)
    requires WithinBudget(ops, budget) && budget > 0
    ensures DelaysSinceRead(ops) <= budget
  {
    assert ops[..|ops|] == ops;
  }

  lemma NoDelaySinceRead(ops: seq<Op>)
    requires ops != [] && ops[|ops| - 1].DidRead?
    ensures DelaysSinceRead(ops) == 0
  {
  }
}
