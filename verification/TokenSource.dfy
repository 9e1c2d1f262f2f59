/** `tokenSource` and `refreshCall` of connect/client.go as objects. Each method is one
    stretch of `valid` between two points where other callers may run, and carries out one
    step of RefreshProtocol; so what is proved there of all runs holds of these objects. */
module TokenSource {
  import opened Options
  import opened Units
  import opened Tokens
  import opened RefreshProtocol

  class RefreshCall {
    var done: bool
    var tok: Option<Token>
    var err: Option<TokenError>

    constructor ()
      ensures !done && tok.None? && err.None?
    {
      done, tok, err := false, None, None;
    }
  }

  class Source {
    var tok: Option<Token>
    var inflight: Option<RefreshCall>

    constructor ()
      ensures tok.None? && inflight.None?
      ensures forall stored :: Represents([], Init(stored))
    {
      tok, inflight := None, None;
    }

    /** This object and the calls allocated so far, in order, are what `s` says they are. */
    ghost predicate Represents(calls: seq<RefreshCall>, s: State)
      reads this, calls
    {
      && tok == s.tok
      && |calls| == |s.calls|
      && (forall i, j :: 0 <= i < j < |calls| ==> calls[i] != calls[j])
      && (forall i :: 0 <= i < |calls| ==>
            calls[i].done == s.calls[i].done && calls[i].tok == s.calls[i].tok && calls[i].err == s.calls[i].err)
      && (inflight.None? <==> s.inflight.None?)
      && (inflight.Some? ==> s.inflight.value < |calls| && inflight.value == calls[s.inflight.value])
    }

    /** The first critical section: load if nothing is held, then use what is held for at least a
        minute more, refuse when the refresh token is dead too, join the refresh in flight or
        else lead one. A caller that is to lead gets a new call, already claimed. */
    method Enter(load: Load, now1: int, now2: int, ghost s: State, ghost t: Tid, ghost calls: seq<RefreshCall>)
      returns (decision: Decision<RefreshCall>, call: RefreshCall?, ghost calls': seq<RefreshCall>)
      requires Represents(calls, s) && t !in s.threads
      requires load.LoadOk? ==> load.tok == s.store
      modifies this
      ensures var s' := Apply(s, RefreshProtocol.Enter(t, load.LoadFail?, now1, now2));
        && Represents(calls', s')
        && match decision
           case Refuse(err) => s'.threads == s.threads && Decide(s.tok, s.inflight, load, now1, now2).1 == Refuse(err)
           case Use(given) => s'.threads == s.threads && tok == Some(given) && given.AccessValid(now1, REFRESH_LEEWAY)
           case Wait(joined) =>
             && s.inflight.Some? && joined == calls[s.inflight.value]
             && s'.threads == s.threads[t := Waiting(s.inflight.value)]
           case Lead(refreshToken) =>
             && call != null && fresh(call) && inflight == Some(call) && calls' == calls + [call]
             && s'.threads == s.threads[t := Leading(|calls|, refreshToken)]
      ensures tok == if old(tok).None? && load.LoadOk? then load.tok else old(tok)
      ensures decision == Refuse(LoadError) <==> old(tok).None? && load.LoadFail?
      ensures decision == Refuse(NoToken) <==> tok.None? && load.LoadOk?
      ensures tok.Some? ==>
        var usable := Usable(tok.value, now1);
        var dead := !Alive(tok.value, now2);
        && (decision.Use? <==> usable) && (decision.Use? ==> decision.tok == tok.value)
        && (decision == Refuse(RefreshExpired) <==> !usable && dead)
        && (decision.Wait? <==> !usable && !dead && old(inflight).Some?)
        && (decision.Wait? ==> Some(decision.call) == old(inflight))
        && (decision.Lead? <==> !usable && !dead && old(inflight).None?)
        && (decision.Lead? ==> decision.refreshToken == tok.value.refresh)
      ensures !decision.Lead? ==> call == null && calls' == calls && inflight == old(inflight)
    {
      calls' := calls;
      call := null;
      if tok.None? {
        if load.LoadFail? {
          return Refuse(LoadError), null, calls;
        }
        tok := load.tok;
      }
      if tok.None? {
        return Refuse(NoToken), null, calls;
      }
      if tok.value.AccessValid(now1, REFRESH_LEEWAY) {
        return Use(tok.value), null, calls;
      }
      if !(now2 < tok.value.RefreshExpiry()) {
        return Refuse(RefreshExpired), null, calls;
      }
      if inflight.Some? {
        return Wait(inflight.value), null, calls;
      }
      call := new RefreshCall();
      inflight := Some(call);
      decision := Lead(tok.value.refresh);
      calls' := calls + [call];
    }

    /** The second critical section: keep the new pair, if there is one, and free the slot. */
    method Release(refreshed: Option<Token>, ghost s: State, ghost t: Tid, ghost calls: seq<RefreshCall>)
      requires Represents(calls, s) && Enabled(s, RefreshProtocol.Release(t)) && s.threads[t].refreshed == refreshed
      modifies this
      ensures Represents(calls, Apply(s, RefreshProtocol.Release(t)))
    {
      if refreshed.Some? {
        tok := refreshed;
      }
      inflight := None;
    }

    /** Writing the result, before `done` is closed. */
    method WriteResult(call: RefreshCall, refreshed: Option<Token>, err: Option<TokenError>,
                       ghost s: State, ghost t: Tid, ghost calls: seq<RefreshCall>)
      requires Represents(calls, s) && Enabled(s, Write(t))
      requires call == calls[s.threads[t].call] && s.threads[t].refreshed == refreshed && s.threads[t].err == err
      modifies call
      ensures Represents(calls, Apply(s, Write(t)))
    {
      if err.Some? {
        call.err := err;
      } else {
        call.tok := refreshed;
      }
    }

    /** Closing `done`. In every state the protocol reaches it is still open here, so the
        close does not panic. */
    method Close(call: RefreshCall, ghost s: State, ghost t: Tid, ghost calls: seq<RefreshCall>)
      requires Represents(calls, s) && FlightInv(s) && Enabled(s, CloseDone(t)) && call == calls[s.threads[t].call]
      modifies call
      ensures Represents(calls, Apply(s, CloseDone(t)))
      ensures !old(call.done)
    {
      assert ThreadOk(s, t);
      call.done := true;
    }
  }
}
