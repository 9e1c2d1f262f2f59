/** The single-flight refresh of connect/client.go as a step system: any number of callers
    of `tokenSource.valid`, one lock, one `inflight` slot and one rotating token pair.
    Each critical section is one step; between them the endpoint answers or fails, the
    store saves or fails, the result is written, `done` is closed, and waiters wake or
    give up, in any order the scheduler likes. */
module RefreshProtocol {
  import opened Options
  import opened Units
  import opened Tokens

  type Tid = nat
  type CallId = nat

  /** A `refreshCall`, with the caller that allocated it. */
  datatype Call = Call(owner: Tid, done: bool, tok: Option<Token>, err: Option<TokenError>)

  /** Where a caller inside `valid` stands; a caller outside it has no entry. */
  datatype Pc =
    | Leading(call: CallId, refreshToken: string)
    | Awaiting(call: CallId, refreshToken: string)
    | Saving(call: CallId, pair: Token)
    | Releasing(call: CallId, refreshed: Option<Token>, err: Option<TokenError>)
    | Writing(call: CallId, refreshed: Option<Token>, err: Option<TokenError>)
    | Closing(call: CallId)
    | Returning(call: CallId)
    | Waiting(call: CallId)

  /** What an observer of the store, the token endpoint and the channels sees. */
  datatype Event =
    | Loaded(load: Load)
    | Sent(refreshToken: string)
    | Received(refreshToken: string, tok: Token)
    | Failed(refreshToken: string)
    | Saved(tok: Token, ok: bool)
    | Closed(call: CallId)
    | Returned(tid: Tid, call: CallId, result: Option<Token>, err: Option<TokenError>)

  /** `store` is the TokenStore's content; `known` holds every refresh token the endpoint
      has issued so far. */
  datatype State = State(
    tok: Option<Token>,
    inflight: Option<CallId>,
    calls: seq<Call>,
    threads: map<Tid, Pc>,
    store: Option<Token>,
    known: set<string>,
    log: seq<Event>)

  datatype Step =
    | Enter(tid: Tid, loadFails: bool, now1: int, now2: int)
    | Send(tid: Tid)
    | Reply(tid: Tid, reply: Option<Token>)
    | Save(tid: Tid, ok: bool, wroteAnyway: bool)
    | Release(tid: Tid)
    | Write(tid: Tid)
    | CloseDone(tid: Tid)
    | Return(tid: Tid)
    | GiveUp(tid: Tid)

  function Init(stored: Option<Token>): State {
    State(None, None, [], map[], stored, if stored.Some? then {stored.value.refresh} else {}, [])
  }

  /** The endpoint never issues a refresh token twice: the one assumption about it. */
  predicate Enabled(s: State, step: Step) {
    if step.Enter? then step.tid !in s.threads
    else
      step.tid in s.threads &&
      var pc := s.threads[step.tid];
      match step
      case Send(_) => pc.Leading?
      case Reply(_, reply) => pc.Awaiting? && (reply.Some? ==> reply.value.refresh !in s.known)
      case Save(_, _, _) => pc.Saving?
      case Release(_) => pc.Releasing?
      case Write(_) => pc.Writing? && pc.call < |s.calls|
      case CloseDone(_) => pc.Closing? && pc.call < |s.calls|
      case Return(_) => pc.call < |s.calls| && (pc.Returning? || (pc.Waiting? && s.calls[pc.call].done))
      case GiveUp(_) => pc.Waiting?
  }

  function Apply(s: State, step: Step): State
    requires Enabled(s, step)
  {
    var t := step.tid;
    match step
    case Enter(_, loadFails, now1, now2) =>
      ApplyEnter(s, t, if loadFails then LoadFail else LoadOk(s.store), now1, now2)
    case Send(_) =>
      var pc := s.threads[t];
      s.(threads := s.threads[t := Awaiting(pc.call, pc.refreshToken)], log := s.log + [Sent(pc.refreshToken)])
    case Reply(_, reply) =>
      var pc := s.threads[t];
      if reply.Some? then
        s.(threads := s.threads[t := Saving(pc.call, reply.value)],
           known := s.known + {reply.value.refresh},
           log := s.log + [Received(pc.refreshToken, reply.value)])
      else
        s.(threads := s.threads[t := Releasing(pc.call, None, Some(RefreshError))],
           log := s.log + [Failed(pc.refreshToken)])
    case Save(_, ok, wroteAnyway) =>
      var pc := s.threads[t];
      s.(threads := s.threads[t := Releasing(pc.call, Some(pc.pair), if ok then None else Some(SaveError))],
         store := if ok || wroteAnyway then Some(pc.pair) else s.store,
         log := s.log + [Saved(pc.pair, ok)])
    case Release(_) =>
      var pc := s.threads[t];
      s.(tok := if pc.refreshed.Some? then pc.refreshed else s.tok,
         inflight := None,
         threads := s.threads[t := Writing(pc.call, pc.refreshed, pc.err)])
    case Write(_) =>
      var pc := s.threads[t];
      var call := s.calls[pc.call];
      s.(calls := s.calls[pc.call := if pc.err.Some? then call.(err := pc.err) else call.(tok := pc.refreshed)],
         threads := s.threads[t := Closing(pc.call)])
    case CloseDone(_) =>
      var pc := s.threads[t];
      s.(calls := s.calls[pc.call := s.calls[pc.call].(done := true)],
         threads := s.threads[t := Returning(pc.call)],
         log := s.log + [Closed(pc.call)])
    case Return(_) =>
      var c := s.threads[t].call;
      s.(threads := s.threads - {t}, log := s.log + [Returned(t, c, s.calls[c].tok, s.calls[c].err)])
    case GiveUp(_) => s.(threads := s.threads - {t})
  }

  function ApplyEnter(s: State, t: Tid, load: Load, now1: int, now2: int): State {
    var (held, decision) := Decide(s.tok, s.inflight, load, now1, now2);
    var s1 := s.(tok := held, log := if s.tok.None? then s.log + [Loaded(load)] else s.log);
    match decision
    case Refuse(_) => s1
    case Use(_) => s1
    case Wait(c) => s1.(threads := s.threads[t := Waiting(c)])
    case Lead(refreshToken) =>
      var c := |s.calls|;
      s1.(calls := s.calls + [Call(t, false, None, None)],
          inflight := Some(c),
          threads := s.threads[t := Leading(c, refreshToken)])
  }

  /** The pair that is held once a caller has looked: the one that was, or else what was loaded. */
  function Held(s: State, loadFails: bool): Option<Token> {
    if s.tok.Some? then s.tok else if loadFails then None else s.store
  }

  /** The pair can be handed out: it is good for another minute. */
  predicate Usable(pair: Token, now: int) {
    pair.access != "" && now + 60 * SECOND < pair.createdAt + pair.accessExpiresIn * SECOND
  }

  /** Its refresh token can still be exchanged. */
  predicate Alive(pair: Token, now: int) {
    now < pair.createdAt + pair.refreshExpiresIn * SECOND
  }

  /** A caller that enters goes on only with a pair that cannot be used any more and can still be
      refreshed; it joins the refresh in flight, or leads one with the held refresh token. */
  lemma EnterExactly(s: State, t: Tid, loadFails: bool, now1: int, now2: int)
    requires t !in s.threads
    ensures var (s', held) := (Apply(s, Enter(t, loadFails, now1, now2)), Held(s, loadFails));
      && s'.tok == held
      && s'.log == s.log + (if s.tok.Some? then [] else [Loaded(if loadFails then LoadFail else LoadOk(s.store))])
      && (t in s'.threads <==> held.Some? && !Usable(held.value, now1) && Alive(held.value, now2))
      && (t in s'.threads ==>
            s'.threads == s.threads[t :=
              if s.inflight.Some? then Waiting(s.inflight.value) else Leading(|s.calls|, held.value.refresh)])
      && (t in s'.threads && s.inflight.None? ==>
            s'.inflight == Some(|s.calls|) && s'.calls == s.calls + [Call(t, false, None, None)])
      && (t !in s'.threads || s.inflight.Some? ==> s'.inflight == s.inflight && s'.calls == s.calls)
      && (t !in s'.threads ==> s'.threads == s.threads)
  {
  }

  /** A run: steps that are each enabled where they are taken. */
  predicate Valid(s: State, run: seq<Step>)
    decreases |run|
  {
    run == [] || (Enabled(s, run[0]) && Valid(Apply(s, run[0]), run[1..]))
  }

  function After(s: State, run: seq<Step>): State
    requires Valid(s, run)
    decreases |run|
  {
    if run == [] then s else After(Apply(s, run[0]), run[1..])
  }

  // ---------- the invariant ----------

  predicate Leads(pc: Pc) {
    !pc.Waiting?
  }

  /** From claiming the `inflight` slot up to releasing it. */
  predicate HoldsSlot(pc: Pc) {
    pc.Leading? || pc.Awaiting? || pc.Saving? || pc.Releasing?
  }

  predicate ExactlyOne(tok: Option<Token>, err: Option<TokenError>) {
    tok.Some? <==> err.None?
  }

  /** The refreshed pair and error a leader carries are those of one of the three outcomes. */
  predicate Outcome(refreshed: Option<Token>, err: Option<TokenError>) {
    refreshed.None? ==> err.Some?
  }

  /** Each caller's position agrees with the call it is on. */
  predicate ThreadOk(s: State, t: Tid)
    requires t in s.threads
  {
    var pc := s.threads[t];
    pc.call < |s.calls| &&
    var call := s.calls[pc.call];
    && (Leads(pc) ==> call.owner == t)
    && (Leads(pc) && !pc.Closing? && !pc.Returning? ==> call == Call(t, false, None, None))
    && (HoldsSlot(pc) ==> s.inflight == Some(pc.call))
    && (pc.Leading? || pc.Awaiting? ==> s.tok.Some? && s.tok.value.refresh == pc.refreshToken)
    && (pc.Releasing? || pc.Writing? ==> Outcome(pc.refreshed, pc.err))
    && (pc.Closing? ==> !call.done && ExactlyOne(call.tok, call.err))
    && (pc.Returning? ==> call.done)
  }

  /** A call that is not done still has its leader, and one that is done has its result. */
  predicate CallOk(s: State, c: CallId)
    requires c < |s.calls|
  {
    var call := s.calls[c];
    && (call.done ==> ExactlyOne(call.tok, call.err))
    && (!call.done ==> call.owner in s.threads && Leads(s.threads[call.owner]) && s.threads[call.owner].call == c)
  }

  predicate SlotOk(s: State) {
    && (s.tok.None? ==> s.calls == [])
    && (s.inflight.Some? ==>
      && s.inflight.value < |s.calls|
      && s.tok.Some?
      && !s.calls[s.inflight.value].done
      && s.calls[s.inflight.value].owner in s.threads
      && HoldsSlot(s.threads[s.calls[s.inflight.value].owner]))
  }

  predicate FlightInv(s: State) {
    && (forall t :: t in s.threads ==> ThreadOk(s, t))
    && (forall c :: 0 <= c < |s.calls| ==> CallOk(s, c))
    && SlotOk(s)
  }

  /** What the invariant says about one caller and the slot. */
  lemma InFlight(s: State, t: Tid)
    requires FlightInv(s)
    ensures SlotOk(s) && (t in s.threads ==> ThreadOk(s, t))
  {
  }

  lemma ThreadStep(s: State, step: Step, t: Tid)
    requires FlightInv(s) && Enabled(s, step) && t in Apply(s, step).threads
    ensures ThreadOk(Apply(s, step), t)
  {
    hide FlightInv;
    InFlight(s, t);
    InFlight(s, step.tid);
  }

  lemma CallStep(s: State, step: Step, c: CallId)
    requires FlightInv(s) && Enabled(s, step) && c < |Apply(s, step).calls|
    ensures CallOk(Apply(s, step), c)
  {
    if c < |s.calls| {
      assert CallOk(s, c);
    }
    if step.tid in s.threads {
      assert ThreadOk(s, step.tid);
    }
  }

  lemma SlotStep(s: State, step: Step)
    requires FlightInv(s) && Enabled(s, step)
    ensures SlotOk(Apply(s, step))
  {
    hide FlightInv;
    InFlight(s, step.tid);
  }

  lemma FlightStep(s: State, step: Step)
    requires FlightInv(s) && Enabled(s, step)
    ensures FlightInv(Apply(s, step))
  {
    forall t | t in Apply(s, step).threads
      ensures ThreadOk(Apply(s, step), t)
    {
      ThreadStep(s, step, t);
    }
    forall c | 0 <= c < |Apply(s, step).calls|
      ensures CallOk(Apply(s, step), c)
    {
      CallStep(s, step, c);
    }
    SlotStep(s, step);
  }

  // ---------- rotation: which refresh tokens have been used up ----------

  /** The position of the caller that holds the slot. */
  function Holder(s: State): Pc
    requires FlightInv(s) && s.inflight.Some?
  {
    s.threads[s.calls[s.inflight.value].owner]
  }

  /** A pair the endpoint has issued that is not yet installed. */
  function Pending(s: State): Option<Token>
    requires FlightInv(s)
  {
    if s.inflight.None? then None
    else match Holder(s)
      case Saving(_, pair) => Some(pair)
      case Releasing(_, refreshed, _) => refreshed
      case _ => None
  }

  /** The newest pair this source has been given. */
  function Newest(s: State): Option<Token>
    requires FlightInv(s)
  {
    if Pending(s).Some? then Pending(s) else s.tok
  }

  /** No refresh token that was exchanged for a pair is the newest one, none was sent
      after the exchange, and the newest and the stored pair are ones the endpoint issued. */
  predicate RotationOk(newest: Option<Token>, store: Option<Token>, known: set<string>, log: seq<Event>) {
    && (forall i :: 0 <= i < |log| && log[i].Received? ==>
          log[i].refreshToken in known && newest.Some? && newest.value.refresh != log[i].refreshToken)
    && (newest.Some? ==> newest.value.refresh in known)
    && (store.Some? ==> store.value.refresh in known)
    && (forall i, j :: 0 <= i < j < |log| && log[i].Received? && log[j].Sent? ==>
          log[i].refreshToken != log[j].refreshToken)
  }

  predicate RotationInv(s: State)
    requires FlightInv(s)
  {
    RotationOk(Newest(s), s.store, s.known, s.log)
  }

  /** The newest pair changes only when the first load brings one in and when the endpoint
      answers; what is sent is always the newest refresh token. */
  lemma NewestStep(s: State, step: Step)
    requires FlightInv(s) && Enabled(s, step)
    ensures FlightInv(Apply(s, step))
    ensures Newest(Apply(s, step)) == (
      if step.Enter? && s.tok.None? && !step.loadFails then s.store
      else if step.Reply? && step.reply.Some? then step.reply
      else Newest(s))
    ensures step.Send? || step.Reply? ==>
      Newest(s).Some? && Newest(s).value.refresh == s.threads[step.tid].refreshToken
    ensures step.Save? ==> Newest(s) == Some(s.threads[step.tid].pair)
  {
    hide FlightInv;
    FlightStep(s, step);
    InFlight(s, step.tid);
    InFlight(Apply(s, step), step.tid);
  }

  lemma RotationStep(s: State, step: Step)
    requires FlightInv(s) && RotationInv(s) && Enabled(s, step)
    ensures FlightInv(Apply(s, step)) && RotationInv(Apply(s, step))
  {
    NewestStep(s, step);
    InFlight(s, step.tid);
    assert s.tok.None? ==> Newest(s).None?;
    hide FlightInv, Newest, SlotOk, ThreadOk;
  }

  // ---------- the store ----------

  /** The pairs received, in order. */
  function Receipts(log: seq<Event>): seq<Token> {
    if log == [] then []
    else
      var rest := Receipts(log[..|log| - 1]);
      var e := log[|log| - 1];
      if e.Received? then rest + [e.tok] else rest
  }

  /** The pairs handed to `Save`, in order. */
  function Saves(log: seq<Event>): seq<Token> {
    if log == [] then []
    else
      var rest := Saves(log[..|log| - 1]);
      var e := log[|log| - 1];
      if e.Saved? then rest + [e.tok] else rest
  }

  /** No save has failed since the last one that succeeded. */
  predicate LastSaveOk(log: seq<Event>) {
    log == [] ||
    var e := log[|log| - 1];
    if e.Saved? then e.ok else LastSaveOk(log[..|log| - 1])
  }

  /** The pair received that is still to be saved. */
  function Unsaved(s: State): seq<Token>
    requires FlightInv(s)
  {
    if s.inflight.Some? && Holder(s).Saving? then [Holder(s).pair] else []
  }

  predicate StoreOk(tok: Option<Token>, newest: Option<Token>, unsaved: seq<Token>, store: Option<Token>,
                    log: seq<Event>) {
    && Receipts(log) == Saves(log) + unsaved
    && (unsaved == [] && tok.Some? && LastSaveOk(log) ==> store == newest)
    && (tok.None? ==> Saves(log) == [] && LastSaveOk(log))
  }

  predicate StoreInv(s: State)
    requires FlightInv(s)
  {
    StoreOk(s.tok, Newest(s), Unsaved(s), s.store, s.log)
  }

  lemma UnsavedStep(s: State, step: Step)
    requires FlightInv(s) && Enabled(s, step)
    ensures FlightInv(Apply(s, step))
    ensures Unsaved(Apply(s, step)) == (
      if step.Reply? && step.reply.Some? then [step.reply.value] else if step.Save? then [] else Unsaved(s))
    ensures step.Reply? ==> Unsaved(s) == []
    ensures step.Save? ==> Unsaved(s) == [s.threads[step.tid].pair]
  {
    hide FlightInv;
    FlightStep(s, step);
    InFlight(s, step.tid);
    InFlight(Apply(s, step), step.tid);
  }

  lemma LedgerAppend(log: seq<Event>, e: Event)
    ensures Receipts(log + [e]) == if e.Received? then Receipts(log) + [e.tok] else Receipts(log)
    ensures Saves(log + [e]) == if e.Saved? then Saves(log) + [e.tok] else Saves(log)
    ensures LastSaveOk(log + [e]) == if e.Saved? then e.ok else LastSaveOk(log)
  {
    assert (log + [e])[..|log|] == log;
  }

  /** What a step may do to the log and to the store. */
  lemma StoreEffect(s: State, step: Step)
    requires FlightInv(s) && Enabled(s, step)
    ensures var s' := Apply(s, step);
      && (step.Reply? && step.reply.Some? ==>
            s'.log == s.log + [Received(s.threads[step.tid].refreshToken, step.reply.value)] && s.tok.Some?)
      && (step.Save? ==> s'.log == s.log + [Saved(s.threads[step.tid].pair, step.ok)] && s.tok.Some?)
      && (!step.Save? && !(step.Reply? && step.reply.Some?) ==>
            s'.log == s.log || exists e: Event :: !e.Received? && !e.Saved? && s'.log == s.log + [e])
      && s'.store == (if step.Save? && (step.ok || step.wroteAnyway) then Some(s.threads[step.tid].pair) else s.store)
      && (s'.tok.None? ==> s.tok.None?)
      && (s.tok.None? && s'.tok.Some? ==> step.Enter? && !step.loadFails)
  {
    var s' := Apply(s, step);
    if step.tid in s.threads {
      assert ThreadOk(s, step.tid);
    }
    if s'.log != s.log {
      assert s'.log == s.log + [s'.log[|s.log|]];
    }
  }

  lemma StoreStep(s: State, step: Step)
    requires FlightInv(s) && StoreInv(s) && Enabled(s, step)
    ensures FlightInv(Apply(s, step)) && StoreInv(Apply(s, step))
  {
    NewestStep(s, step);
    UnsavedStep(s, step);
    StoreEffect(s, step);
    var s' := Apply(s, step);
    StoreOkStep(s.tok, Newest(s), Unsaved(s), s.store, s.log, s'.tok, Newest(s'), Unsaved(s'), s'.store, s'.log, step,
                if step.Save? then s.threads[step.tid].pair else Token("", "", 0, 0, 0));
  }

  lemma StoreOkStep(tok: Option<Token>, newest: Option<Token>, unsaved: seq<Token>, store: Option<Token>,
                    log: seq<Event>, tok': Option<Token>, newest': Option<Token>, unsaved': seq<Token>,
                    store': Option<Token>, log': seq<Event>, step: Step, pair: Token)
    requires StoreOk(tok, newest, unsaved, store, log)
    requires step.Reply? && step.reply.Some? ==>
      unsaved == [] && unsaved' == [step.reply.value] && tok.Some? &&
      exists rt :: log' == log + [Received(rt, step.reply.value)]
    requires step.Save? ==>
      unsaved == [pair] && unsaved' == [] && tok.Some? && newest == newest' == Some(pair) &&
      log' == log + [Saved(pair, step.ok)] &&
      (step.ok ==> store' == Some(pair))
    requires !step.Save? && !(step.Reply? && step.reply.Some?) ==>
      && unsaved' == unsaved && store' == store
      && (log' == log || exists e: Event :: !e.Received? && !e.Saved? && log' == log + [e])
      && newest' == (if step.Enter? && tok.None? && !step.loadFails then store else newest)
    requires tok'.None? ==> tok.None?
    requires tok.None? && tok'.Some? ==> step.Enter? && !step.loadFails
    ensures StoreOk(tok', newest', unsaved', store', log')
  {
    if log' != log {
      assert log' == log + [log'[|log|]];
      LedgerAppend(log, log'[|log|]);
    }
  }

  predicate GivesToken(e: Event) {
    e.Loaded? && e.load.LoadOk? && e.load.tok.Some?
  }

  /** A load happens only while no token is held, so none follows one that gave a token. */
  predicate LoadInv(s: State) {
    && (s.tok.None? ==> forall i :: 0 <= i < |s.log| ==> !GivesToken(s.log[i]))
    && (forall i, j :: 0 <= i < j < |s.log| && GivesToken(s.log[i]) ==> !s.log[j].Loaded?)
  }

  lemma LoadStep(s: State, step: Step)
    requires FlightInv(s) && LoadInv(s) && Enabled(s, step)
    ensures LoadInv(Apply(s, step))
  {
  }

  // ---------- results ----------

  /** `done` is closed once per call. */
  predicate ClosedInv(s: State) {
    && (forall c :: 0 <= c < |s.calls| ==> (s.calls[c].done <==> Closed(c) in s.log))
    && (forall i :: 0 <= i < |s.log| && s.log[i].Closed? ==> s.log[i].call < |s.calls|)
    && (forall i, j :: 0 <= i < j < |s.log| && s.log[i].Closed? && s.log[j].Closed? ==> s.log[i] != s.log[j])
  }

  /** Whoever returned through `done` did so after it was closed, with the call's result. */
  predicate ReturnedInv(s: State) {
    forall i :: 0 <= i < |s.log| && s.log[i].Returned? ==>
      var c := s.log[i].call;
      && Closed(c) in s.log[..i]
      && c < |s.calls| && s.calls[c].done && s.log[i].result == s.calls[c].tok && s.log[i].err == s.calls[c].err
  }

  /** What a step may do to the calls and to what observers of them see. */
  lemma CallsEffect(s: State, step: Step)
    requires FlightInv(s) && Enabled(s, step)
    ensures var s' := Apply(s, step);
      && |s.calls| <= |s'.calls| <= |s.calls| + 1
      && (|s'.calls| == |s.calls| + 1 ==> !s'.calls[|s.calls|].done)
      && s.log <= s'.log && |s'.log| <= |s.log| + 1
      && (forall c :: 0 <= c < |s.calls| && s.calls[c].done ==> s'.calls[c] == s.calls[c])
      && (forall c :: 0 <= c < |s.calls| && !s.calls[c].done ==>
            (s'.calls[c].done <==> step.CloseDone? && c == s.threads[step.tid].call))
      && (step.CloseDone? ==>
            step.tid in s.threads && s.threads[step.tid].call < |s.calls| &&
            s'.log == s.log + [Closed(s.threads[step.tid].call)] && !s.calls[s.threads[step.tid].call].done)
      && (!step.CloseDone? ==> forall i :: |s.log| <= i < |s'.log| ==> !s'.log[i].Closed?)
      && (forall i :: |s.log| <= i < |s'.log| && s'.log[i].Returned? ==>
            var c := s'.log[i].call;
            c < |s.calls| && s.calls[c].done && s'.log[i].result == s.calls[c].tok && s'.log[i].err == s.calls[c].err)
  {
    if step.tid in s.threads {
      assert ThreadOk(s, step.tid);
    }
  }

  lemma ClosedStep(s: State, step: Step)
    requires FlightInv(s) && ClosedInv(s) && Enabled(s, step)
    ensures ClosedInv(Apply(s, step))
  {
    hide FlightInv, Apply, Enabled;
    CallsEffect(s, step);
    var s' := Apply(s, step);
    forall c | 0 <= c < |s'.calls|
      ensures s'.calls[c].done <==> Closed(c) in s'.log
    {
      assert Closed(c) in s.log ==> c < |s.calls|;
      assert Closed(c) in s'.log <==> Closed(c) in s.log || Closed(c) in s'.log[|s.log|..];
    }
  }

  lemma ReturnedStep(s: State, step: Step)
    requires FlightInv(s) && ClosedInv(s) && ReturnedInv(s) && Enabled(s, step)
    ensures ReturnedInv(Apply(s, step))
  {
    hide FlightInv, Apply, Enabled;
    CallsEffect(s, step);
    var s' := Apply(s, step);
    forall i | 0 <= i < |s.log|
      ensures s'.log[..i] == s.log[..i]
    {
    }
    if |s'.log| > |s.log| {
      var e := s'.log[|s.log|];
      assert s'.log[..|s.log|] == s.log;
      assert e.Returned? ==> Closed(e.call) in s.log;
    }
  }

  /** A token a leader is about to share, or has shared, is one that was received and saved. */
  predicate OriginInv(s: State) {
    && (forall t :: t in s.threads && (s.threads[t].Releasing? || s.threads[t].Writing?) && s.threads[t].err.None? ==>
          s.threads[t].refreshed.Some? && Saved(s.threads[t].refreshed.value, true) in s.log)
    && (forall c :: 0 <= c < |s.calls| && s.calls[c].tok.Some? ==> Saved(s.calls[c].tok.value, true) in s.log)
    && (forall t :: t in s.threads && (s.threads[t].Releasing? || s.threads[t].Writing?) ==>
          Explained(s.threads[t].err, s.log))
    && (forall c :: 0 <= c < |s.calls| ==> Explained(s.calls[c].err, s.log))
  }

  /** An error that is shared is the endpoint's or the store's: it did fail, and in that way. */
  predicate Explained(err: Option<TokenError>, log: seq<Event>) {
    && (err.Some? ==> err == Some(RefreshError) || err == Some(SaveError))
    && (err == Some(RefreshError) ==> exists i :: 0 <= i < |log| && log[i].Failed?)
    && (err == Some(SaveError) ==> exists i :: 0 <= i < |log| && log[i].Saved? && !log[i].ok)
  }

  lemma StillExplained(err: Option<TokenError>, log: seq<Event>, log': seq<Event>)
    requires Explained(err, log) && log <= log'
    ensures Explained(err, log')
  {
    assert forall i :: 0 <= i < |log| ==> log[i] == log'[i];
  }

  lemma OriginStep(s: State, step: Step)
    requires FlightInv(s) && OriginInv(s) && Enabled(s, step)
    ensures OriginInv(Apply(s, step))
  {
    hide FlightInv, Explained;
    InFlight(s, step.tid);
    var s' := Apply(s, step);
    assert s.log <= s'.log;
    if step.Save? {
      assert s'.log[|s.log|] == Saved(s.threads[step.tid].pair, step.ok);
    }
    forall err | Explained(err, s.log)
      ensures Explained(err, s'.log)
    {
      StillExplained(err, s.log, s'.log);
    }
    NoErrorExplained(s'.log);
    if step.Save? || step.Reply? {
      NewErrorExplained(s, step);
    }
  }

  lemma NewErrorExplained(s: State, step: Step)
    requires Enabled(s, step) && (step.Save? || step.Reply?)
    ensures var s' := Apply(s, step);
      s'.threads[step.tid].Releasing? ==> Explained(s'.threads[step.tid].err, s'.log)
  {
    var s' := Apply(s, step);
    assert s'.log[|s.log|] == s'.log[|s'.log| - 1];
  }

  lemma NoErrorExplained(log: seq<Event>)
    ensures Explained(None, log)
  {
  }

  // ---------- whole runs ----------

  predicate Inv(s: State) {
    FlightInv(s) && RotationInv(s) && StoreInv(s) && LoadInv(s) && ClosedInv(s) && ReturnedInv(s) && OriginInv(s)
  }

  lemma {:induction false} InvRun(s: State, run: seq<Step>)
    requires Inv(s) && Valid(s, run)
    ensures Inv(After(s, run))
    decreases |run|
  {
    if run != [] {
      FlightStep(s, run[0]);
      RotationStep(s, run[0]);
      StoreStep(s, run[0]);
      LoadStep(s, run[0]);
      ClosedStep(s, run[0]);
      ReturnedStep(s, run[0]);
      OriginStep(s, run[0]);
      InvRun(Apply(s, run[0]), run[1..]);
    }
  }

  /** `inflight` is set exactly while one caller is between claiming it and releasing it. */
  lemma SingleFlight(stored: Option<Token>, run: seq<Step>)
    requires Valid(Init(stored), run)
    ensures var s := After(Init(stored), run);
      && (s.inflight.Some? <==> exists t :: t in s.threads && HoldsSlot(s.threads[t]))
      && (forall t, u ::
            t in s.threads && u in s.threads && HoldsSlot(s.threads[t]) && HoldsSlot(s.threads[u]) ==> t == u)
  {
    InvRun(Init(stored), run);
    var s := After(Init(stored), run);
    forall t | t in s.threads && HoldsSlot(s.threads[t])
      ensures s.inflight.Some? && t == s.calls[s.inflight.value].owner
    {
      assert ThreadOk(s, t);
    }
  }

  /** Each `done` is closed at most once; every return through it comes after, and all of
      them carry one pair with exactly one of token and error set, the token being one the
      endpoint issued and the store took. */
  lemma SharedOutcome(stored: Option<Token>, run: seq<Step>)
    requires Valid(Init(stored), run)
    ensures var log := After(Init(stored), run).log;
      && (forall i, j :: 0 <= i < j < |log| && log[i].Closed? && log[j].Closed? ==> log[i].call != log[j].call)
      && (forall i :: 0 <= i < |log| && log[i].Returned? ==>
            Closed(log[i].call) in log[..i] && ExactlyOne(log[i].result, log[i].err) &&
            (log[i].result.Some? ==> Saved(log[i].result.value, true) in log) && Explained(log[i].err, log))
      && (forall i, j ::
            (0 <= i < |log| && 0 <= j < |log| && log[i].Returned? && log[j].Returned? &&
             log[i].call == log[j].call) ==>
              log[i].result == log[j].result && log[i].err == log[j].err)
  {
    InvRun(Init(stored), run);
    var s := After(Init(stored), run);
    forall i | 0 <= i < |s.log| && s.log[i].Returned?
      ensures ExactlyOne(s.log[i].result, s.log[i].err)
    {
      assert CallOk(s, s.log[i].call);
    }
  }

  /** How many steps its leader still has to take before a call's `done` is closed. */
  function Remaining(pc: Pc): nat {
    match pc
    case Leading(_, _) => 5
    case Awaiting(_, _) => 4
    case Saving(_, _) => 4
    case Releasing(_, _, _) => 3
    case Writing(_, _, _) => 2
    case Closing(_) => 1
    case _ => 0
  }

  /** `more` is a run of the leader of call c alone, after which its `done` is closed. */
  ghost predicate Closes(s: State, c: CallId, more: seq<Step>)
    requires FlightInv(s) && c < |s.calls|
  {
    var leader := s.calls[c].owner;
    && leader in s.threads && |more| == Remaining(s.threads[leader])
    && (forall k :: 0 <= k < |more| ==> more[k].tid == leader)
    && Valid(s, more)
    && c < |After(s, more).calls| && After(s, more).calls[c].done
    && (forall t :: t in s.threads && t != leader ==>
          t in After(s, more).threads && After(s, more).threads[t] == s.threads[t])
  }

  /** A step by which the caller at `pc` gets on, even when the endpoint fails. */
  function NextOf(t: Tid, pc: Pc): Step {
    match pc
    case Leading(_, _) => Send(t)
    case Awaiting(_, _) => Reply(t, None)
    case Saving(_, _) => Save(t, true, false)
    case Releasing(_, _, _) => Release(t)
    case Writing(_, _, _) => Write(t)
    case _ => CloseDone(t)
  }

  lemma LeaderMoves(s: State, c: CallId)
    requires FlightInv(s) && c < |s.calls| && !s.calls[c].done
    ensures var t := s.calls[c].owner;
      t in s.threads && s.threads[t].call == c && !s.threads[t].Returning? && !s.threads[t].Waiting? &&
      var step := NextOf(t, s.threads[t]);
      Enabled(s, step) &&
      var s' := Apply(s, step);
      && t in s'.threads && c < |s'.calls| && s'.calls[c].owner == t
      && s'.calls[c].done == s.threads[t].Closing?
      && Remaining(s.threads[t]) == Remaining(s'.threads[t]) + 1
      && (forall u :: u in s.threads && u != t ==> u in s'.threads && s'.threads[u] == s.threads[u])
  {
    assert CallOk(s, c);
    hide FlightInv, CallOk, SlotOk;
    InFlight(s, s.calls[c].owner);
  }

  /** The leader can close its call's `done` by its own steps alone, even when the endpoint fails. */
  lemma {:induction false} LeaderCanClose(s: State, c: CallId)
    requires FlightInv(s) && c < |s.calls| && !s.calls[c].done
    ensures exists more :: Closes(s, c, more)
    decreases if s.calls[c].owner in s.threads then Remaining(s.threads[s.calls[c].owner]) else 0
  {
    LeaderMoves(s, c);
    var t := s.calls[c].owner;
    var step := NextOf(t, s.threads[t]);
    var s' := Apply(s, step);
    FlightStep(s, step);
    hide FlightInv, Apply, Enabled;
    var rest: seq<Step> := [];
    if s.threads[t].Closing? {
      assert Valid(s', rest) && After(s', rest) == s';
      assert Closes(s', c, rest);
    } else {
      LeaderCanClose(s', c);
      rest :| Closes(s', c, rest);
    }
    ClosesOneMore(s, c, step, rest);
  }

  lemma ClosesOneMore(s: State, c: CallId, step: Step, rest: seq<Step>)
    requires FlightInv(s) && c < |s.calls| && s.calls[c].owner in s.threads && Enabled(s, step) && !step.Enter?
    requires step.tid == s.calls[c].owner && FlightInv(Apply(s, step)) && c < |Apply(s, step).calls|
    requires Apply(s, step).calls[c].owner == step.tid && step.tid in Apply(s, step).threads
    requires Remaining(s.threads[step.tid]) == Remaining(Apply(s, step).threads[step.tid]) + 1
    requires Closes(Apply(s, step), c, rest)
    ensures Closes(s, c, [step] + rest)
  {
    hide FlightInv;
    assert ([step] + rest)[1..] == rest;
    assert After(s, [step] + rest) == After(Apply(s, step), rest);
  }

  /** No waiter is left on a call nobody will close: at most five steps of that call's
      leader, with nobody else moving, let it return. */
  lemma NoStrandedWaiter(stored: Option<Token>, run: seq<Step>, t: Tid)
    requires Valid(Init(stored), run)
    requires var s := After(Init(stored), run); t in s.threads && s.threads[t].Waiting?
    ensures var s := After(Init(stored), run);
      exists more: seq<Step> :: Valid(s, more) && |more| <= 5 && Enabled(After(s, more), Return(t))
        && forall k :: 0 <= k < |more| ==> more[k].tid != t && more[k].tid in s.threads && Leads(s.threads[more[k].tid])
  {
    InvRun(Init(stored), run);
    var s := After(Init(stored), run);
    assert ThreadOk(s, t);
    var c := s.threads[t].call;
    assert CallOk(s, c);
    if s.calls[c].done {
      assert Valid(s, []) && Enabled(After(s, []), Return(t));
    } else {
      LeaderCanClose(s, c);
      var more :| Closes(s, c, more);
      assert Enabled(After(s, more), Return(t));
    }
  }

  /** Once the endpoint's answer to a refresh token has been received, that token is never
      sent again, whether or not saving the answer failed. */
  lemma RotationSafety(stored: Option<Token>, run: seq<Step>)
    requires Valid(Init(stored), run)
    ensures var log := After(Init(stored), run).log;
      forall i, j :: 0 <= i < j < |log| && log[i].Received? && log[j].Sent? ==>
        log[i].refreshToken != log[j].refreshToken
  {
    InvRun(Init(stored), run);
  }

  /** Saves follow receipts, in order and once each, at most one behind; loading stops once
      a token is held; and with no refresh in flight and no failed save outstanding, the
      store and the memory agree. */
  lemma StoreDiscipline(stored: Option<Token>, run: seq<Step>)
    requires Valid(Init(stored), run)
    ensures var s := After(Init(stored), run);
      && Saves(s.log) <= Receipts(s.log) && |Receipts(s.log)| <= |Saves(s.log)| + 1
      && (s.inflight.None? ==> Saves(s.log) == Receipts(s.log))
      && (s.inflight.None? && s.tok.Some? && LastSaveOk(s.log) ==> s.store == s.tok)
      && (forall i, j :: 0 <= i < j < |s.log| && GivesToken(s.log[i]) ==> !s.log[j].Loaded?)
  {
    InvRun(Init(stored), run);
  }
}
