/** What the client remembers and what the server holds (streaming/client.go,
    streaming/stream.go). `subMu` makes each subscription operation, from its HTTP call to
    its update of the remembered set, exclude the others; but the broker may drop any of the
    server's subscriptions at any moment, also in the middle of one. A call that fails is
    taken to have had no effect on the server. */
module SubscriptionProtocol {
  import opened Options
  import opened Subscriptions
  import opened StreamingStream

  /** The options as the subscribe call's body carries them; no depth means the server's own. */
  datatype WireOptions = WireOptions(depth: Option<int>, snapshot: bool, overnight: bool)

  function ToWire(opts: Subscription): WireOptions {
    WireOptions(if opts.depth > 0 then Some(opts.depth) else None, opts.snapshot, opts.overnight)
  }

  type Server = map<SubKey, WireOptions>

  /** What the server holds says what was asked for: the flags as they were, and the depth, or
      none where it was left to the server. */
  predicate SaysAsked(held: WireOptions, asked: Subscription) {
    && held.snapshot == asked.snapshot && held.overnight == asked.overnight
    && (asked.depth > 0 ==> held.depth == Some(asked.depth)) && (asked.depth <= 0 ==> held.depth == None)
  }

  lemma WireSaysAsked(opts: Subscription)
    ensures SaysAsked(ToWire(opts), opts)
  {
  }

  /** Who holds `subMu`, and how far it has got. */
  datatype Phase =
    | Free
    | Subscribing(req: SubscribeRequest)
    | Unsubscribing(cancel: UnsubscribeRequest)
    | Replaying(left: seq<SubscribeRequest>)

  datatype State = State(subs: Subs, server: Server, phase: Phase)

  datatype Step =
    | CallSubscribe(req: SubscribeRequest, ok: bool)
    | RecordSubscribe
    | CallUnsubscribe(cancel: UnsubscribeRequest, ok: bool)
    | RecordUnsubscribe
    | StartReplay(reqs: seq<SubscribeRequest>)
    | ReplayNext(ok: bool)
    | EndReplay
    | Drop(lost: set<SubKey>)

  function Init(): State {
    State(map[], map[], Free)
  }

  ghost predicate Enabled(s: State, step: Step) {
    match step
    case CallSubscribe(req, _) => s.phase.Free? && req.symbols != [] && req.types != []
    case RecordSubscribe => s.phase.Subscribing?
    case CallUnsubscribe(cancel, _) => s.phase.Free? && (cancel.all || (cancel.symbols != [] && cancel.types != []))
    case RecordUnsubscribe => s.phase.Unsubscribing?
    // what StreamingStream.Stream.Resubscribe is proved to send
    case StartReplay(reqs) => s.phase.Free? && Replay(reqs) == s.subs && AskedRight(s.subs, reqs)
    case ReplayNext(_) => s.phase.Replaying? && s.phase.left != []
    case EndReplay => s.phase == Replaying([])
    case Drop(_) => true
  }

  /** The server takes the request's options for every key it covers. */
  function Accept(server: Server, req: SubscribeRequest): (server': Server)
    ensures forall k :: k in server' <==> k in server || Requests(req, k)
    ensures forall k :: k in server' ==> server'[k] == if Requests(req, k) then ToWire(req.opts) else server[k]
  {
    server +
    map sym, st | sym in req.symbols && st in req.types ::
      SubKey(sym, NormalCategory(req.category), st) := ToWire(req.opts)
  }

  function Forgotten(subs: Subs, req: UnsubscribeRequest): (subs': Subs)
    ensures Forgets(subs, req, subs')
  {
    map k | k in subs && !Cancels(req, k) :: subs[k]
  }

  ghost function Apply(s: State, step: Step): State
    requires Enabled(s, step)
  {
    match step
    case CallSubscribe(req, ok) => if ok then s.(server := Accept(s.server, req), phase := Subscribing(req)) else s
    case RecordSubscribe => s.(subs := Remembered(s.subs, s.phase.req), phase := Free)
    case CallUnsubscribe(cancel, ok) =>
      if !ok then s
      else
        s.(server := map k | k in s.server && !Cancels(cancel, k) :: s.server[k], phase := Unsubscribing(cancel))
    case RecordUnsubscribe => s.(subs := Forgotten(s.subs, s.phase.cancel), phase := Free)
    case StartReplay(reqs) => s.(phase := Replaying(reqs))
    case ReplayNext(ok) =>
      s.(server := if ok then Accept(s.server, s.phase.left[0]) else s.server, phase := Replaying(s.phase.left[1..]))
    case EndReplay => s.(phase := Free)
    case Drop(lost) => s.(server := s.server - lost)
  }

  ghost predicate Valid(s: State, run: seq<Step>)
    decreases |run|
  {
    run == [] || (Enabled(s, run[0]) && Valid(Apply(s, run[0]), run[1..]))
  }

  ghost function After(s: State, run: seq<Step>): State
    requires Valid(s, run)
    decreases |run|
  {
    if run == [] then s else After(Apply(s, run[0]), run[1..])
  }

  /** Everything the server holds is remembered, with the same options. */
  ghost predicate Contained(server: Server, subs: Subs) {
    forall k :: k in server ==> k in subs && server[k] == ToWire(subs[k])
  }

  ghost predicate Inv(s: State) {
    match s.phase
    case Free => Contained(s.server, s.subs)
    case Subscribing(req) => Contained(s.server, Remembered(s.subs, req))
    case Unsubscribing(cancel) => Contained(s.server, Forgotten(s.subs, cancel))
    case Replaying(left) => Contained(s.server, s.subs) && AskedRight(s.subs, left)
  }

  lemma InvStep(s: State, step: Step)
    requires Inv(s) && Enabled(s, step)
    ensures Inv(Apply(s, step))
  {
  }

  lemma {:induction false} InvRun(s: State, run: seq<Step>)
    requires Inv(s) && Valid(s, run)
    ensures Inv(After(s, run))
    decreases |run|
  {
    if run != [] {
      InvStep(s, run[0]);
      InvRun(Apply(s, run[0]), run[1..]);
    }
  }

  /** Whenever nobody is in the middle of a `Subscribe`, what the server holds is remembered. */
  lemma ServerWithinClient(run: seq<Step>)
    requires Valid(Init(), run) && !After(Init(), run).phase.Subscribing?
    ensures Contained(After(Init(), run).server, After(Init(), run).subs)
    ensures var s := After(Init(), run);
      forall k :: k in s.server ==> k in s.subs && SaysAsked(s.server[k], s.subs[k])
  {
    InvRun(Init(), run);
  }

  /** Some step of the run is a successful `Subscribe` that asks for k. */
  predicate SubscribesTo(run: seq<Step>, k: SubKey) {
    exists i :: 0 <= i < |run| && run[i].CallSubscribe? && run[i].ok && Requests(run[i].req, k)
  }

  lemma {:induction false} StaysAway(s: State, run: seq<Step>, k: SubKey)
    requires Inv(s) && Valid(s, run) && !SubscribesTo(run, k)
    requires k !in s.subs && k !in s.server && !(s.phase.Subscribing? && Requests(s.phase.req, k))
    ensures k !in After(s, run).subs && k !in After(s, run).server
    decreases |run|
  {
    if run != [] {
      InvStep(s, run[0]);
      assert !(run[0].CallSubscribe? && run[0].ok && Requests(run[0].req, k));
      assert forall i :: 0 <= i < |run| - 1 ==> run[1..][i] == run[i + 1];
      StaysAway(Apply(s, run[0]), run[1..], k);
    }
  }

  /** A key that was unsubscribed is not revived, not by a replay either, before a later
      successful `Subscribe` that asks for it. */
  lemma NotRevived(before: seq<Step>, run: seq<Step>, k: SubKey)
    requires Valid(Init(), before)
    requires var s := After(Init(), before); s.phase.Unsubscribing? && Cancels(s.phase.cancel, k)
    requires var s := After(Init(), before); Valid(s, [RecordUnsubscribe] + run) && !SubscribesTo(run, k)
    ensures var s := After(After(Init(), before), [RecordUnsubscribe] + run); k !in s.subs && k !in s.server
  {
    InvRun(Init(), before);
    var s := After(Init(), before);
    assert ([RecordUnsubscribe] + run)[1..] == run;
    InvStep(s, RecordUnsubscribe);
    StaysAway(Apply(s, RecordUnsubscribe), run, k);
  }

  /** A replay in which no call fails and nothing is dropped. */
  function CleanReplay(reqs: seq<SubscribeRequest>): seq<Step> {
    if reqs == [] then [EndReplay] else [ReplayNext(true)] + CleanReplay(reqs[1..])
  }

  lemma {:induction false} CleanReplayReaches(s: State, reqs: seq<SubscribeRequest>)
    requires Inv(s) && s.phase == Replaying(reqs)
    requires forall k :: k in s.subs ==> k in s.server || exists i :: 0 <= i < |reqs| && Requests(reqs[i], k)
    ensures Valid(s, CleanReplay(reqs))
    ensures var s' := After(s, CleanReplay(reqs));
      s'.subs == s.subs && s'.phase.Free? && s'.server == map k | k in s.subs :: ToWire(s.subs[k])
    decreases |reqs|
  {
    var run := CleanReplay(reqs);
    InvStep(s, run[0]);
    if reqs != [] {
      assert run[1..] == CleanReplay(reqs[1..]);
      var s' := Apply(s, run[0]);
      forall k | k in s.subs
        ensures k in s'.server || exists i :: 0 <= i < |reqs[1..]| && Requests(reqs[1..][i], k)
      {
        if k !in s.server {
          var i :| 0 <= i < |reqs| && Requests(reqs[i], k);
          assert i > 0 ==> reqs[1..][i - 1] == reqs[i];
        }
      }
      CleanReplayReaches(s', reqs[1..]);
    } else {
      assert run[1..] == [];
    }
  }

  lemma {:induction false} ReplayAsks(reqs: seq<SubscribeRequest>, k: SubKey)
    requires k in Replay(reqs)
    ensures exists i :: 0 <= i < |reqs| && Requests(reqs[i], k)
    decreases |reqs|
  {
    var n := |reqs| - 1;
    if !Requests(reqs[n], k) {
      ReplayAsks(reqs[..n], k);
      var i :| 0 <= i < n && Requests(reqs[..n][i], k);
      assert Requests(reqs[i], k);
    }
  }

  /** Whatever the drops took, a replay with no failed call and no further drop leaves the
      server with exactly what is remembered. */
  lemma ReplayRestores(run: seq<Step>, reqs: seq<SubscribeRequest>)
    requires Valid(Init(), run) && Enabled(After(Init(), run), StartReplay(reqs))
    ensures var s := Apply(After(Init(), run), StartReplay(reqs));
      && Valid(s, CleanReplay(reqs))
      && After(s, CleanReplay(reqs)).subs == s.subs
      && After(s, CleanReplay(reqs)).server == (map k | k in s.subs :: ToWire(s.subs[k]))
      && (forall k :: k in s.subs ==> SaysAsked(After(s, CleanReplay(reqs)).server[k], s.subs[k]))
  {
    InvRun(Init(), run);
    var s := After(Init(), run);
    InvStep(s, StartReplay(reqs));
    forall k | k in s.subs
      ensures exists i :: 0 <= i < |reqs| && Requests(reqs[i], k)
    {
      ReplayAsks(reqs, k);
    }
    CleanReplayReaches(Apply(s, StartReplay(reqs)), reqs);
  }
}
