/** Who opens and who closes the event stream's connections (events/client.go). One
    goroutine runs `Recv`, so it alone drops, dials and publishes; any number of others run
    `Close`; and the parent context may be cancelled at any time. Each stretch under
    `s.mu`, and each call on a connection, is one step. */
module StreamLifecycle {
  import opened Options

  type Tid = nat
  type ConnId = nat

  /** What the goroutines share: the published connection, whether the stream's context is
      cancelled, the connections open, and those on which `Close` was called, in order. */
  datatype Shared = Shared(conn: Option<ConnId>, cancelled: bool, open: set<ConnId>, closed: seq<ConnId>) {
    function CloseConn(c: ConnId): Shared {
      this.(open := open - {c}, closed := closed + [c])
    }

    /** The locked part of `dropConn` and of `Close`: close and forget the connection. */
    function Forget(): Shared {
      if conn.Some? then CloseConn(conn.value).(conn := None) else this
    }

    /** The locked part of `connect`: publish unless the stream was cancelled meanwhile. */
    function Publish(c: ConnId): Shared {
      if cancelled then this else this.(conn := Some(c))
    }
  }

  /** Where the goroutine in `Subscribe` or `Recv` stands. */
  datatype RecvPc =
    | Elsewhere
    | Dropped
    | Dialled(conn: ConnId)
    | Discarding(conn: ConnId)

  /** `closers` are the goroutines in `Close` that have cancelled but not yet taken the lock;
      `closeReturned` says that some `Close` has returned; `dialled` counts connections. */
  datatype State = State(shared: Shared, recv: RecvPc, closers: set<Tid>, closeReturned: bool, dialled: nat)

  /** `NoDial` is an attempt that makes no connection, or one given up before it is made. */
  datatype Step =
    | Drop
    | NoDial
    | Dial
    | ConnectFails
    | TryPublish
    | Discard
    | CloseCancels(tid: Tid)
    | CloseLocks(tid: Tid)
    | ParentCancels

  /** `Subscribe` starts a stream with no connection and goes straight to `connect`. */
  function Init(): State {
    State(Shared(None, false, {}, []), Dropped, {}, false, 0)
  }

  predicate Enabled(s: State, step: Step) {
    match step
    case Drop => s.recv.Elsewhere?
    case NoDial => s.recv.Dropped?
    case Dial => s.recv.Dropped?
    case ConnectFails => s.recv.Dialled?
    case TryPublish => s.recv.Dialled?
    case Discard => s.recv.Discarding?
    case CloseCancels(tid) => tid !in s.closers
    case CloseLocks(tid) => tid in s.closers
    case ParentCancels => true
  }

  function Apply(s: State, step: Step): State
    requires Enabled(s, step)
  {
    match step
    case Drop => s.(shared := s.shared.Forget(), recv := Dropped)
    case NoDial => s.(recv := Elsewhere)
    case Dial =>
      s.(shared := s.shared.(open := s.shared.open + {s.dialled}), recv := Dialled(s.dialled), dialled := s.dialled + 1)
    case ConnectFails => s.(shared := s.shared.CloseConn(s.recv.conn), recv := Elsewhere)
    case TryPublish =>
      s.(shared := s.shared.Publish(s.recv.conn),
         recv := if s.shared.cancelled then Discarding(s.recv.conn) else Elsewhere)
    case Discard => s.(shared := s.shared.CloseConn(s.recv.conn), recv := Elsewhere)
    case CloseCancels(tid) => s.(shared := s.shared.(cancelled := true), closers := s.closers + {tid})
    case CloseLocks(tid) => s.(shared := s.shared.Forget(), closers := s.closers - {tid}, closeReturned := true)
    case ParentCancels => s.(shared := s.shared.(cancelled := true))
  }

  predicate Valid(s: State, run: seq<Step>)
    decreases |run|
  {
    run == [] || (Enabled(s, run[0]) && Valid(Apply(s, run[0]), run[1..]))
  }

  function After(s: State, run: seq<Step>): State
    requires Valid(s, run)
    decreases |run|
  {
    if run == [] then s else After(Apply(s, run[0]), run[1..])
  }

  /** A dialled connection that `connect` has not finished with. */
  predicate Connecting(pc: RecvPc) {
    pc.Dialled? || pc.Discarding?
  }

  ghost predicate Inv(s: State) {
    var sh := s.shared;
    // exactly the published connection and the one in `connect` are open
    && (forall c :: c in sh.open <==> sh.conn == Some(c) || (Connecting(s.recv) && s.recv.conn == c))
    && (s.recv != Elsewhere ==> sh.conn.None?)
    // every connection dialled is either open or was closed, never both, and closed once
    && (forall c :: c in sh.open ==> c < s.dialled)
    && (forall c :: 0 <= c < s.dialled && c !in sh.open ==> c in sh.closed)
    && (forall i :: 0 <= i < |sh.closed| ==> sh.closed[i] < s.dialled && sh.closed[i] !in sh.open)
    && (forall i, j :: 0 <= i < j < |sh.closed| ==> sh.closed[i] != sh.closed[j])
    // once some `Close` is through, nothing is published again
    && (s.closers != {} || s.closeReturned || s.recv.Discarding? ==> sh.cancelled)
    && (s.closeReturned ==> sh.conn.None?)
  }

  lemma InvStep(s: State, step: Step)
    requires Inv(s) && Enabled(s, step)
    ensures Inv(Apply(s, step))
    ensures s.closeReturned ==> Apply(s, step).closeReturned
  {
    var s' := Apply(s, step);
    if |s'.shared.closed| > |s.shared.closed| {
      assert s'.shared.closed[|s.shared.closed|] in s'.shared.closed;
    }
  }

  lemma {:induction false} InvRun(s: State, run: seq<Step>)
    requires Inv(s) && Valid(s, run)
    ensures Inv(After(s, run))
    ensures s.closeReturned ==> After(s, run).closeReturned
    decreases |run|
  {
    if run != [] {
      InvStep(s, run[0]);
      InvRun(Apply(s, run[0]), run[1..]);
    }
  }

  // ---------- states that runs reach ----------

  ghost predicate Reached(s: State) {
    exists run :: Valid(Init(), run) && After(Init(), run) == s
  }

  lemma {:induction false} AfterThen(s: State, run: seq<Step>, step: Step)
    requires Valid(s, run) && Enabled(After(s, run), step)
    ensures Valid(s, run + [step]) && After(s, run + [step]) == Apply(After(s, run), step)
    decreases |run|
  {
    if run == [] {
      assert (run + [step])[1..] == [];
    } else {
      assert (run + [step])[1..] == run[1..] + [step];
      AfterThen(Apply(s, run[0]), run[1..], step);
    }
  }

  lemma ReachedThen(s: State, step: Step)
    requires Reached(s) && Enabled(s, step)
    ensures Reached(Apply(s, step))
  {
    var run :| Valid(Init(), run) && After(Init(), run) == s;
    AfterThen(Init(), run, step);
  }

  lemma ReachedInv(s: State)
    requires Reached(s)
    ensures Inv(s)
  {
    var run :| Valid(Init(), run) && After(Init(), run) == s;
    InvRun(Init(), run);
  }

  /** What the invariant says of the connections that are open. */
  lemma ReachedOpen(s: State)
    requires Reached(s)
    ensures s.shared.open ==
      (if s.shared.conn.Some? then {s.shared.conn.value} else {}) + (if Connecting(s.recv) then {s.recv.conn} else {})
    ensures s.recv != Elsewhere ==> s.shared.conn.None?
    ensures s.closeReturned ==> s.shared.conn.None? && s.shared.cancelled
  {
    ReachedInv(s);
  }

  lemma ReachedAtFirst()
    ensures Reached(Init())
  {
    assert Valid(Init(), []) && After(Init(), []) == Init();
  }

  lemma ClosedThen(closed: seq<ConnId>, c: ConnId)
    requires c !in closed
    ensures multiset(closed + [c])[c] == 1
  {
  }

  /** A `Close` by itself: it closes the published connection for the only time, and touches
      no other. */
  lemma CloseEffect(s: State, tid: Tid)
    requires Inv(s) && tid !in s.closers
    ensures Enabled(s, CloseCancels(tid)) && Enabled(Apply(s, CloseCancels(tid)), CloseLocks(tid))
    ensures var s' := Apply(Apply(s, CloseCancels(tid)), CloseLocks(tid));
      && s'.recv == s.recv && s'.closeReturned && s'.closers == s.closers && s'.dialled == s.dialled
      && s'.shared.cancelled && s'.shared.conn.None?
      && (forall c :: c in s'.shared.open <==> c in s.shared.open && s.shared.conn != Some(c))
      && (s.shared.conn.Some? ==> multiset(s'.shared.closed)[s.shared.conn.value] == 1)
      && s'.shared.open == if Connecting(s.recv) then {s.recv.conn} else {}
  {
    if s.shared.conn.Some? {
      assert s.shared.conn.value in s.shared.open;
      ClosedThen(s.shared.closed, s.shared.conn.value);
    }
  }

  // ---------- what holds in all of them ----------

  /** A connection is published only where none is, so no publishing overwrites one. */
  lemma PublishesOverNothing(run: seq<Step>)
    requires Valid(Init(), run) && Enabled(After(Init(), run), TryPublish)
    ensures After(Init(), run).shared.conn.None?
  {
    InvRun(Init(), run);
  }

  /** `Close` is called once on every connection that is no longer open, and on no other. */
  lemma ClosedOnce(run: seq<Step>)
    requires Valid(Init(), run)
    ensures var s := After(Init(), run);
      && (forall i, j :: 0 <= i < j < |s.shared.closed| ==> s.shared.closed[i] != s.shared.closed[j])
      && (forall c :: c in s.shared.closed <==> 0 <= c < s.dialled && c !in s.shared.open)
  {
    InvRun(Init(), run);
  }

  /** Once a `Close` has returned, then in that state and in every later one no connection
      is open except one that `connect` still has in hand. */
  lemma NoLeak(run: seq<Step>, more: seq<Step>)
    requires Valid(Init(), run) && After(Init(), run).closeReturned && Valid(After(Init(), run), more)
    ensures var s := After(After(Init(), run), more);
      s.shared.open == if Connecting(s.recv) then {s.recv.conn} else {}
  {
    InvRun(Init(), run);
    InvRun(After(Init(), run), more);
  }

  /** And `connect` cannot keep it: however the handshake ends, two of its own steps later
      the connection is closed. */
  lemma ConnectLetsGo(s: State, step: Step)
    requires Inv(s) && s.closeReturned && Connecting(s.recv)
    requires step in {ConnectFails, TryPublish, Discard} && Enabled(s, step)
    ensures var s' := Apply(s, step);
      s'.shared.open == {} || (s'.recv.Discarding? && Enabled(s', Discard) && Apply(s', Discard).shared.open == {})
  {
    InvStep(s, step);
    var s' := Apply(s, step);
    if s'.recv.Discarding? {
      InvStep(s', Discard);
    }
  }
}
