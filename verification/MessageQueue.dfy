/** The bounded queue of streaming/stream.go. One goroutine publishes: it decodes a payload
    and, for a message, runs three non-blocking channel operations one after the other. The
    consumer may take from the channel before, between and after them. */
module MessageQueue {
  type Message = nat

  /** What arrives from the broker: an echo, a payload that does not decode, or a message. */
  datatype Payload = Echo | Malformed | Decoded(msg: Message)

  /** Where the publishing goroutine stands in `enqueue`. */
  datatype Pc = Idle | TrySend(msg: Message) | Evict(msg: Message) | SendAgain(msg: Message)

  /** How a message left the queue. */
  datatype Exit = Delivered(msg: Message) | Evicted(msg: Message)

  /** `queue` is the channel, oldest first. The rest is what an observer has seen: payloads
      published, messages passed to `enqueue`, the ways messages left the queue and those
      given up by the last send, all in order. */
  datatype State = State(
    capacity: nat, queue: seq<Message>, pc: Pc, dropped: nat,
    published: seq<Payload>, exits: seq<Exit>, lost: seq<Message>)

  datatype Step = Publish(payload: Payload) | Producer | Consume

  function Init(capacity: nat): State {
    State(capacity, [], Idle, 0, [], [], [])
  }

  predicate Enabled(s: State, step: Step) {
    match step
    case Publish(_) => s.pc.Idle?
    case Producer => !s.pc.Idle?
    case Consume => s.queue != []
  }

  function Apply(s: State, step: Step): State
    requires Enabled(s, step)
  {
    match step
    case Publish(payload) =>
      var s1 := s.(published := s.published + [payload]);
      (match payload
       case Echo => s1
       case Malformed => s1.(dropped := s.dropped + 1)
       case Decoded(msg) => s1.(pc := TrySend(msg)))
    case Producer =>
      (match s.pc
       case TrySend(msg) =>
         if |s.queue| < s.capacity then s.(queue := s.queue + [msg], pc := Idle) else s.(pc := Evict(msg))
       case Evict(msg) =>
         if s.queue != [] then
           s.(queue := s.queue[1..], dropped := s.dropped + 1, exits := s.exits + [Evicted(s.queue[0])],
              pc := SendAgain(msg))
         else s.(pc := SendAgain(msg))
       case SendAgain(msg) =>
         if |s.queue| < s.capacity then s.(queue := s.queue + [msg], pc := Idle)
         else s.(lost := s.lost + [msg], pc := Idle)
       case Idle => s)
    case Consume => s.(queue := s.queue[1..], exits := s.exits + [Delivered(s.queue[0])])
  }

  predicate Valid(s: State, run: seq<Step>)
    decreases |run|
  {
    run == [] || (Enabled(s, run[0]) && Valid(Apply(s, run[0]), run[1..]))
  }

  function After(s: State, run: seq<Step>): State
    requires Valid(s, run)
    decreases |run|
  {
    if run == [] then s else After(Apply(s, run[0]), run[1..])
  }

  // ---------- what the observer's records add up to ----------

  function Messages(published: seq<Payload>): seq<Message> {
    if published == [] then []
    else
      var rest := Messages(published[..|published| - 1]);
      match published[|published| - 1]
      case Decoded(msg) => rest + [msg]
      case _ => rest
  }

  function Echoes(published: seq<Payload>): nat {
    if published == [] then 0
    else Echoes(published[..|published| - 1]) + (if published[|published| - 1].Echo? then 1 else 0)
  }

  function DecodeFailures(published: seq<Payload>): nat {
    if published == [] then 0
    else DecodeFailures(published[..|published| - 1]) + (if published[|published| - 1].Malformed? then 1 else 0)
  }

  function Left(exits: seq<Exit>): seq<Message> {
    if exits == [] then [] else Left(exits[..|exits| - 1]) + [exits[|exits| - 1].msg]
  }

  function Deliveries(exits: seq<Exit>): seq<Message> {
    if exits == [] then []
    else
      var rest := Deliveries(exits[..|exits| - 1]);
      if exits[|exits| - 1].Delivered? then rest + [exits[|exits| - 1].msg] else rest
  }

  function Evictions(exits: seq<Exit>): nat {
    if exits == [] then 0 else Evictions(exits[..|exits| - 1]) + (if exits[|exits| - 1].Evicted? then 1 else 0)
  }

  /** The message in hand, if the producer is in `enqueue`. */
  function InHand(pc: Pc): seq<Message> {
    if pc.Idle? then [] else [pc.msg]
  }

  predicate Inv(s: State) {
    && s.capacity >= 1 && |s.queue| <= s.capacity
    // after the eviction there is room, whatever the consumer has done meanwhile
    && (s.pc.SendAgain? ==> |s.queue| < s.capacity)
    && s.lost == []
    // every message is, in order, gone, queued or in hand
    && Messages(s.published) == Left(s.exits) + s.queue + InHand(s.pc)
    && s.dropped == DecodeFailures(s.published) + Evictions(s.exits)
  }

  lemma ExitOneMore(exits: seq<Exit>, e: Exit)
    ensures Left(exits + [e]) == Left(exits) + [e.msg]
    ensures Deliveries(exits + [e]) == if e.Delivered? then Deliveries(exits) + [e.msg] else Deliveries(exits)
    ensures Evictions(exits + [e]) == Evictions(exits) + (if e.Evicted? then 1 else 0)
  {
    assert (exits + [e])[..|exits|] == exits;
  }

  lemma PublishOneMore(published: seq<Payload>, payload: Payload)
    ensures Messages(published + [payload]) ==
      if payload.Decoded? then Messages(published) + [payload.msg] else Messages(published)
    ensures DecodeFailures(published + [payload]) == DecodeFailures(published) + (if payload.Malformed? then 1 else 0)
  {
    assert (published + [payload])[..|published|] == published;
  }

  lemma OutStep(s: State, step: Step)
    requires Inv(s) && Enabled(s, step) && (step.Consume? || (step.Producer? && s.pc.Evict?))
    ensures Inv(Apply(s, step))
  {
    hide Messages, Left, Evictions, DecodeFailures;
    if s.queue != [] {
      FirstLeaves(s.exits, s.queue, if step.Consume? then Delivered(s.queue[0]) else Evicted(s.queue[0]));
    }
  }

  lemma FirstLeaves(exits: seq<Exit>, queue: seq<Message>, e: Exit)
    requires queue != [] && e.msg == queue[0]
    ensures Left(exits) + queue == Left(exits + [e]) + queue[1..]
    ensures Evictions(exits + [e]) == Evictions(exits) + (if e.Evicted? then 1 else 0)
  {
    ExitOneMore(exits, e);
    assert queue == [queue[0]] + queue[1..];
  }

  lemma InStep(s: State, step: Step)
    requires Inv(s) && Enabled(s, step) && (step.Publish? || (step.Producer? && !s.pc.Evict?))
    ensures Inv(Apply(s, step))
  {
    if step.Publish? {
      PublishOneMore(s.published, step.payload);
    }
  }

  lemma InvStep(s: State, step: Step)
    requires Inv(s) && Enabled(s, step)
    ensures Inv(Apply(s, step)) && Apply(s, step).capacity == s.capacity
  {
    if step.Consume? || (step.Producer? && s.pc.Evict?) {
      OutStep(s, step);
    } else {
      InStep(s, step);
    }
  }

  lemma {:induction false} InvRun(s: State, run: seq<Step>)
    requires Inv(s) && Valid(s, run)
    ensures Inv(After(s, run)) && After(s, run).capacity == s.capacity
    decreases |run|
  {
    if run != [] {
      InvStep(s, run[0]);
      InvRun(Apply(s, run[0]), run[1..]);
    }
  }

  /** With room for one message, the last of the three operations always succeeds, so no
      message is given up silently. */
  lemma LastSendSucceeds(capacity: nat, run: seq<Step>)
    requires capacity >= 1 && Valid(Init(capacity), run)
    ensures After(Init(capacity), run).lost == []
  {
    InvRun(Init(capacity), run);
  }

  predicate IsSubsequence(a: seq<Message>, b: seq<Message>)
    decreases |b|
  {
    a == [] || (b != [] && (
      (a[|a| - 1] == b[|b| - 1] && IsSubsequence(a[..|a| - 1], b[..|b| - 1])) || IsSubsequence(a, b[..|b| - 1])))
  }

  lemma {:induction false} DeliveredInOrder(exits: seq<Exit>)
    ensures IsSubsequence(Deliveries(exits), Left(exits))
    ensures |Left(exits)| == |exits| == |Deliveries(exits)| + Evictions(exits)
    decreases |exits|
  {
    if exits != [] {
      DeliveredInOrder(exits[..|exits| - 1]);
      assert Left(exits)[..|exits| - 1] == Left(exits[..|exits| - 1]);
      if exits[|exits| - 1].Delivered? {
        assert Deliveries(exits)[..|Deliveries(exits)| - 1] == Deliveries(exits[..|exits| - 1]);
      }
    }
  }

  /** The queue holds the newest of the messages enqueued, without a gap; what left it left
      oldest first, and what was delivered of that kept its order. */
  lemma QueueIsSuffix(capacity: nat, run: seq<Step>)
    requires capacity >= 1 && Valid(Init(capacity), run)
    ensures var s := After(Init(capacity), run);
      && Messages(s.published) == Left(s.exits) + s.queue + InHand(s.pc)
      && IsSubsequence(Deliveries(s.exits), Left(s.exits))
      && |s.queue| <= capacity
  {
    InvRun(Init(capacity), run);
    DeliveredInOrder(After(Init(capacity), run).exits);
  }

  lemma {:induction false} PublishedIsEach(published: seq<Payload>)
    ensures |published| == Echoes(published) + DecodeFailures(published) + |Messages(published)|
    decreases |published|
  {
    if published != [] {
      PublishedIsEach(published[..|published| - 1]);
    }
  }

  lemma {:induction false} PublishedKinds(published: seq<Payload>)
    ensures Echoes(published) == multiset(published)[Echo]
    ensures DecodeFailures(published) == multiset(published)[Malformed]
    decreases |published|
  {
    if published != [] {
      var n := |published| - 1;
      PublishedKinds(published[..n]);
      assert published == published[..n] + [published[n]];
    }
  }

  /** Every payload is accounted for, and `Dropped` counts what the consumer misses. */
  lemma Conservation(capacity: nat, run: seq<Step>)
    requires capacity >= 1 && Valid(Init(capacity), run)
    ensures var s := After(Init(capacity), run);
      && |s.published| == Echoes(s.published) + DecodeFailures(s.published) + Evictions(s.exits)
                          + |Deliveries(s.exits)| + |s.queue| + |InHand(s.pc)|
      && s.dropped == DecodeFailures(s.published) + Evictions(s.exits)
      && Echoes(s.published) == multiset(s.published)[Echo]
      && DecodeFailures(s.published) == multiset(s.published)[Malformed]
  {
    InvRun(Init(capacity), run);
    var s := After(Init(capacity), run);
    PublishedKinds(s.published);
    DeliveredInOrder(s.exits);
    PublishedIsEach(s.published);
  }

  // ---------- the channel and counter as an object ----------

  lemma {:induction false} AfterThen(s: State, run: seq<Step>, step: Step)
    requires Valid(s, run) && Enabled(After(s, run), step)
    ensures Valid(s, run + [step]) && After(s, run + [step]) == Apply(After(s, run), step)
    decreases |run|
  {
    if run == [] {
      assert (run + [step])[1..] == [];
    } else {
      assert (run + [step])[1..] == run[1..] + [step];
      AfterThen(Apply(s, run[0]), run[1..], step);
    }
  }

  class Channel {
    const capacity: nat
    var queue: seq<Message>
    var dropped: nat

    constructor (capacity: nat)
      ensures this.capacity == capacity && Represents(Init(capacity))
    {
      this.capacity, queue, dropped := capacity, [], 0;
    }

    ghost predicate Represents(s: State)
      reads this
    {
      capacity == s.capacity && queue == s.queue && dropped == s.dropped
    }

    /** The consumer takes up to n messages while the producer is between two operations. */
    method Consumer(n: nat, ghost s: State, ghost run: seq<Step>) returns (ghost run': seq<Step>)
      requires Valid(s, run) && Represents(After(s, run))
      modifies this`queue
      ensures run <= run' && Valid(s, run') && Represents(After(s, run')) && After(s, run').pc == After(s, run).pc
      ensures forall i :: |run| <= i < |run'| ==> run'[i].Consume?
      ensures queue == Taken(old(queue), n)
    {
      run' := run;
      var k := 0;
      while k < n && |queue| > 0
        invariant run <= run' && Valid(s, run') && Represents(After(s, run')) && After(s, run').pc == After(s, run).pc
        invariant forall i :: |run| <= i < |run'| ==> run'[i].Consume?
        invariant k <= n && k <= |old(queue)| && queue == old(queue)[k..]
        decreases n - k
      {
        AfterThen(s, run', Consume);
        queue := queue[1..];
        run' := run' + [Consume];
        k := k + 1;
      }
    }

    /** Adds a message. With room it goes behind the others. In a full channel the oldest message
        goes first, if the consumer has left one; `takes1` and `takes2` are what the consumer
        would take before the second and the third operation. */
    method Enqueue(msg: Message, takes1: nat, takes2: nat, ghost s: State) returns (ghost run: seq<Step>)
      requires Represents(s) && Inv(s) && s.pc == TrySend(msg)
      modifies this
      ensures Valid(s, run) && Represents(After(s, run)) && After(s, run).pc.Idle?
      ensures forall i :: 0 <= i < |run| ==> !run[i].Publish?
      ensures |old(queue)| < capacity ==> queue == old(queue) + [msg] && dropped == old(dropped)
      ensures |old(queue)| == capacity ==>
        var left := Taken(old(queue), takes1);
        && queue == Taken(Taken(left, 1), takes2) + [msg]
        && dropped == old(dropped) + (if left == [] then 0 else 1)
      ensures |old(queue)| == capacity && takes1 == takes2 == 0 ==>
        queue == old(queue)[1..] + [msg] && dropped == old(dropped) + 1
    {
      AfterThen(s, [], Producer);
      if |queue| < capacity {
        queue := queue + [msg];
        run := [] + [Producer];
        return;
      }
      run := Consumer(takes1, s, [] + [Producer]);
      AfterThen(s, run, Producer);
      if |queue| > 0 {
        queue := queue[1..];
        dropped := dropped + 1;
      }
      run := Consumer(takes2, s, run + [Producer]);
      AfterThen(s, run, Producer);
      InvRun(s, run);
      if |queue| < capacity {
        queue := queue + [msg];
      } else {
        // the last operation's default branch
        assert false;
      }
      run := run + [Producer];
    }
  }

  /** What is left when up to n messages are taken from the front. */
  function Taken(queue: seq<Message>, n: nat): seq<Message> {
    if n <= |queue| then queue[n..] else []
  }

  // ---------- what is evicted, and when ----------

  /** In the states of the run the queue always has room. */
  predicate AlwaysRoom(s: State, run: seq<Step>)
    requires Valid(s, run)
    decreases |run|
  {
    |s.queue| < s.capacity && (run == [] || AlwaysRoom(Apply(s, run[0]), run[1..]))
  }

  /** A run whose queue never fills up evicts nothing. */
  lemma {:induction false} NothingEvicted(s: State, run: seq<Step>)
    requires Valid(s, run) && AlwaysRoom(s, run) && (s.pc.Idle? || s.pc.TrySend?)
    ensures Evictions(After(s, run).exits) == Evictions(s.exits)
    ensures After(s, run).pc.Idle? || After(s, run).pc.TrySend?
    decreases |run|
  {
    if run != [] {
      if run[0].Consume? {
        ExitOneMore(s.exits, Delivered(s.queue[0]));
      }
      NothingEvicted(Apply(s, run[0]), run[1..]);
    }
  }

  /** At step k of the run the producer found the queue full as it tried to send msg, and since
      then nothing but consuming has gone on. */
  predicate FoundFull(s: State, run: seq<Step>, k: nat, msg: Message)
    requires Valid(s, run)
  {
    && k < |run| && run[k].Producer? && (forall j :: k < j < |run| ==> run[j].Consume?)
    && Valid(s, run[..k]) && After(s, run[..k]).pc == TrySend(msg) && |After(s, run[..k]).queue| == s.capacity
  }

  /** Nothing is evicted for a message but after the queue was found full for it. */
  lemma {:induction false} EvictedWhenFull(capacity: nat, run: seq<Step>)
    requires capacity >= 1 && Valid(Init(capacity), run) && After(Init(capacity), run).pc.Evict?
    ensures exists k: nat :: FoundFull(Init(capacity), run, k, After(Init(capacity), run).pc.msg)
    decreases |run|
  {
    var s, n := Init(capacity), |run| - 1;
    assert run == run[..n] + [run[n]];
    ValidThen(s, run[..n], run[n]);
    AfterThen(s, run[..n], run[n]);
    InvRun(s, run[..n]);
    var msg := After(s, run).pc.msg;
    if run[n].Producer? {
      assert FoundFull(s, run, n, msg);
    } else {
      EvictedWhenFull(capacity, run[..n]);
      var k: nat :| FoundFull(s, run[..n], k, msg);
      assert run[..n][..k] == run[..k];
      assert FoundFull(s, run, k, msg);
    }
  }

  lemma {:induction false} ValidThen(s: State, run: seq<Step>, step: Step)
    requires Valid(s, run + [step])
    ensures Valid(s, run) && Enabled(After(s, run), step)
    decreases |run|
  {
    if run != [] {
      assert (run + [step])[1..] == run[1..] + [step];
      ValidThen(Apply(s, run[0]), run[1..], step);
    }
  }

  /** And an eviction is what the producer does when it has found the queue full: it takes the
      oldest message, and counts it. */
  lemma EvictionsAre(s: State, step: Step)
    requires Inv(s) && Enabled(s, step)
    ensures Evictions(Apply(s, step).exits) > Evictions(s.exits) ==>
      && step.Producer? && s.pc.Evict? && s.queue != []
      && Apply(s, step).exits == s.exits + [Evicted(s.queue[0])] && Apply(s, step).dropped == s.dropped + 1
  {
    if step.Consume? {
      ExitOneMore(s.exits, Delivered(s.queue[0]));
    }
  }
}
