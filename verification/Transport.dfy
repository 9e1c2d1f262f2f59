/** The retry loop of internal/transport/transport.go with the policy of
    internal/transport/retry.go. The network answers each attempt, and the caller's context
    each pause, as it likes. Durations are in nanoseconds. */
module Transport {
  import opened Options
  import opened Units
  import opened Strings

  datatype RetryPolicy = RetryPolicy(maxAttempts: int, baseDelay: int, maxDelay: int)

  datatype Body = Empty | Undecodable | Decodable

  /** What an attempt comes to: no response, or one with a status and a body. */
  datatype Reply = NoResponse | Response(status: int, body: Body)

  /** `encodes` says whether the body can be marshalled, `wantsResult` whether the caller
      asked for a decoded response. */
  datatype Request = Request(method_: Bytes, hasBody: bool, encodes: bool, hasForm: bool, wantsResult: bool)

  /** What `Do` returns; the numbers say which attempt it is about. */
  datatype Result =
    | BodyAndForm
    | EncodingFailed
    | NotAuthorized
    | PauseCancelled(attempt: nat)
    | TransportFailed(attempt: nat)
    | ApiError(attempt: nat)
    | MissingBody(attempt: nat)
    | BadBody(attempt: nat)
    | Done(attempt: nat)

  datatype Event = Authorize | Pause(delay: int) | Send(attempt: nat)

  predicate IsIdempotent(m: Bytes) {
    ToUpper(m) == "GET" || ToUpper(m) == "HEAD" || ToUpper(m) == "OPTIONS"
  }

  predicate RetryStatus(status: int, m: Bytes) {
    if !IsIdempotent(m) then false else status >= 500
  }

  predicate RetryTransport(m: Bytes) {
    IsIdempotent(m)
  }

  function Pow2(n: nat): (p: int)
    ensures p >= 1
  {
    if n == 0 then 1 else 2 * Pow2(n - 1)
  }

  /** The delay before the given attempt, counting from 1. */
  function Backoff(p: RetryPolicy, attempt: nat): int
    requires attempt >= 1
  {
    var d := Base(p) * Pow2(attempt - 1);
    if d > Cap(p) || d <= 0 then Cap(p) else d
  }

  function Base(p: RetryPolicy): int {
    if p.baseDelay <= 0 then 200 * MILLISECOND else p.baseDelay
  }

  function Cap(p: RetryPolicy): int {
    if p.maxDelay <= 0 then 2 * SECOND else p.maxDelay
  }

  /** The first delay is the base, each further one twice the one before, and none passes the
      cap; so they are positive and never shrink. */
  lemma BackoffGrows(p: RetryPolicy, attempt: nat)
    requires attempt >= 1
    ensures Backoff(p, 1) == if Base(p) <= Cap(p) then Base(p) else Cap(p)
    ensures Backoff(p, attempt + 1) == if 2 * Backoff(p, attempt) <= Cap(p) then 2 * Backoff(p, attempt) else Cap(p)
    ensures 0 < Backoff(p, attempt) <= Backoff(p, attempt + 1) <= Cap(p)
  {
    var q := Pow2(attempt - 1);
    assert Base(p) * Pow2(attempt) == 2 * (Base(p) * q);
    assert Base(p) * q >= Base(p);
    assert Pow2(0) == 1;
  }

  const INT64_MAX := 0x7fff_ffff_ffff_ffff

  /** The delay as it is computed. A base of up to 2^53 is exact as a float, and so is its product
      with a power of two; a product that 64 bits cannot hold is converted to `outside`. */
  function BackoffConverted(p: RetryPolicy, attempt: nat, outside: int): int
    requires attempt >= 1
  {
    var product := Base(p) * Pow2(attempt - 1);
    var d := if product <= INT64_MAX then product else outside;
    if d > Cap(p) || d <= 0 then Cap(p) else d
  }

  /** Whether the conversion saturates or wraps, the delay is the same. */
  lemma BackoffAsComputed(p: RetryPolicy, attempt: nat, outside: int)
    requires attempt >= 1 && Cap(p) <= INT64_MAX
    requires outside == INT64_MAX || outside <= 0
    ensures BackoffConverted(p, attempt, outside) == Backoff(p, attempt)
  {
    hide Pow2;
  }

  function Attempts(p: RetryPolicy): nat {
    if p.maxAttempts > 1 then p.maxAttempts else 1
  }

  predicate Succeeded(reply: Reply) {
    reply.Response? && 200 <= reply.status < 300
  }

  /** An answer that plausibly resolves by itself, to a request that is safe to replay. */
  predicate Retryable(req: Request, reply: Reply) {
    IsIdempotent(req.method_) && (reply.NoResponse? || (!Succeeded(reply) && reply.status >= 500))
  }

  /** What the caller is told when the given attempt is the last one. */
  function Verdict(req: Request, k: nat, reply: Reply): Result {
    if reply.NoResponse? then TransportFailed(k)
    else if !Succeeded(reply) then ApiError(k)
    else if !req.wantsResult then Done(k)
    else match reply.body
      case Empty => MissingBody(k)
      case Undecodable => BadBody(k)
      case Decodable => Done(k)
  }

  /** Sending the attempts 0 to k, each after the first behind its delay. */
  function Sends(p: RetryPolicy, k: nat): seq<Event> {
    if k == 0 then [Send(0)] else Sends(p, k - 1) + [Pause(Backoff(p, k)), Send(k)]
  }

  /** What `Do` returns and does, given the replies and which pauses are waited out: it stops
      with attempt `last`, the first that is not retried, or in the pause after it. */
  predicate Behaves(p: RetryPolicy, req: Request, authorized: Option<bool>, reply: nat -> Reply, waited: nat -> bool,
                    last: nat, result: Result, trace: seq<Event>) {
    if req.hasForm && req.hasBody then result == BodyAndForm && trace == []
    else if !req.hasForm && req.hasBody && !req.encodes then result == EncodingFailed && trace == []
    else
      var prefix := if authorized.Some? then [Authorize] else [];
      if authorized == Some(false) then result == NotAuthorized && trace == prefix
      else
        && last < Attempts(p)
        && (forall i :: 0 <= i < last ==> Retryable(req, reply(i)))
        && (forall i :: 1 <= i <= last ==> waited(i))
        && (if Retryable(req, reply(last)) && last + 1 < Attempts(p)
            then !waited(last + 1) && result == PauseCancelled(last) &&
                 trace == prefix + Sends(p, last) + [Pause(Backoff(p, last + 1))]
            else result == Verdict(req, last, reply(last)) && trace == prefix + Sends(p, last))
  }

  /** The description leaves no choice. */
  lemma BehavesDetermined(p: RetryPolicy, req: Request, authorized: Option<bool>, reply: nat -> Reply,
                          waited: nat -> bool, l1: nat, r1: Result, t1: seq<Event>, l2: nat, r2: Result,
                          t2: seq<Event>)
    requires Behaves(p, req, authorized, reply, waited, l1, r1, t1)
    requires Behaves(p, req, authorized, reply, waited, l2, r2, t2)
    ensures r1 == r2 && t1 == t2
  {
  }

  /** What becomes of one reply: None if there is to be another attempt. */
  method Judge(req: Request, attempt: nat, attempts: nat, r: Reply) returns (verdict: Option<Result>)
    requires attempt < attempts
    ensures verdict == if Retryable(req, r) && attempt + 1 < attempts then None else Some(Verdict(req, attempt, r))
  {
    if r.NoResponse? {
      if RetryTransport(req.method_) && attempt < attempts - 1 {
        return None;
      }
      return Some(TransportFailed(attempt));
    }
    if 200 <= r.status < 300 {
      if !req.wantsResult {
        return Some(Done(attempt));
      }
      if r.body.Empty? {
        return Some(MissingBody(attempt));
      }
      if r.body.Undecodable? {
        return Some(BadBody(attempt));
      }
      return Some(Done(attempt));
    }
    if RetryStatus(r.status, req.method_) && attempt < attempts - 1 {
      return None;
    }
    return Some(ApiError(attempt));
  }

  /** `last` is the attempt it stopped with, or 0 if it made none. */
  method Do(p: RetryPolicy, req: Request, authorized: Option<bool>, reply: nat -> Reply, waited: nat -> bool)
    returns (result: Result, trace: seq<Event>, last: nat)
    ensures Behaves(p, req, authorized, reply, waited, last, result, trace)
  {
    hide Backoff, Retryable, Verdict;
    trace, last := [], 0;
    if req.hasForm && req.hasBody {
      return BodyAndForm, trace, last;
    } else if !req.hasForm && req.hasBody {
      if !req.encodes {
        return EncodingFailed, trace, last;
      }
    }
    if authorized.Some? {
      trace := trace + [Authorize];
      if !authorized.value {
        return NotAuthorized, trace, last;
      }
    }
    ghost var prefix := trace;
    var attempts := if p.maxAttempts > 1 then p.maxAttempts else 1;
    for attempt := 0 to attempts
      invariant forall i :: 0 <= i < attempt ==> Retryable(req, reply(i))
      invariant forall i :: 1 <= i < attempt ==> waited(i)
      invariant attempt == 0 ==> trace == prefix
      invariant attempt > 0 ==> attempt < attempts && trace == prefix + Sends(p, attempt - 1)
      invariant last == if attempt == 0 then 0 else attempt - 1
    {
      if attempt > 0 {
        trace := trace + [Pause(Backoff(p, attempt))];
        if !waited(attempt) {
          return PauseCancelled(attempt - 1), trace, last;
        }
      }
      last := attempt;
      trace := trace + [Send(attempt)];
      assert trace == prefix + Sends(p, attempt);
      var verdict := Judge(req, attempt, attempts, reply(attempt));
      if verdict.None? {
        continue;
      }
      return verdict.value, trace, last;
    }
    // the return behind the loop
    assert false;
    result := BodyAndForm;
  }

  /** A request that is not safe to replay is sent once and never waited for. */
  lemma SentOnceUnlessIdempotent(p: RetryPolicy, req: Request, authorized: Option<bool>, reply: nat -> Reply,
                                 waited: nat -> bool, last: nat, result: Result, trace: seq<Event>)
    requires Behaves(p, req, authorized, reply, waited, last, result, trace) && !IsIdempotent(req.method_)
    ensures forall e :: e in trace ==> e == Authorize || e == Send(0)
    ensures |trace| <= 2
    ensures result != PauseCancelled(0)
  {
    assert Retryable(req, reply(0)) <==> false;
  }

  /** m spells the upper-case word u, in whatever case. */
  predicate Spells(m: Bytes, u: string) {
    |m| == |u| && forall i :: 0 <= i < |u| ==> m[i] == u[i] || m[i] as int == u[i] as int + 32
  }

  /** Safe to replay are the methods GET, HEAD and OPTIONS, in whatever case, and no other. */
  lemma IdempotentExactly(m: Bytes)
    ensures IsIdempotent(m) <==> Spells(m, "GET") || Spells(m, "HEAD") || Spells(m, "OPTIONS")
  {
    SpellsUpper(m, "GET");
    SpellsUpper(m, "HEAD");
    SpellsUpper(m, "OPTIONS");
  }

  lemma SpellsUpper(m: Bytes, u: Bytes)
    requires forall i :: 0 <= i < |u| ==> 'A' <= u[i] <= 'Z'
    ensures ToUpper(m) == u <==> Spells(m, u)
  {
    if ToUpper(m) == u {
      forall i | 0 <= i < |u|
        ensures m[i] == u[i] || m[i] as int == u[i] as int + 32
      {
        assert ToUpper(m)[i] == UpperByte(m[i]);
      }
    }
    if Spells(m, u) {
      forall i | 0 <= i < |u|
        ensures ToUpper(m)[i] == u[i]
      {
        assert ToUpper(m)[i] == UpperByte(m[i]);
      }
    }
  }

  /** A reply that is followed by another attempt, if the policy has one left: none came, or the
      status was one of the server's own errors. */
  predicate WorthAnother(m: Bytes, reply: Reply) {
    (Spells(m, "GET") || Spells(m, "HEAD") || Spells(m, "OPTIONS")) && (reply.NoResponse? || reply.status >= 500)
  }

  /** Once sending has begun, each reply before the last was worth another attempt, and the last
      was not, or the policy or the pause before the next one ended it. What is returned
      is what the last reply was: nothing, an error status, or a success with or without a
      body that the caller wanted. */
  lemma ReturnedExactly(p: RetryPolicy, req: Request, authorized: Option<bool>, reply: nat -> Reply,
                        waited: nat -> bool, last: nat, result: Result, trace: seq<Event>)
    requires Behaves(p, req, authorized, reply, waited, last, result, trace)
    requires !(req.hasForm && req.hasBody) && (req.hasBody ==> req.encodes) && authorized != Some(false)
    ensures forall i :: 0 <= i < last ==> WorthAnother(req.method_, reply(i))
    ensures last < (if p.maxAttempts > 1 then p.maxAttempts else 1)
    ensures WorthAnother(req.method_, reply(last)) ==> result == PauseCancelled(last) || last + 1 >= p.maxAttempts
    ensures match result
      case PauseCancelled(k) => k == last && !waited(last + 1) && WorthAnother(req.method_, reply(last))
      case TransportFailed(k) => k == last && reply(last).NoResponse?
      case ApiError(k) => k == last && reply(last).Response? && !(200 <= reply(last).status <= 299)
      case MissingBody(k) =>
        k == last && reply(last).Response? && 200 <= reply(last).status <= 299 && req.wantsResult &&
        reply(last).body == Empty
      case BadBody(k) =>
        k == last && reply(last).Response? && 200 <= reply(last).status <= 299 && req.wantsResult &&
        reply(last).body == Undecodable
      case Done(k) =>
        k == last && reply(last).Response? && 200 <= reply(last).status <= 299 &&
        (req.wantsResult ==> reply(last).body == Decodable)
      case _ => false
  {
    IdempotentExactly(req.method_);
    hide IsIdempotent, Spells, Sends, Backoff;
  }

  /** A request with both kinds of body, or with one that cannot be encoded, is never sent, nor is
      one that is not authorized. */
  lemma RefusedExactly(p: RetryPolicy, req: Request, authorized: Option<bool>, reply: nat -> Reply,
                       waited: nat -> bool, last: nat, result: Result, trace: seq<Event>)
    requires Behaves(p, req, authorized, reply, waited, last, result, trace)
    ensures result == BodyAndForm <==> req.hasForm && req.hasBody
    ensures result == EncodingFailed <==> !req.hasForm && req.hasBody && !req.encodes
    ensures result == NotAuthorized <==>
      result != BodyAndForm && result != EncodingFailed && authorized == Some(false)
    ensures result in {BodyAndForm, EncodingFailed, NotAuthorized} ==> forall e :: e in trace ==> e == Authorize
  {
  }

  /** The first pause is the base delay, 200 milliseconds where none is asked for, and no pause is
      longer than the cap, two seconds where none is asked for. */
  lemma DelaysExactly(p: RetryPolicy, attempt: nat)
    requires attempt >= 1
    ensures var base := if p.baseDelay > 0 then p.baseDelay else 200_000_000;
      var cap := if p.maxDelay > 0 then p.maxDelay else 2_000_000_000;
      && Backoff(p, 1) == (if base <= cap then base else cap)
      && Backoff(p, attempt + 1) == (if 2 * Backoff(p, attempt) <= cap then 2 * Backoff(p, attempt) else cap)
  {
    BackoffGrows(p, attempt);
  }

  /** The m-th event once sending has begun: attempts and the pauses before them alternate. */
  function EventAt(p: RetryPolicy, m: nat): Event {
    if m % 2 == 0 then Send(m / 2) else Pause(Backoff(p, m / 2 + 1))
  }

  lemma {:induction false} SendsAt(p: RetryPolicy, k: nat, m: nat)
    requires m <= 2 * k
    ensures |Sends(p, k)| == 2 * k + 1 && Sends(p, k)[m] == EventAt(p, m)
  {
    if k > 0 {
      SendsAt(p, k - 1, if m <= 2 * k - 2 then m else 0);
    }
  }

  lemma {:induction false} BackoffMonotone(p: RetryPolicy, a: nat, b: nat)
    requires 1 <= a <= b
    ensures 0 < Backoff(p, a) <= Backoff(p, b) <= Cap(p)
    decreases b - a
  {
    BackoffGrows(p, a);
    if a < b {
      BackoffMonotone(p, a + 1, b);
    }
  }

  lemma TraceAt(p: RetryPolicy, req: Request, authorized: Option<bool>, reply: nat -> Reply, waited: nat -> bool,
                last: nat, result: Result, trace: seq<Event>, i: nat)
    requires Behaves(p, req, authorized, reply, waited, last, result, trace) && i < |trace|
    ensures trace[i] == if authorized.None? then EventAt(p, i) else if i == 0 then Authorize else EventAt(p, i - 1)
    ensures trace[i].Send? ==> trace[i].attempt < Attempts(p)
  {
    var n := if authorized.Some? then 1 else 0;
    SendsAt(p, last, if n <= i <= n + 2 * last then i - n else 0);
  }

  /** The authorizer is asked at most once and first; attempts are numbered in the order they
      are made, at most Attempts(p) of them; and the pauses between them never shrink. */
  lemma TraceOrder(p: RetryPolicy, req: Request, authorized: Option<bool>, reply: nat -> Reply, waited: nat -> bool,
                   last: nat, result: Result, trace: seq<Event>, i: nat, j: nat)
    requires Behaves(p, req, authorized, reply, waited, last, result, trace) && i < j < |trace|
    ensures !trace[j].Authorize?
    ensures trace[i].Send? && trace[j].Send? ==> trace[i].attempt < trace[j].attempt < Attempts(p)
    ensures trace[i].Pause? && trace[j].Pause? ==> 0 < trace[i].delay <= trace[j].delay <= Cap(p)
  {
    TraceAt(p, req, authorized, reply, waited, last, result, trace, i);
    TraceAt(p, req, authorized, reply, waited, last, result, trace, j);
    if trace[i].Pause? && trace[j].Pause? {
      var n := if authorized.Some? then 1 else 0;
      BackoffMonotone(p, (i - n) / 2 + 1, (j - n) / 2 + 1);
    }
  }
}
