/** The strings that requests are signed over (internal/signing/signing.go). The digest is
    any function to bytes; the HMAC over the result is left out. */
module Signing {
  import opened Strings

  type Query = map<Bytes, seq<Bytes>>

  datatype Request = Request(host: Bytes, path: Bytes, query: Query, body: Bytes)

  const HOST: Bytes := "host"
  const APP_KEY: Bytes := "x-app-key"
  const TIMESTAMP: Bytes := "x-timestamp"
  const VERSION: Bytes := "x-signature-version"
  const ALGORITHM: Bytes := "x-signature-algorithm"
  const NONCE: Bytes := "x-signature-nonce"
  const SIGNATURE: Bytes := "x-signature"
  const AMP: Bytes := "&"
  const EQ: Bytes := "="

  /** `hex.EncodeToString`: two lower-case digits a byte. */
  function HexEncode(s: Bytes): Bytes {
    if s == [] then [] else ToLower([HexDigit(s[0] as int / 16), HexDigit(s[0] as int % 16)]) + HexEncode(s[1..])
  }

  /** The five headers every signed request carries. */
  function SignatureHeaders(appKey: Bytes, timestamp: Bytes, nonce: Bytes): map<Bytes, Bytes> {
    map[APP_KEY := appKey, TIMESTAMP := timestamp, VERSION := "1.0", ALGORITHM := "HMAC-SHA256", NONCE := nonce]
  }

  /** No two header names differ in case only. */
  predicate LowerDistinct(headers: map<Bytes, Bytes>) {
    forall a, b :: a in headers && b in headers && ToLower(a) == ToLower(b) ==> a == b
  }

  // ---------- what the canonical string is ----------

  /** `m` holds the headers under lower-case names, on top of `start`. */
  ghost predicate Lowered(start: map<Bytes, Bytes>, headers: map<Bytes, Bytes>, m: map<Bytes, Bytes>) {
    && (forall h :: h in headers ==> ToLower(h) in m && m[ToLower(h)] == headers[h])
    && (forall k :: k in start ==> k in m)
    && (forall k :: k in m ==> (exists h :: h in headers && ToLower(h) == k) || (k in start && m[k] == start[k]))
  }

  /** What stands under one key: the header or host value, if there is one, then the query's
      values in order. */
  function Parts(base: map<Bytes, Bytes>, query: Query, k: Bytes): seq<Bytes> {
    (if k in base then [base[k]] else []) + (if k in query then query[k] else [])
  }

  /** Every key that has a value, with its values joined. */
  function Params(base: map<Bytes, Bytes>, query: Query): map<Bytes, Bytes> {
    map k | k in base.Keys + query.Keys && Parts(base, query, k) != [] :: Join(Parts(base, query, k), AMP)
  }

  function Pairs(keys: seq<Bytes>, params: map<Bytes, Bytes>): seq<Bytes>
    requires forall k :: k in keys ==> k in params
  {
    if keys == [] then []
    else Pairs(keys[..|keys| - 1], params) + [keys[|keys| - 1] + EQ + params[keys[|keys| - 1]]]
  }

  function HttpText(path: Bytes, pairs: seq<Bytes>, body: Bytes, sum: Bytes -> Bytes): Bytes {
    (if path != [] then path + AMP else []) + Join(pairs, AMP)
    + (if body != [] then AMP + ToUpper(HexEncode(sum(body))) else [])
  }

  function StreamText(pairs: seq<Bytes>, body: Bytes, sum: Bytes -> Bytes): Bytes {
    Join(pairs, EQ) + (if body != [] then AMP + HexEncode(sum(body)) else [])
  }

  /** The canonical string of an HTTP request: `keys` are its parameters' names, in strict order. */
  ghost predicate IsCanonical(text: Bytes, keys: seq<Bytes>, base: map<Bytes, Bytes>, req: Request,
                              sum: Bytes -> Bytes) {
    && Lists(keys, Params(base, req.query).Keys)
    && text == Escape(HttpText(req.path, Pairs(keys, Params(base, req.query)), req.body, sum))
  }

  /** And with its parts left unnamed. */
  ghost predicate CanonicalOf(text: Bytes, req: Request, headers: map<Bytes, Bytes>, sum: Bytes -> Bytes) {
    exists keys, base :: Lowered(map[HOST := req.host], headers, base) && IsCanonical(text, keys, base, req, sum)
  }

  /** The string a gRPC request is signed over: no path, host or query, the pairs joined by
      "=", and the digest in lower case. */
  ghost predicate IsStreamCanonical(text: Bytes, keys: seq<Bytes>, base: map<Bytes, Bytes>, body: Bytes,
                                    sum: Bytes -> Bytes) {
    Lists(keys, base.Keys) && text == Escape(StreamText(Pairs(keys, base), body, sum))
  }

  ghost predicate StreamCanonicalOf(text: Bytes, headers: map<Bytes, Bytes>, body: Bytes, sum: Bytes -> Bytes) {
    exists keys, base :: Lowered(map[], headers, base) && IsStreamCanonical(text, keys, base, body, sum)
  }

  // ---------- how it is built ----------

  /** Enters the headers under lower-case names, in whatever order the map gives them. */
  method AddHeaders(start: map<Bytes, Bytes>, headers: map<Bytes, Bytes>) returns (params: map<Bytes, Bytes>)
    requires LowerDistinct(headers)
    ensures Lowered(start, headers, params)
  {
    hide Lowered;
    params := start;
    var left := headers.Keys;
    NoneLowered(start);
    ghost var done: map<Bytes, Bytes> := map[];
    while left != {}
      invariant left <= headers.Keys && done.Keys == headers.Keys - left
      invariant forall h :: h in done ==> done[h] == headers[h]
      invariant Lowered(start, done, params)
      decreases left
    {
      var h :| h in left;
      OneLowered(start, done, params, h, headers[h]);
      params, done := params[ToLower(h) := headers[h]], done[h := headers[h]];
      left := left - {h};
    }
    assert done == headers;
  }

  lemma NoneLowered(start: map<Bytes, Bytes>)
    ensures Lowered(start, map[], start)
  {
  }

  lemma OneLowered(start: map<Bytes, Bytes>, done: map<Bytes, Bytes>, m: map<Bytes, Bytes>, h: Bytes, v: Bytes)
    requires Lowered(start, done, m) && h !in done && LowerDistinct(done[h := v])
    ensures Lowered(start, done[h := v], m[ToLower(h) := v])
  {
    hide ToLower;
    var done', m' := done[h := v], m[ToLower(h) := v];
    assert h in done';
    forall g | g in done
      ensures m'[ToLower(g)] == done[g]
    {
      assert g in done' && ToLower(g) != ToLower(h);
    }
    forall k | k in m'
      ensures (exists g :: g in done' && ToLower(g) == k) || (k in start && m'[k] == start[k])
    {
      if g :| g in done && ToLower(g) == k {
        assert g in done';
      }
    }
  }

  lemma ParamsNewKey(base: map<Bytes, Bytes>, query: Query, k: Bytes)
    requires k !in query
    ensures Params(base, query[k := []]) == Params(base, query)
  {
    forall x
      ensures Parts(base, query[k := []], x) == Parts(base, query, x)
    {
    }
  }

  lemma PartsOneMore(base: map<Bytes, Bytes>, query: Query, k: Bytes, v: Bytes, x: Bytes)
    requires k in query
    ensures Parts(base, query[k := query[k] + [v]], x) == Parts(base, query, x) + (if x == k then [v] else [])
  {
  }

  /** One more value goes behind those its key has, or starts the key. */
  lemma ParamsOneMore(base: map<Bytes, Bytes>, query: Query, k: Bytes, v: Bytes)
    requires k in query
    ensures var p := Params(base, query);
      Params(base, query[k := query[k] + [v]]) == p[k := if k in p then p[k] + AMP + v else v]
  {
    hide Parts, Join;
    var query' := query[k := query[k] + [v]];
    assert query'.Keys == query.Keys;
    PartsOneMore(base, query, k, v, k);
    JoinOneMore(Parts(base, query, k), AMP, v);
    forall x | x != k
      ensures Parts(base, query', x) == Parts(base, query, x)
    {
      PartsOneMore(base, query, k, v, x);
    }
  }

  /** Adds the values of one key. */
  method AddValues(params0: map<Bytes, Bytes>, k: Bytes, vs: seq<Bytes>, ghost base: map<Bytes, Bytes>,
                   ghost done: Query)
    returns (params: map<Bytes, Bytes>)
    requires k !in done && params0 == Params(base, done)
    ensures params == Params(base, done[k := vs])
  {
    hide Params;
    params := params0;
    ParamsNewKey(base, done, k);
    for j := 0 to |vs|
      invariant params == Params(base, done[k := vs[..j]])
    {
      ParamsOneMore(base, done[k := vs[..j]], k, vs[j]);
      assert vs[..j + 1] == vs[..j] + [vs[j]];
      assert done[k := vs[..j]][k := vs[..j + 1]] == done[k := vs[..j + 1]];
      if k in params {
        params := params[k := params[k] + AMP + vs[j]];
      } else {
        params := params[k := vs[j]];
      }
    }
    assert vs[..|vs|] == vs;
  }

  /** Adds the query's values behind those already there, in whatever order the map gives its
      keys; the values of one key keep theirs. */
  method AddQuery(base: map<Bytes, Bytes>, query: Query) returns (params: map<Bytes, Bytes>)
    ensures params == Params(base, query)
  {
    params := base;
    var left := query.Keys;
    ghost var done: Query := map[];
    assert params == Params(base, done);
    while left != {}
      invariant left <= query.Keys
      invariant done == map k | k in query && k !in left :: query[k]
      invariant params == Params(base, done)
      decreases left
    {
      var k :| k in left;
      left := left - {k};
      params := AddValues(params, k, query[k], base, done);
      done := done[k := query[k]];
    }
    assert done == query;
  }

  /** The names of the parameters, sorted. */
  method SortedNames(params: map<Bytes, Bytes>) returns (keys: seq<Bytes>)
    ensures Lists(keys, params.Keys)
  {
    keys := [];
    var left := params.Keys;
    while left != {}
      invariant left <= params.Keys
      invariant forall k :: k in keys <==> k in params && k !in left
      invariant forall i, j :: 0 <= i < j < |keys| ==> keys[i] != keys[j]
      decreases left
    {
      var k :| k in left;
      keys := keys + [k];
      left := left - {k};
    }
    keys := SortKeys(keys);
  }

  method MakePairs(keys: seq<Bytes>, params: map<Bytes, Bytes>) returns (pairs: seq<Bytes>)
    requires forall k :: k in keys ==> k in params
    ensures pairs == Pairs(keys, params)
  {
    pairs := [];
    for i := 0 to |keys|
      invariant pairs == Pairs(keys[..i], params)
    {
      assert keys[..i + 1][..i] == keys[..i];
      pairs := pairs + [keys[i] + EQ + params[keys[i]]];
    }
    assert keys[..|keys|] == keys;
  }

  method Canonical(req: Request, headers: map<Bytes, Bytes>, sum: Bytes -> Bytes) returns (text: Bytes)
    requires LowerDistinct(headers)
    ensures CanonicalOf(text, req, headers, sum)
  {
    hide Lowered, Parts, Params, Escape, Join, Lists;
    var base := AddHeaders(map[HOST := req.host], headers);
    var params := AddQuery(base, req.query);
    var keys := SortedNames(params);
    var pairs := MakePairs(keys, params);
    var sb: Bytes := [];
    if |req.path| > 0 {
      sb := sb + req.path;
      sb := sb + AMP;
    }
    sb := sb + Join(pairs, AMP);
    if |req.body| > 0 {
      sb := sb + AMP;
      sb := sb + ToUpper(HexEncode(sum(req.body)));
    }
    assert sb == HttpText(req.path, pairs, req.body, sum);
    text := Escape(sb);
    assert IsCanonical(text, keys, base, req, sum);
  }

  method StreamCanonical(headers: map<Bytes, Bytes>, body: Bytes, sum: Bytes -> Bytes) returns (text: Bytes)
    requires LowerDistinct(headers)
    ensures StreamCanonicalOf(text, headers, body, sum)
  {
    hide Lowered, Escape, Join, Lists;
    var params := AddHeaders(map[], headers);
    var keys := SortedNames(params);
    var pairs := MakePairs(keys, params);
    var sb := Join(pairs, EQ);
    if |body| > 0 {
      sb := sb + AMP;
      sb := sb + HexEncode(sum(body));
    }
    assert sb == StreamText(pairs, body, sum);
    text := Escape(sb);
    assert IsStreamCanonical(text, keys, params, body, sum);
  }

  /** The headers to attach to a request: the five, and the signature over the canonical
      string that they and the request have without it. */
  method Sign(req: Request, appKey: Bytes, timestamp: Bytes, nonce: Bytes, sum: Bytes -> Bytes, mac: Bytes -> Bytes)
    returns (headers: map<Bytes, Bytes>)
    ensures exists text ::
      && CanonicalOf(text, req, SignatureHeaders(appKey, timestamp, nonce), sum)
      && headers == SignatureHeaders(appKey, timestamp, nonce)[SIGNATURE := mac(text)]
  {
    SignerHeadersDistinct(appKey, timestamp, nonce);
    hide CanonicalOf, LowerDistinct;
    headers := SignatureHeaders(appKey, timestamp, nonce);
    var text := Canonical(req, headers, sum);
    headers := headers[SIGNATURE := mac(text)];
  }

  method SignStream(body: Bytes, appKey: Bytes, timestamp: Bytes, nonce: Bytes, sum: Bytes -> Bytes,
                    mac: Bytes -> Bytes)
    returns (headers: map<Bytes, Bytes>)
    ensures exists text ::
      && StreamCanonicalOf(text, SignatureHeaders(appKey, timestamp, nonce), body, sum)
      && headers == SignatureHeaders(appKey, timestamp, nonce)[SIGNATURE := mac(text)]
  {
    SignerHeadersDistinct(appKey, timestamp, nonce);
    hide StreamCanonicalOf, LowerDistinct;
    headers := SignatureHeaders(appKey, timestamp, nonce);
    var text := StreamCanonical(headers, body, sum);
    headers := headers[SIGNATURE := mac(text)];
  }

  // ---------- it does not depend on the order of iteration ----------

  lemma LoweredUnique(start: map<Bytes, Bytes>, headers: map<Bytes, Bytes>, a: map<Bytes, Bytes>, b: map<Bytes, Bytes>)
    requires Lowered(start, headers, a) && Lowered(start, headers, b)
    ensures a == b
  {
    forall k
      ensures k in a <==> k in b
      ensures k in a && k in b ==> a[k] == b[k]
    {
      if h :| h in headers && ToLower(h) == k {
      } else {
      }
    }
  }

  /** For every query and every order in which its keys, the headers' and the parameters' are
      visited, the canonical string is the same. */
  lemma CanonicalUnique(req: Request, headers: map<Bytes, Bytes>, sum: Bytes -> Bytes, t1: Bytes, t2: Bytes)
    requires CanonicalOf(t1, req, headers, sum) && CanonicalOf(t2, req, headers, sum)
    ensures t1 == t2
  {
    hide Lowered, Params, Escape, Lists, HttpText;
    var k1, b1 :| Lowered(map[HOST := req.host], headers, b1) && IsCanonical(t1, k1, b1, req, sum);
    var k2, b2 :| Lowered(map[HOST := req.host], headers, b2) && IsCanonical(t2, k2, b2, req, sum);
    LoweredUnique(map[HOST := req.host], headers, b1, b2);
    ListsUnique(k1, k2, Params(b1, req.query).Keys);
  }

  lemma StreamCanonicalUnique(headers: map<Bytes, Bytes>, body: Bytes, sum: Bytes -> Bytes, t1: Bytes, t2: Bytes)
    requires StreamCanonicalOf(t1, headers, body, sum) && StreamCanonicalOf(t2, headers, body, sum)
    ensures t1 == t2
  {
    hide Lowered, Escape, Lists, StreamText;
    var k1, b1 :| Lowered(map[], headers, b1) && IsStreamCanonical(t1, k1, b1, body, sum);
    var k2, b2 :| Lowered(map[], headers, b2) && IsStreamCanonical(t2, k2, b2, body, sum);
    LoweredUnique(map[], headers, b1, b2);
    ListsUnique(k1, k2, b1.Keys);
  }

  // ---------- what the canonical string fixes ----------

  lemma EscapeInjective(a: Bytes, b: Bytes)
    requires Escape(a) == Escape(b)
    ensures a == b
  {
    EscapeRoundTrip(a);
    EscapeRoundTrip(b);
  }

  /** Two hexadecimal digits say the byte, in either case. */
  lemma {:induction false} HexInjective(a: Bytes, b: Bytes)
    requires ToUpper(HexEncode(a)) == ToUpper(HexEncode(b))
    ensures a == b
    decreases |a|
  {
    HexLength(a);
    HexLength(b);
    assert |ToUpper(HexEncode(a))| == 2 * |a| && |ToUpper(HexEncode(b))| == 2 * |b|;
    if a != [] {
      HexFirst(a);
      HexFirst(b);
      HexDigitDistinct(a[0] as int / 16, b[0] as int / 16);
      HexDigitDistinct(a[0] as int % 16, b[0] as int % 16);
      HexInjective(a[1..], b[1..]);
      assert a == [a[0]] + a[1..] && b == [b[0]] + b[1..];
    }
  }

  lemma {:induction false} HexLength(a: Bytes)
    ensures |HexEncode(a)| == 2 * |a|
    decreases |a|
  {
    if a != [] {
      HexLength(a[1..]);
    }
  }

  lemma HexFirst(a: Bytes)
    requires a != []
    ensures var h := ToUpper(HexEncode(a));
      && |h| >= 2 && h[0] == HexDigit(a[0] as int / 16) && h[1] == HexDigit(a[0] as int % 16)
      && h[2..] == ToUpper(HexEncode(a[1..]))
  {
    HexLength(a);
    HexLength(a[1..]);
    var d := ToLower([HexDigit(a[0] as int / 16), HexDigit(a[0] as int % 16)]);
    assert HexEncode(a) == d + HexEncode(a[1..]);
    assert HexEncode(a)[2..] == HexEncode(a[1..]);
    DigitUpper(a[0] as int / 16);
    DigitUpper(a[0] as int % 16);
  }

  lemma DigitUpper(n: nat)
    requires n < 16
    ensures UpperByte(LowerByte(HexDigit(n))) == HexDigit(n)
  {
  }

  lemma HexDigitDistinct(a: nat, b: nat)
    requires a < 16 && b < 16 && HexDigit(a) == HexDigit(b)
    ensures a == b
  {
    HexRoundTrip(a);
    HexRoundTrip(b);
  }

  function PathPart(path: Bytes): Bytes {
    if path != [] then path + AMP else []
  }

  function BodyPart(body: Bytes, sum: Bytes -> Bytes): Bytes {
    if body != [] then AMP + ToUpper(HexEncode(sum(body))) else []
  }

  /** Requests that differ in path and body only have the same pairs in their strings. */
  lemma CommonPairs(a: Request, b: Request, headers: map<Bytes, Bytes>, sum: Bytes -> Bytes, ta: Bytes, tb: Bytes)
    returns (middle: Bytes)
    requires CanonicalOf(ta, a, headers, sum) && CanonicalOf(tb, b, headers, sum)
    requires a.host == b.host && a.query == b.query
    ensures ta == Escape(PathPart(a.path) + middle + BodyPart(a.body, sum))
    ensures tb == Escape(PathPart(b.path) + middle + BodyPart(b.body, sum))
  {
    hide Lowered, Params, Escape, Join, StrictlySorted;
    var k1, b1 :| Lowered(map[HOST := a.host], headers, b1) && IsCanonical(ta, k1, b1, a, sum);
    var k2, b2 :| Lowered(map[HOST := b.host], headers, b2) && IsCanonical(tb, k2, b2, b, sum);
    LoweredUnique(map[HOST := a.host], headers, b1, b2);
    ListsUnique(k1, k2, Params(b1, a.query).Keys);
    middle := Join(Pairs(k1, Params(b1, a.query)), AMP);
  }

  lemma BodyPartExactly(x: Bytes, y: Bytes, sum: Bytes -> Bytes)
    ensures |BodyPart(x, sum)| == if x == [] then 0 else 1 + 2 * |sum(x)|
    ensures BodyPart(x, sum) == BodyPart(y, sum) <==>
      (x == [] <==> y == []) && (x != [] ==> sum(x) == sum(y))
  {
    HexLength(sum(x));
    if x != [] && y != [] && BodyPart(x, sum) == BodyPart(y, sum) {
      assert BodyPart(x, sum)[1..] == ToUpper(HexEncode(sum(x))) && BodyPart(y, sum)[1..] == ToUpper(HexEncode(sum(y)));
      HexInjective(sum(x), sum(y));
    }
  }

  /** Requests to one host with the same path, query and headers have one canonical string exactly
      if neither has a body, or both have and the bodies' digests are equal. */
  lemma BodyExactly(a: Request, b: Request, headers: map<Bytes, Bytes>, sum: Bytes -> Bytes, ta: Bytes, tb: Bytes)
    requires CanonicalOf(ta, a, headers, sum) && CanonicalOf(tb, b, headers, sum)
    requires a.host == b.host && a.path == b.path && a.query == b.query
    ensures ta == tb <==> (a.body == [] <==> b.body == []) && (a.body != [] ==> sum(a.body) == sum(b.body))
  {
    var middle := CommonPairs(a, b, headers, sum, ta, tb);
    BodyPartExactly(a.body, b.body, sum);
    hide CanonicalOf, Escape, BodyPart, PathPart;
    var front := PathPart(a.path) + middle;
    if ta == tb {
      EscapeInjective(front + BodyPart(a.body, sum), front + BodyPart(b.body, sum));
      assert (front + BodyPart(a.body, sum))[|front|..] == BodyPart(a.body, sum);
      assert (front + BodyPart(b.body, sum))[|front|..] == BodyPart(b.body, sum);
    }
  }

  /** And with digests of one length, as SHA-256 gives them, the string fixes the path as well. */
  lemma PathExactly(a: Request, b: Request, headers: map<Bytes, Bytes>, sum: Bytes -> Bytes, ta: Bytes, tb: Bytes)
    requires CanonicalOf(ta, a, headers, sum) && CanonicalOf(tb, b, headers, sum)
    requires a.host == b.host && a.query == b.query
    requires (a.body == [] <==> b.body == []) && |sum(a.body)| == |sum(b.body)|
    ensures ta == tb <==> a.path == b.path && (a.body != [] ==> sum(a.body) == sum(b.body))
  {
    var middle := CommonPairs(a, b, headers, sum, ta, tb);
    BodyPartExactly(a.body, b.body, sum);
    BodyPartExactly(b.body, a.body, sum);
    hide CanonicalOf, Escape, BodyPart;
    var x, y := BodyPart(a.body, sum), BodyPart(b.body, sum);
    if ta == tb {
      EscapeInjective(PathPart(a.path) + middle + x, PathPart(b.path) + middle + y);
      PartsApart(a.path, b.path, middle, x, y);
    }
  }

  lemma PartsApart(a: Bytes, b: Bytes, middle: Bytes, x: Bytes, y: Bytes)
    requires PathPart(a) + middle + x == PathPart(b) + middle + y && |x| == |y|
    ensures a == b && x == y
  {
    var (s, t) := (PathPart(a) + middle + x, PathPart(b) + middle + y);
    var n := |PathPart(a)|;
    assert n == |PathPart(b)|;
    assert s[n + |middle|..] == x && t[n + |middle|..] == y;
    assert s[..n] == PathPart(a) && t[..n] == PathPart(b);
    if a != [] {
      assert PathPart(a)[..|a|] == a && PathPart(b)[..|b|] == b;
    }
  }

  /** `part` stands in the text, between ampersands or at its ends. */
  ghost predicate Stands(text: Bytes, part: Bytes) {
    exists front, back :: StandsAt(text, front, part, back)
  }

  predicate StandsAt(text: Bytes, front: Bytes, part: Bytes, back: Bytes) {
    text == front + part + back && EndsFree(front) && BeginsFree(back)
  }

  predicate EndsFree(front: Bytes) {
    front == [] || front[|front| - 1] == '&'
  }

  predicate BeginsFree(back: Bytes) {
    back == [] || back[0] == '&'
  }

  lemma StandsBetween(before: Bytes, middle: Bytes, after: Bytes, part: Bytes)
    requires Stands(middle, part) && EndsFree(before) && BeginsFree(after)
    ensures Stands(before + middle + after, part)
  {
    var front, back :| StandsAt(middle, front, part, back);
    assert EndsFree(before + front) && BeginsFree(back + after);
    assert before + middle + after == (before + front) + part + (back + after);
    assert StandsAt(before + middle + after, before + front, part, back + after);
  }

  lemma StandsLast(before: Bytes, last: Bytes)
    ensures Stands(before + AMP + last, last)
  {
    assert before + AMP + last == (before + AMP) + last + [];
    assert StandsAt(before + AMP + last, before + AMP, last, []);
  }

  lemma StandsEarlier(before: Bytes, part: Bytes, last: Bytes)
    requires Stands(before, part)
    ensures Stands(before + AMP + last, part)
  {
    StandsBetween([], before, AMP + last, part);
    assert [] + before + (AMP + last) == before + AMP + last;
  }

  lemma {:induction false} PartStands(parts: seq<Bytes>, i: nat)
    requires i < |parts|
    ensures Stands(Join(parts, AMP), parts[i])
    decreases |parts|
  {
    var n := |parts| - 1;
    var rest, last := parts[..n], parts[n];
    assert parts == rest + [last];
    JoinOneMore(rest, AMP, last);
    hide Join, Stands;
    if n == 0 {
      StandsAlone(last);
    } else if i == n {
      StandsLast(Join(rest, AMP), last);
    } else {
      PartStands(rest, i);
      StandsEarlier(Join(rest, AMP), parts[i], last);
    }
  }

  lemma StandsAlone(part: Bytes)
    ensures Stands(part, part)
  {
    assert StandsAt(part, [], part, []);
  }

  lemma {:induction false} PairAt(keys: seq<Bytes>, params: map<Bytes, Bytes>, i: nat)
    requires i < |keys| && forall k :: k in keys ==> k in params
    ensures |Pairs(keys, params)| == |keys| && Pairs(keys, params)[i] == keys[i] + EQ + params[keys[i]]
    decreases |keys|
  {
    if |keys| > 1 {
      PairAt(keys[..|keys| - 1], params, if i < |keys| - 1 then i else 0);
    }
  }

  /** Every parameter stands in the string that is escaped and signed, as its name, an equals sign
      and its value. */
  lemma EveryParameterStands(text: Bytes, keys: seq<Bytes>, base: map<Bytes, Bytes>, req: Request,
                             sum: Bytes -> Bytes, k: Bytes)
    requires IsCanonical(text, keys, base, req, sum) && k in Params(base, req.query)
    ensures exists plain :: text == Escape(plain) && Stands(plain, k + EQ + Params(base, req.query)[k])
  {
    hide Params, Escape, Join, StrictlySorted, Stands;
    var params := Params(base, req.query);
    assert k in keys;
    var i :| 0 <= i < |keys| && keys[i] == k;
    PairAt(keys, params, i);
    PartStands(Pairs(keys, params), i);
    StandsBetween(PathPart(req.path), Join(Pairs(keys, params), AMP), BodyPart(req.body, sum), k + EQ + params[k]);
    assert text == Escape(PathPart(req.path) + Join(Pairs(keys, params), AMP) + BodyPart(req.body, sum));
  }

  /** Under a key the header stands first and the query's values follow, joined by ampersands; a key
      has no parameter only if it is no header and the query has no value for it. */
  lemma ParamsExactly(base: map<Bytes, Bytes>, query: Query, k: Bytes)
    ensures var (params, vs) := (Params(base, query), if k in query then query[k] else []);
      && (k in params <==> k in base || vs != [])
      && (k in base && vs == [] ==> params[k] == base[k])
      && (k in base && vs != [] ==> params[k] == base[k] + "&" + Join(vs, "&"))
      && (k !in base && vs != [] ==> params[k] == Join(vs, "&"))
  {
    var vs := if k in query then query[k] else [];
    if k in base {
      assert Parts(base, query, k) == [base[k]] + vs;
      JoinFirst(base[k], vs);
    } else {
      assert Parts(base, query, k) == vs;
    }
  }

  lemma {:induction false} JoinFirst(first: Bytes, rest: seq<Bytes>)
    ensures Join([first] + rest, AMP) == if rest == [] then first else first + AMP + Join(rest, AMP)
    decreases |rest|
  {
    if rest != [] {
      var n := |rest| - 1;
      assert [first] + rest == ([first] + rest[..n]) + [rest[n]] && rest == rest[..n] + [rest[n]];
      JoinOneMore([first] + rest[..n], AMP, rest[n]);
      JoinOneMore(rest[..n], AMP, rest[n]);
      JoinFirst(first, rest[..n]);
    }
  }

  /** The digest is in small letters for a stream and in capitals for an HTTP request. */
  lemma {:induction false} DigestCase(s: Bytes)
    ensures forall c :: c in HexEncode(s) ==> '0' <= c <= '9' || 'a' <= c <= 'f'
    ensures forall c :: c in ToUpper(HexEncode(s)) ==> '0' <= c <= '9' || 'A' <= c <= 'F'
    decreases |s|
  {
    if s != [] {
      DigestCase(s[1..]);
    }
    forall c | c in ToUpper(HexEncode(s))
      ensures '0' <= c <= '9' || 'A' <= c <= 'F'
    {
      var i :| 0 <= i < |HexEncode(s)| && ToUpper(HexEncode(s))[i] == c;
      assert HexEncode(s)[i] in HexEncode(s);
    }
  }

  /** The five headers, by name. */
  lemma HeadersExactly(appKey: Bytes, timestamp: Bytes, nonce: Bytes)
    ensures var h := SignatureHeaders(appKey, timestamp, nonce);
      && h.Keys == {"x-app-key", "x-timestamp", "x-signature-version", "x-signature-algorithm", "x-signature-nonce"}
      && h["x-app-key"] == appKey && h["x-timestamp"] == timestamp && h["x-signature-nonce"] == nonce
      && h["x-signature-version"] == "1.0" && h["x-signature-algorithm"] == "HMAC-SHA256"
  {
    assert APP_KEY != TIMESTAMP && |VERSION| != |APP_KEY| && |ALGORITHM| != |NONCE|;
    assert |APP_KEY| == 9 && |TIMESTAMP| == 11 && |VERSION| == 19 && |ALGORITHM| == 21 && |NONCE| == 17;
  }

  /** The headers the signer uses have distinct names in lower case. */
  lemma SignerHeadersDistinct(appKey: Bytes, timestamp: Bytes, nonce: Bytes)
    ensures LowerDistinct(SignatureHeaders(appKey, timestamp, nonce))
    ensures forall h :: h in SignatureHeaders(appKey, timestamp, nonce) ==> ToLower(h) == h
  {
    hide SignatureHeaders, ToLower;
    forall h | h in SignatureHeaders(appKey, timestamp, nonce)
      ensures ToLower(h) == h
    {
      SignerHeaderLower(appKey, timestamp, nonce, h);
    }
  }

  lemma SignerHeaderLower(appKey: Bytes, timestamp: Bytes, nonce: Bytes, h: Bytes)
    requires h in SignatureHeaders(appKey, timestamp, nonce)
    ensures ToLower(h) == h
  {
    assert h == APP_KEY || h == TIMESTAMP || h == VERSION || h == ALGORITHM || h == NONCE;
    LowerStays(h);
  }

  lemma LowerStays(s: Bytes)
    requires forall i :: 0 <= i < |s| ==> !('A' <= s[i] <= 'Z')
    ensures ToLower(s) == s
  {
  }
}
