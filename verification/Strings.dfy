/** Go strings as byte sequences: their order, their sorting, joining, and percent-encoding
    (internal/signing/signing.go, with the standard library's sort, strings and url packages). */
module Strings {
  import opened Options

  type Byte = c: char | c as int < 256 witness 'x'

  type Bytes = seq<Byte>

  // ---------- order and sorting ----------

  /** Bytewise lexicographic order. */
  predicate Less(a: Bytes, b: Bytes) {
    b != [] && (a == [] || a[0] < b[0] || (a[0] == b[0] && Less(a[1..], b[1..])))
  }

  lemma {:induction false} LessTotal(a: Bytes, b: Bytes)
    ensures Less(a, b) || Less(b, a) || a == b
    decreases |a|
  {
    if a != [] && b != [] && a[0] == b[0] {
      LessTotal(a[1..], b[1..]);
      assert a == [a[0]] + a[1..] && b == [b[0]] + b[1..];
    }
  }

  lemma {:induction false} LessTransitive(a: Bytes, b: Bytes, c: Bytes)
    requires Less(a, b) && Less(b, c)
    ensures Less(a, c)
    decreases |a|
  {
    if a != [] && a[0] == b[0] == c[0] {
      LessTransitive(a[1..], b[1..], c[1..]);
    }
  }

  lemma {:induction false} LessIrreflexive(a: Bytes)
    ensures !Less(a, a)
    decreases |a|
  {
    if a != [] {
      LessIrreflexive(a[1..]);
    }
  }

  /** The order is that of the first byte in which two strings differ, and a string comes before
      those it begins. */
  lemma {:induction false} LessExactly(a: Bytes, b: Bytes)
    ensures Less(a, b) <==>
      exists k :: 0 <= k <= |a| && k < |b| && a[..k] == b[..k] && (k == |a| || a[k] < b[k])
    decreases |a|
  {
    if a != [] && b != [] && a[0] == b[0] {
      LessExactly(a[1..], b[1..]);
      if Less(a, b) {
        var k :| 0 <= k <= |a| - 1 && k < |b| - 1 && a[1..][..k] == b[1..][..k] &&
          (k == |a| - 1 || a[1..][k] < b[1..][k]);
        assert a[..k + 1] == [a[0]] + a[1..][..k] && b[..k + 1] == [b[0]] + b[1..][..k];
        assert a[..k + 1] == b[..k + 1] && (k + 1 == |a| || a[k + 1] < b[k + 1]);
      }
      if k :| 0 <= k <= |a| && k < |b| && a[..k] == b[..k] && (k == |a| || a[k] < b[k]) {
        assert a[1..][..k - 1] == a[..k][1..] && b[1..][..k - 1] == b[..k][1..];
        assert 0 <= k - 1 <= |a[1..]| && k - 1 < |b[1..]| && (k - 1 == |a[1..]| || a[1..][k - 1] < b[1..][k - 1]);
      }
    } else if Less(a, b) {
      assert a[..0] == b[..0];
    } else if k :| 0 <= k <= |a| && k < |b| && a[..k] == b[..k] && (k == |a| || a[k] < b[k]) {
      assert k > 0 ==> a[..k][0] == b[..k][0];
    }
  }

  predicate StrictlySorted(s: seq<Bytes>) {
    forall i, j :: 0 <= i < j < |s| ==> Less(s[i], s[j])
  }

  /** `keys` lists exactly the set `s`, in strict order. */
  ghost predicate Lists(keys: seq<Bytes>, s: set<Bytes>) {
    StrictlySorted(keys) && forall k :: k in keys <==> k in s
  }

  /** There is one way to list a set in strict order. */
  lemma {:induction false} ListsUnique(a: seq<Bytes>, b: seq<Bytes>, s: set<Bytes>)
    requires Lists(a, s) && Lists(b, s)
    ensures a == b
    decreases |a|
  {
    assert b != [] ==> b[0] in b;
    if a != [] {
      assert a[0] in a && a[0] in b;
      assert b[0] in b && b[0] in a;
      if a[0] != b[0] {
        var i :| 0 < i < |a| && a[i] == b[0];
        var j :| 0 < j < |b| && b[j] == a[0];
        LessTransitive(a[0], b[0], a[0]);
        LessIrreflexive(a[0]);
        assert false;
      }
      ListsTail(a, s);
      ListsTail(b, s);
      ListsUnique(a[1..], b[1..], s - {a[0]});
      assert a == [a[0]] + a[1..] && b == [b[0]] + b[1..];
    }
  }

  lemma ListsTail(a: seq<Bytes>, s: set<Bytes>)
    requires Lists(a, s) && a != []
    ensures Lists(a[1..], s - {a[0]})
  {
    LessIrreflexive(a[0]);
    forall k
      ensures k in a[1..] <==> k in s - {a[0]}
    {
      if k in a[1..] {
        var i :| 0 < i < |a| && a[i] == k;
        assert Less(a[0], a[i]);
        assert k in a;
      }
      if k in s && k != a[0] {
        var i :| 0 <= i < |a| && a[i] == k;
        assert a[1..][i - 1] == k;
      }
    }
  }

  /** `sort.Strings` on keys that are all different. */
  method SortKeys(keys: seq<Bytes>) returns (sorted: seq<Bytes>)
    requires forall i, j :: 0 <= i < j < |keys| ==> keys[i] != keys[j]
    ensures StrictlySorted(sorted)
    ensures forall k :: k in sorted <==> k in keys
  {
    sorted := [];
    for i := 0 to |keys|
      invariant StrictlySorted(sorted)
      invariant forall k :: k in sorted <==> k in keys[..i]
    {
      var key := keys[i];
      assert keys[..i + 1] == keys[..i] + [key];
      var at := 0;
      while at < |sorted| && Less(sorted[at], key)
        invariant 0 <= at <= |sorted|
        invariant forall j :: 0 <= j < at ==> Less(sorted[j], key)
        decreases |sorted| - at
      {
        at := at + 1;
      }
      InsertAt(sorted, key, at);
      sorted := sorted[..at] + [key] + sorted[at..];
    }
    assert keys[..|keys|] == keys;
  }

  lemma InsertAt(sorted: seq<Bytes>, key: Bytes, at: nat)
    requires StrictlySorted(sorted) && key !in sorted && at <= |sorted|
    requires forall j :: 0 <= j < at ==> Less(sorted[j], key)
    requires at < |sorted| ==> !Less(sorted[at], key)
    ensures StrictlySorted(sorted[..at] + [key] + sorted[at..])
    ensures forall k :: k in sorted[..at] + [key] + sorted[at..] <==> k in sorted || k == key
  {
    var t := sorted[..at] + [key] + sorted[at..];
    forall j | at <= j < |sorted|
      ensures Less(key, sorted[j])
    {
      LessTotal(sorted[at], key);
      assert sorted[at] in sorted;
      if j > at {
        LessTransitive(key, sorted[at], sorted[j]);
      }
    }
    forall i, j | 0 <= i < j < |t|
      ensures Less(t[i], t[j])
    {
    }
    assert sorted == sorted[..at] + sorted[at..];
  }

  // ---------- case ----------

  function LowerByte(c: Byte): Byte {
    if 'A' <= c <= 'Z' then (c as int + 32) as char else c
  }

  function ToLower(s: Bytes): (r: Bytes)
    ensures |r| == |s|
  {
    seq(|s|, i requires 0 <= i < |s| => LowerByte(s[i]))
  }

  function UpperByte(c: Byte): Byte {
    if 'a' <= c <= 'z' then (c as int - 32) as char else c
  }

  function ToUpper(s: Bytes): (r: Bytes)
    ensures |r| == |s|
  {
    seq(|s|, i requires 0 <= i < |s| => UpperByte(s[i]))
  }

  // ---------- joining ----------

  function Join(parts: seq<Bytes>, sep: Bytes): Bytes {
    if parts == [] then []
    else if |parts| == 1 then parts[0]
    else Join(parts[..|parts| - 1], sep) + sep + parts[|parts| - 1]
  }

  lemma JoinOneMore(parts: seq<Bytes>, sep: Bytes, last: Bytes)
    ensures Join(parts + [last], sep) == if parts == [] then last else Join(parts, sep) + sep + last
  {
    assert (parts + [last])[..|parts|] == parts;
  }

  // ---------- percent-encoding ----------

  /** The unreserved characters of section 2.3 of RFC 3986. */
  predicate Unreserved(c: Byte) {
    'a' <= c <= 'z' || 'A' <= c <= 'Z' || '0' <= c <= '9' || c == '-' || c == '_' || c == '.' || c == '~'
  }

  function HexDigit(n: nat): (c: Byte)
    requires n < 16
  {
    if n < 10 then (n + '0' as int) as char else (n - 10 + 'A' as int) as char
  }

  function HexValue(c: Byte): Option<nat> {
    if '0' <= c <= '9' then Some(c as int - '0' as int)
    else if 'A' <= c <= 'F' then Some(c as int - 'A' as int + 10)
    else if 'a' <= c <= 'f' then Some(c as int - 'a' as int + 10)
    else None
  }

  /** `url.QueryEscape`: a space becomes "+", any other reserved byte its percent-encoding. */
  function QueryEscape(s: Bytes): Bytes {
    if s == [] then []
    else
      var c := s[0];
      (if c == ' ' then ['+']
       else if Unreserved(c) then [c]
       else ['%', HexDigit(c as int / 16), HexDigit(c as int % 16)])
      + QueryEscape(s[1..])
  }

  /** `strings.ReplaceAll` of one byte. */
  function ReplaceAll(s: Bytes, old_: Byte, new_: Bytes): Bytes {
    if s == [] then [] else (if s[0] == old_ then new_ else [s[0]]) + ReplaceAll(s[1..], old_, new_)
  }

  function Escape(s: Bytes): Bytes {
    ReplaceAll(QueryEscape(s), '+', ['%', '2', '0'])
  }

  /** Percent-decoding after section 2.1 of RFC 3986; None if a percent sign has no two
      hexadecimal digits behind it. */
  function PercentDecode(s: Bytes): Option<Bytes> {
    if s == [] then Some([])
    else if s[0] == '%' then
      if |s| < 3 || HexValue(s[1]).None? || HexValue(s[2]).None? then None
      else
        var rest := PercentDecode(s[3..]);
        if rest.None? then None
        else Some([(HexValue(s[1]).value * 16 + HexValue(s[2]).value) as char] + rest.value)
    else
      var rest := PercentDecode(s[1..]);
      if rest.None? then None else Some([s[0]] + rest.value)
  }

  /** How `Escape` renders one byte. */
  function EscapeByte(c: Byte): Bytes {
    if Unreserved(c) then [c] else ['%', HexDigit(c as int / 16), HexDigit(c as int % 16)]
  }

  lemma {:induction false} ReplaceConcat(a: Bytes, b: Bytes, old_: Byte, new_: Bytes)
    ensures ReplaceAll(a + b, old_, new_) == ReplaceAll(a, old_, new_) + ReplaceAll(b, old_, new_)
    decreases |a|
  {
    if a == [] {
      assert a + b == b;
    } else {
      assert (a + b)[1..] == a[1..] + b;
      ReplaceConcat(a[1..], b, old_, new_);
    }
  }

  /** The "+" that is rewritten to "%20" only ever stands for a space: a plus sign itself is
      percent-encoded first. */
  lemma EscapeStep(s: Bytes)
    requires s != []
    ensures Escape(s) == EscapeByte(s[0]) + Escape(s[1..])
  {
    var c := s[0];
    var head := if c == ' ' then ['+'] else EscapeByte(c);
    assert QueryEscape(s) == head + QueryEscape(s[1..]);
    ReplaceConcat(head, QueryEscape(s[1..]), '+', ['%', '2', '0']);
    PlusOnlyForSpace(c);
  }

  lemma PlusOnlyForSpace(c: Byte)
    ensures ReplaceAll(if c == ' ' then ['+'] else EscapeByte(c), '+', ['%', '2', '0']) == EscapeByte(c)
  {
    var e := EscapeByte(c);
    if c == ' ' {
      assert ['+'][1..] == [];
      assert e == ['%', '2', '0'];
    } else {
      ReplaceAbsent(e, '+', ['%', '2', '0']);
    }
  }

  lemma {:induction false} ReplaceAbsent(s: Bytes, old_: Byte, new_: Bytes)
    requires old_ !in s
    ensures ReplaceAll(s, old_, new_) == s
    decreases |s|
  {
    if s != [] {
      ReplaceAbsent(s[1..], old_, new_);
    }
  }

  lemma UnreservedExactly(c: Byte)
    ensures Unreserved(c) <==>
      || c in "ABCDEFGHIJKLMNOPQRSTUVWXYZ" || c in "abcdefghijklmnopqrstuvwxyz" || c in "0123456789"
      || c == '-' || c == '_' || c == '.' || c == '~'
  {
    CapitalExactly(c);
    SmallExactly(c);
    assert '0' <= c <= '9' ==> "0123456789"[c as int - 48] == c;
  }

  lemma CapitalExactly(c: Byte)
    ensures c in "ABCDEFGHIJKLMNOPQRSTUVWXYZ" <==> 'A' <= c <= 'Z'
  {
    assert 'A' <= c <= 'Z' ==> "ABCDEFGHIJKLMNOPQRSTUVWXYZ"[c as int - 65] == c;
  }

  lemma SmallExactly(c: Byte)
    ensures c in "abcdefghijklmnopqrstuvwxyz" <==> 'a' <= c <= 'z'
  {
    assert 'a' <= c <= 'z' ==> "abcdefghijklmnopqrstuvwxyz"[c as int - 97] == c;
  }

  /** Hexadecimal digits are written in capitals. */
  lemma HexDigitExactly(n: nat)
    requires n < 16
    ensures HexDigit(n) == "0123456789ABCDEF"[n]
  {
  }

  /** Only letters change case, and to the same letter. */
  lemma CaseExactly(c: Byte)
    ensures LowerByte(c) == if 'A' <= c <= 'Z' then "abcdefghijklmnopqrstuvwxyz"[c as int - 65] else c
    ensures UpperByte(c) == if 'a' <= c <= 'z' then "ABCDEFGHIJKLMNOPQRSTUVWXYZ"[c as int - 97] else c
  {
  }

  lemma HexRoundTrip(n: nat)
    requires n < 16
    ensures HexValue(HexDigit(n)) == Some(n)
  {
  }

  lemma DecodeByte(c: Byte, rest: Bytes)
    requires PercentDecode(rest).Some?
    ensures PercentDecode(EscapeByte(c) + rest) == Some([c] + PercentDecode(rest).value)
  {
    var t := EscapeByte(c) + rest;
    if Unreserved(c) {
      assert t[1..] == rest;
    } else {
      HexRoundTrip(c as int / 16);
      HexRoundTrip(c as int % 16);
      assert t[3..] == rest;
      hide HexDigit, HexValue;
    }
  }

  /** Percent-decoding undoes `Escape`, for every byte string. */
  lemma {:induction false} EscapeRoundTrip(s: Bytes)
    ensures PercentDecode(Escape(s)) == Some(s)
    decreases |s|
  {
    if s != [] {
      EscapeStep(s);
      EscapeRoundTrip(s[1..]);
      hide PercentDecode, Escape, EscapeByte;
      DecodeByte(s[0], Escape(s[1..]));
      assert s == [s[0]] + s[1..];
    }
  }

  /** What `Escape` puts out is unreserved but for the percent signs it adds. */
  lemma {:induction false} EscapedIsUnreserved(s: Bytes)
    ensures forall c :: c in Escape(s) ==> Unreserved(c) || c == '%'
    decreases |s|
  {
    if s != [] {
      EscapeStep(s);
      EscapedIsUnreserved(s[1..]);
    }
  }
}
