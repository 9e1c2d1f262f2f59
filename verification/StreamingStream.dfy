/** `Stream` of streaming/stream.go: the remembered subscriptions and their replay. */
module StreamingStream {
  import opened Subscriptions

  datatype Group = Group(category: Category, opts: Subscription)

  type ByType = map<SubType, seq<Symbol>>

  type ByGroup = map<Group, ByType>

  datatype SubscribeError = NoError | Malformed | SubscribeFailed

  function GroupOf(subs: Subs, k: SubKey): Group
    requires k in subs
  {
    Group(k.category, subs[k])
  }

  predicate Distinct(symbols: seq<Symbol>) {
    forall i, j :: 0 <= i < j < |symbols| ==> symbols[i] != symbols[j]
  }

  predicate Listed(byGroup: ByGroup, g: Group, st: SubType, sym: Symbol) {
    g in byGroup && st in byGroup[g] && sym in byGroup[g][st]
  }

  /** `byGroup` sorts exactly the keys `done` of `subs`, each once. */
  ghost predicate Sorts(byGroup: ByGroup, subs: Subs, done: set<SubKey>) {
    && (forall k :: k in done ==> k in subs && Listed(byGroup, GroupOf(subs, k), k.subType, k.symbol))
    && (forall g, st, sym :: Listed(byGroup, g, st, sym) ==>
          SubKey(sym, g.category, st) in done && subs[SubKey(sym, g.category, st)] == g.opts)
    && (forall g, st :: g in byGroup && st in byGroup[g] ==> Distinct(byGroup[g][st]))
  }

  /** The request that replays one type of one group. */
  function RequestFor(byGroup: ByGroup, g: Group, st: SubType): SubscribeRequest
    requires g in byGroup && st in byGroup[g]
  {
    SubscribeRequest(byGroup[g][st], g.category, [st], g.opts)
  }

  /** The remembered keys of one group and type. */
  ghost function Sharing(subs: Subs, g: Group, st: SubType): set<SubKey> {
    set k | k in subs && GroupOf(subs, k) == g && k.subType == st
  }

  /** `req` has one type and no symbol twice, and asks for all keys of its type that were
      remembered with its category and options, and for no other. */
  ghost predicate AsksRight(subs: Subs, req: SubscribeRequest) {
    && |req.types| == 1 && Distinct(req.symbols)
    && forall k :: Requests(req, k) <==> k in Sharing(subs, Group(req.category, req.opts), req.types[0])
  }

  lemma RequestsExactly(byGroup: ByGroup, subs: Subs, g: Group, st: SubType)
    requires Sorts(byGroup, subs, subs.Keys) && Normal(subs) && g in byGroup && st in byGroup[g]
    ensures AsksRight(subs, RequestFor(byGroup, g, st))
  {
    var req := RequestFor(byGroup, g, st);
    forall k
      ensures Requests(req, k) <==> k in Sharing(subs, g, st)
    {
      assert Requests(req, k) <==>
        k.symbol in byGroup[g][st] && k.category == NormalCategory(g.category) && k.subType == st;
      if k.symbol in byGroup[g][st] {
        assert Listed(byGroup, g, st, k.symbol);
      }
    }
  }

  function Failures(outcomes: seq<bool>): nat {
    if outcomes == [] then 0
    else Failures(outcomes[..|outcomes| - 1]) + (if outcomes[|outcomes| - 1] then 0 else 1)
  }

  lemma {:induction false} FailuresExactly(outcomes: seq<bool>)
    ensures Failures(outcomes) == multiset(outcomes)[false]
    decreases |outcomes|
  {
    if outcomes != [] {
      var n := |outcomes| - 1;
      FailuresExactly(outcomes[..n]);
      assert outcomes == outcomes[..n] + [outcomes[n]];
    }
  }

  /** One request of `reqs` asks for k, and only one. */
  ghost predicate CoveredOnce(reqs: seq<SubscribeRequest>, k: SubKey) {
    && (exists i :: 0 <= i < |reqs| && Requests(reqs[i], k))
    && (forall i, j :: 0 <= i < j < |reqs| && Requests(reqs[i], k) ==> !Requests(reqs[j], k))
  }

  function Restrict(subs: Subs, keys: set<SubKey>): Subs
    requires keys <= subs.Keys
  {
    map k | k in keys :: subs[k]
  }

  /** `req` asks for exactly the keys `batch`, with their options. */
  ghost predicate AsksFor(subs: Subs, req: SubscribeRequest, batch: set<SubKey>) {
    AsksRight(subs, req) && batch == Sharing(subs, Group(req.category, req.opts), req.types[0])
  }

  /** The batches cut `sent` into disjoint parts. */
  ghost predicate Parts(batches: seq<set<SubKey>>, sent: set<SubKey>) {
    && (forall k :: k in sent ==> exists i :: 0 <= i < |batches| && k in batches[i])
    && (forall i :: 0 <= i < |batches| ==> batches[i] <= sent)
    && (forall i, j :: 0 <= i < j < |batches| ==> batches[i] !! batches[j])
  }

  lemma PartsOneMore(batches: seq<set<SubKey>>, sent: set<SubKey>, batch: set<SubKey>)
    requires Parts(batches, sent) && batch !! sent
    ensures Parts(batches + [batch], sent + batch)
  {
    var batches' := batches + [batch];
    forall k | k in sent + batch
      ensures exists i :: 0 <= i < |batches'| && k in batches'[i]
    {
      if k in sent {
        var i :| 0 <= i < |batches| && k in batches[i];
        assert k in batches'[i];
      } else {
        assert k in batches'[|batches|];
      }
    }
  }

  ghost predicate AskInTurn(subs: Subs, reqs: seq<SubscribeRequest>, batches: seq<set<SubKey>>) {
    |batches| == |reqs| && forall i :: 0 <= i < |reqs| ==> AsksFor(subs, reqs[i], batches[i])
  }

  lemma PartsCoverOnce(subs: Subs, reqs: seq<SubscribeRequest>, batches: seq<set<SubKey>>, k: SubKey)
    requires AskInTurn(subs, reqs, batches) && Parts(batches, subs.Keys) && k in subs
    ensures CoveredOnce(reqs, k)
  {
    var i :| 0 <= i < |batches| && k in batches[i];
    assert AsksFor(subs, reqs[i], batches[i]);
    forall j | 0 <= j < |reqs| && j != i
      ensures !Requests(reqs[j], k)
    {
      assert AsksFor(subs, reqs[j], batches[j]);
      assert batches[i] !! batches[j];
    }
  }

  lemma ReplayOneMore(subs: Subs, reqs: seq<SubscribeRequest>, sent: set<SubKey>, req: SubscribeRequest,
                      batch: set<SubKey>)
    requires sent <= subs.Keys && Replay(reqs) == Restrict(subs, sent) && AsksFor(subs, req, batch)
    ensures Replay(reqs + [req]) == Restrict(subs, sent + batch)
  {
    assert (reqs + [req])[..|reqs|] == reqs;
    assert Remembers(Replay(reqs), req, Remembered(Replay(reqs), req));
    RememberedUnique(Replay(reqs), req, Replay(reqs + [req]), Restrict(subs, sent + batch));
  }

  /** What `Resubscribe` keeps while it works through its groups and types: the requests
      made so far replay the keys `sent`, in disjoint batches. */
  ghost predicate Progress(subs: Subs, reqs: seq<SubscribeRequest>, outcomes: seq<bool>, batches: seq<set<SubKey>>,
                           sent: set<SubKey>) {
    && sent <= subs.Keys && Replay(reqs) == Restrict(subs, sent)
    && Parts(batches, sent) && AskInTurn(subs, reqs, batches)
    && |outcomes| == |reqs|
  }

  lemma ProgressOneMore(subs: Subs, reqs: seq<SubscribeRequest>, outcomes: seq<bool>, batches: seq<set<SubKey>>,
                        sent: set<SubKey>, req: SubscribeRequest, ok: bool, batch: set<SubKey>)
    requires Progress(subs, reqs, outcomes, batches, sent) && AsksFor(subs, req, batch) && batch !! sent
    ensures Progress(subs, reqs + [req], outcomes + [ok], batches + [batch], sent + batch)
    ensures Failures(outcomes + [ok]) == Failures(outcomes) + (if ok then 0 else 1)
  {
    PartsOneMore(batches, sent, batch);
    ReplayOneMore(subs, reqs, sent, req, batch);
    assert (outcomes + [ok])[..|outcomes|] == outcomes;
  }

  ghost predicate AskedRight(subs: Subs, reqs: seq<SubscribeRequest>) {
    forall i :: 0 <= i < |reqs| ==> AsksRight(subs, reqs[i])
  }

  lemma Complete(subs: Subs, reqs: seq<SubscribeRequest>, outcomes: seq<bool>, batches: seq<set<SubKey>>)
    requires Progress(subs, reqs, outcomes, batches, subs.Keys)
    ensures Replay(reqs) == subs && AskedRight(subs, reqs)
    ensures forall k :: k in subs ==> CoveredOnce(reqs, k)
  {
    assert Restrict(subs, subs.Keys) == subs;
    forall i | 0 <= i < |reqs|
      ensures AsksRight(subs, reqs[i])
    {
      assert AsksFor(subs, reqs[i], batches[i]);
    }
    forall k | k in subs
      ensures CoveredOnce(reqs, k)
    {
      PartsCoverOnce(subs, reqs, batches, k);
    }
  }

  // ---------- how long the requests are ----------

  /** The most symbols a request may have, by its documentation. */
  const MAX_SYMBOLS := 100

  ghost function KeysOf(symbols: seq<Symbol>, category: Category, st: SubType): set<SubKey> {
    set sym | sym in symbols :: SubKey(sym, category, st)
  }

  lemma {:induction false} CountKeys(symbols: seq<Symbol>, category: Category, st: SubType)
    requires Distinct(symbols)
    ensures |KeysOf(symbols, category, st)| == |symbols|
    decreases |symbols|
  {
    if symbols != [] {
      var n := |symbols| - 1;
      CountKeys(symbols[..n], category, st);
      assert symbols == symbols[..n] + [symbols[n]];
      assert KeysOf(symbols, category, st) == KeysOf(symbols[..n], category, st) + {SubKey(symbols[n], category, st)};
    }
  }

  /** A replayed request has a symbol for each key of its group and type. */
  lemma SymbolCount(subs: Subs, req: SubscribeRequest)
    requires AsksRight(subs, req)
    ensures |req.symbols| == |Sharing(subs, Group(req.category, req.opts), req.types[0])|
  {
    var keys := KeysOf(req.symbols, NormalCategory(req.category), req.types[0]);
    CountKeys(req.symbols, NormalCategory(req.category), req.types[0]);
    assert forall k :: k in keys <==> Requests(req, k);
    assert keys == Sharing(subs, Group(req.category, req.opts), req.types[0]);
  }

  /** At most MAX_SYMBOLS remembered keys share their category, options and type. */
  ghost predicate Fits(subs: Subs) {
    forall k :: k in subs ==> |Sharing(subs, GroupOf(subs, k), k.subType)| <= MAX_SYMBOLS
  }

  ghost predicate AllShort(reqs: seq<SubscribeRequest>) {
    forall i :: 0 <= i < |reqs| ==> |reqs[i].symbols| <= MAX_SYMBOLS
  }

  /** A replay keeps to the documented length exactly if the remembered set does. */
  lemma ShortExactly(subs: Subs, reqs: seq<SubscribeRequest>)
    requires AskedRight(subs, reqs) && forall k :: k in subs ==> CoveredOnce(reqs, k)
    ensures AllShort(reqs) <==> Fits(subs)
  {
    forall i | 0 <= i < |reqs| && Fits(subs)
      ensures |reqs[i].symbols| <= MAX_SYMBOLS
    {
      var req := reqs[i];
      SymbolCount(subs, req);
      if req.symbols != [] {
        var k := SubKey(req.symbols[0], NormalCategory(req.category), req.types[0]);
        assert Requests(req, k);
        assert k in Sharing(subs, Group(req.category, req.opts), req.types[0]);
      }
    }
    forall k | k in subs && AllShort(reqs)
      ensures |Sharing(subs, GroupOf(subs, k), k.subType)| <= MAX_SYMBOLS
    {
      var i :| 0 <= i < |reqs| && Requests(reqs[i], k);
      SymbolCount(subs, reqs[i]);
    }
  }

  /** The symbols A, AA, AAA and so on. */
  function Symbols(n: nat): (symbols: seq<Symbol>)
    ensures |symbols| == n && Distinct(symbols)
  {
    var symbols := seq(n, i requires 0 <= i < n => seq(i + 1, _ => 'A'));
    assert forall i :: 0 <= i < n ==> |symbols[i]| == i + 1;
    symbols
  }

  /** A set of one category, type and options is replayed by one request, however many
      symbols it has. */
  lemma OneGroupOneRequest(all: seq<Symbol>, st: SubType, opts: Subscription, subs: Subs, reqs: seq<SubscribeRequest>)
    requires all != [] && Distinct(all)
    requires forall k :: k in subs <==> k.symbol in all && k.category == US_STOCK && k.subType == st
    requires forall k :: k in subs ==> subs[k] == opts
    ensures |all| > MAX_SYMBOLS ==> !Fits(subs)
    ensures AskedRight(subs, reqs) && (forall k :: k in subs ==> CoveredOnce(reqs, k)) ==>
      exists i :: 0 <= i < |reqs| && |reqs[i].symbols| == |all|
  {
    var g := Group(US_STOCK, opts);
    CountKeys(all, US_STOCK, st);
    assert Sharing(subs, g, st) == KeysOf(all, US_STOCK, st);
    var key := SubKey(all[0], US_STOCK, st);
    assert key in subs && GroupOf(subs, key) == g;
    if AskedRight(subs, reqs) && forall k :: k in subs ==> CoveredOnce(reqs, k) {
      assert CoveredOnce(reqs, key);
      var i :| 0 <= i < |reqs| && Requests(reqs[i], key);
      SymbolCount(subs, reqs[i]);
    }
  }

  /** So it does not hold of every set that requests of documented length build: after one for
      a hundred symbols and one for another, each replay makes a request for all 101. */
  lemma OverlongReplay(st: SubType, opts: Subscription, reqs: seq<SubscribeRequest>)
    ensures var first := SubscribeRequest(Symbols(101)[..100], US_STOCK, [st], opts);
      var second := SubscribeRequest(Symbols(101)[100..], US_STOCK, [st], opts);
      var subs := Remembered(Remembered(map[], first), second);
      && |first.symbols| <= MAX_SYMBOLS && |second.symbols| <= MAX_SYMBOLS && !Fits(subs)
      && (AskedRight(subs, reqs) && (forall k :: k in subs ==> CoveredOnce(reqs, k)) ==>
            exists i :: 0 <= i < |reqs| && |reqs[i].symbols| == 101)
  {
    hide Symbols, Fits, AskedRight, CoveredOnce;
    var all := Symbols(101);
    var first := SubscribeRequest(all[..100], US_STOCK, [st], opts);
    var second := SubscribeRequest(all[100..], US_STOCK, [st], opts);
    var subs := Remembered(Remembered(map[], first), second);
    assert all == all[..100] + all[100..];
    OneGroupOneRequest(all, st, opts, subs, reqs);
  }

  // ---------- the loops ----------

  lemma EveryGroupListed(byGroup: ByGroup, subs: Subs)
    requires Sorts(byGroup, subs, subs.Keys)
    ensures forall k :: k in subs ==> GroupOf(subs, k) in byGroup
  {
  }

  lemma NothingToReplay()
    ensures Failures([]) == 0 && AskedRight(map[], []) && AllShort([]) && Fits(map[])
  {
  }

  ghost function GroupKeysOf(subs: Subs, g: Group): set<SubKey> {
    set k | k in subs && GroupOf(subs, k) == g
  }

  ghost function SentOf(subs: Subs, g: Group, left: set<SubType>): set<SubKey> {
    set k | k in subs && GroupOf(subs, k) == g && k.subType !in left
  }

  lemma AllSent(byGroup: ByGroup, subs: Subs, g: Group)
    requires Sorts(byGroup, subs, subs.Keys) && g in byGroup
    ensures SentOf(subs, g, {}) == GroupKeysOf(subs, g)
    ensures SentOf(subs, g, byGroup[g].Keys) == {}
  {
    forall k | k in subs && GroupOf(subs, k) == g
      ensures k.subType in byGroup[g]
    {
      assert Listed(byGroup, g, k.subType, k.symbol);
    }
  }

  class Stream {
    var subs: Subs
    var dropped: nat

    constructor ()
      ensures subs == map[] && dropped == 0 && Normal(subs)
    {
      subs, dropped := map[], 0;
    }

    method Remember(req: SubscribeRequest)
      modifies this`subs
      ensures Remembers(old(subs), req, subs)
      ensures old(Normal(subs)) ==> Normal(subs)
    {
      for i := 0 to |req.symbols|
        invariant Remembers(old(subs), req.(symbols := req.symbols[..i]), subs)
      {
        var sym := req.symbols[i];
        assert req.symbols[..i + 1] == req.symbols[..i] + [sym];
        ghost var before := subs;
        for j := 0 to |req.types|
          invariant Remembers(before, SubscribeRequest([sym], req.category, req.types[..j], req.opts), subs)
        {
          assert req.types[..j + 1] == req.types[..j] + [req.types[j]];
          subs := subs[SubKey(sym, NormalCategory(req.category), req.types[j]) := req.opts];
        }
        assert req.types[..|req.types|] == req.types;
      }
      assert req.symbols[..|req.symbols|] == req.symbols;
    }

    method Forget(req: UnsubscribeRequest)
      modifies this`subs
      ensures Forgets(old(subs), req, subs)
      ensures old(Normal(subs)) ==> Normal(subs)
    {
      if req.all {
        subs := map[];
        return;
      }
      for i := 0 to |req.symbols|
        invariant Forgets(old(subs), req.(symbols := req.symbols[..i]), subs)
      {
        var sym := req.symbols[i];
        assert req.symbols[..i + 1] == req.symbols[..i] + [sym];
        ghost var before := subs;
        for j := 0 to |req.types|
          invariant Forgets(before, UnsubscribeRequest([sym], req.category, req.types[..j], false), subs)
        {
          assert req.types[..j + 1] == req.types[..j] + [req.types[j]];
          subs := subs - {SubKey(sym, NormalCategory(req.category), req.types[j])};
        }
        assert req.types[..|req.types|] == req.types;
      }
      assert req.symbols[..|req.symbols|] == req.symbols;
    }

    /** `accepted` is the outcome of the HTTP call, which is made only for a well-formed request. */
    method Subscribe(req: SubscribeRequest, accepted: bool) returns (err: SubscribeError)
      modifies this`subs
      ensures err == (if req.symbols == [] || req.types == [] then Malformed
                      else if accepted then NoError else SubscribeFailed)
      ensures if err.NoError? then Remembers(old(subs), req, subs) else subs == old(subs)
      ensures old(Normal(subs)) ==> Normal(subs)
    {
      if |req.symbols| == 0 || |req.types| == 0 {
        return Malformed;
      }
      if !accepted {
        return SubscribeFailed;
      }
      Remember(req);
      return NoError;
    }

    method Unsubscribe(req: UnsubscribeRequest, accepted: bool) returns (err: SubscribeError)
      modifies this`subs
      ensures err == (if !req.all && (req.symbols == [] || req.types == []) then Malformed
                      else if accepted then NoError else SubscribeFailed)
      ensures if err.NoError? then Forgets(old(subs), req, subs) else subs == old(subs)
      ensures old(Normal(subs)) ==> Normal(subs)
    {
      if !req.all {
        if |req.symbols| == 0 || |req.types| == 0 {
          return Malformed;
        }
      }
      if !accepted {
        return SubscribeFailed;
      }
      Forget(req);
      return NoError;
    }

    /** Sorts the remembered keys by options and then by type, in whatever order the map
        gives them. */
    method GroupKeys() returns (byGroup: ByGroup)
      ensures Sorts(byGroup, subs, subs.Keys)
    {
      byGroup := map[];
      var left := subs.Keys;
      while left != {}
        invariant left <= subs.Keys
        invariant Sorts(byGroup, subs, subs.Keys - left)
        decreases left
      {
        var k :| k in left;
        var g := Group(k.category, subs[k]);
        if g !in byGroup {
          byGroup := byGroup[g := map[]];
        }
        var symbols := if k.subType in byGroup[g] then byGroup[g][k.subType] else [];
        assert k.symbol !in symbols;
        byGroup := byGroup[g := byGroup[g][k.subType := symbols + [k.symbol]]];
        left := left - {k};
      }
      assert subs.Keys - left == subs.Keys;
    }

    /** The inner loop of `Resubscribe`: one request for each type of group g. */
    method ReplayGroup(byGroup: ByGroup, g: Group, reqs0: seq<SubscribeRequest>, outcomes0: seq<bool>,
                       ghost batches0: seq<set<SubKey>>, ghost sent0: set<SubKey>)
      returns (reqs: seq<SubscribeRequest>, outcomes: seq<bool>, ghost batches: seq<set<SubKey>>)
      requires Normal(subs) && Sorts(byGroup, subs, subs.Keys) && g in byGroup
      requires Progress(subs, reqs0, outcomes0, batches0, sent0)
      requires forall k :: k in sent0 ==> GroupOf(subs, k) != g
      modifies this`dropped
      ensures Progress(subs, reqs, outcomes, batches, sent0 + GroupKeysOf(subs, g))
      ensures dropped + Failures(outcomes0) == old(dropped) + Failures(outcomes)
    {
      hide Progress, Sorts;
      reqs, outcomes, batches := reqs0, outcomes0, batches0;
      ghost var subs := this.subs;
      var types := byGroup[g].Keys;
      ghost var sent := sent0;
      AllSent(byGroup, subs, g);
      while types != {}
        invariant types <= byGroup[g].Keys
        invariant sent == sent0 + SentOf(subs, g, types)
        invariant Progress(subs, reqs, outcomes, batches, sent)
        invariant dropped + Failures(outcomes0) == old(dropped) + Failures(outcomes)
        decreases types
      {
        var st :| st in types;
        var req := RequestFor(byGroup, g, st);
        ghost var batch := Sharing(subs, g, st);
        RequestsExactly(byGroup, subs, g, st);
        var ok: bool := *;
        ProgressOneMore(subs, reqs, outcomes, batches, sent, req, ok, batch);
        assert sent + batch == sent0 + SentOf(subs, g, types - {st});
        types := types - {st};
        sent, batches := sent + batch, batches + [batch];
        reqs, outcomes := reqs + [req], outcomes + [ok];
        if !ok {
          dropped := dropped + 1;
        }
      }
    }

    /** Replays the remembered set after a reconnect, one request a group and type, and
        counts the requests that fail. */
    method Resubscribe() returns (reqs: seq<SubscribeRequest>, outcomes: seq<bool>)
      requires Normal(subs)
      modifies this`dropped
      ensures Replay(reqs) == subs
      ensures forall k :: k in subs ==> CoveredOnce(reqs, k)
      ensures AskedRight(subs, reqs) && (AllShort(reqs) <==> Fits(subs))
      ensures |outcomes| == |reqs| && dropped == old(dropped) + multiset(outcomes)[false]
    {
      hide AllShort, Fits, CoveredOnce, AskedRight, Sorts, Failures;
      reqs, outcomes := [], [];
      NothingToReplay();
      if subs == map[] {
        FailuresExactly(outcomes);
        return;
      }
      var byGroup := GroupKeys();
      var groups := byGroup.Keys;
      EveryGroupListed(byGroup, subs);
      ghost var batches: seq<set<SubKey>> := [];
      ghost var sent: set<SubKey> := {};
      while groups != {}
        invariant groups <= byGroup.Keys
        invariant sent == set k | k in subs && GroupOf(subs, k) !in groups
        invariant Progress(subs, reqs, outcomes, batches, sent)
        invariant dropped == old(dropped) + Failures(outcomes)
        decreases groups
      {
        var g :| g in groups;
        groups := groups - {g};
        reqs, outcomes, batches := ReplayGroup(byGroup, g, reqs, outcomes, batches, sent);
        sent := sent + GroupKeysOf(subs, g);
      }
      assert sent == subs.Keys;
      Complete(subs, reqs, outcomes, batches);
      ShortExactly(subs, reqs);
      FailuresExactly(outcomes);
    }
  }
}
