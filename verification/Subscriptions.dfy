/** The remembered subscription set of streaming/stream.go and its replay after a reconnect.
    A set maps each key, a symbol of a category and a data type, to the options it was
    subscribed with. */
module Subscriptions {
  type Symbol = string
  type Category = string
  type SubType = string

  const US_STOCK: Category := "US_STOCK"

  datatype SubKey = SubKey(symbol: Symbol, category: Category, subType: SubType)

  datatype Subscription = Subscription(depth: int, snapshot: bool, overnight: bool)

  datatype SubscribeRequest = SubscribeRequest(symbols: seq<Symbol>, category: Category, types: seq<SubType>,
                                               opts: Subscription)

  datatype UnsubscribeRequest = UnsubscribeRequest(symbols: seq<Symbol>, category: Category, types: seq<SubType>,
                                                   all: bool)

  type Subs = map<SubKey, Subscription>

  function NormalCategory(c: Category): Category {
    if c == "" then US_STOCK else c
  }

  predicate Covers(symbols: seq<Symbol>, category: Category, types: seq<SubType>, k: SubKey) {
    k.symbol in symbols && k.category == NormalCategory(category) && k.subType in types
  }

  predicate Requests(req: SubscribeRequest, k: SubKey) {
    Covers(req.symbols, req.category, req.types, k)
  }

  predicate Cancels(req: UnsubscribeRequest, k: SubKey) {
    req.all || Covers(req.symbols, req.category, req.types, k)
  }

  /** The set after subscribing: a requested key gets the request's options, whatever it had. */
  ghost predicate Remembers(subs: Subs, req: SubscribeRequest, subs': Subs) {
    forall k :: (k in subs' <==> k in subs || Requests(req, k))
      && (k in subs' ==> subs'[k] == if Requests(req, k) then req.opts else subs[k])
  }

  ghost predicate Forgets(subs: Subs, req: UnsubscribeRequest, subs': Subs) {
    forall k :: (k in subs' <==> k in subs && !Cancels(req, k)) && (k in subs' ==> subs'[k] == subs[k])
  }

  /** A request without a category is remembered as one for US stocks, any other as it is. */
  lemma CategoryRemembered(req: SubscribeRequest, k: SubKey)
    ensures Requests(req, k) <==>
      && k.symbol in req.symbols && k.subType in req.types
      && (if req.category == "" then k.category == "US_STOCK" else k.category == req.category)
  {
  }

  /** The same as a function: `Remembers` determines its result. */
  function Remembered(subs: Subs, req: SubscribeRequest): (subs': Subs)
    ensures Remembers(subs, req, subs')
  {
    subs +
    map sym, st | sym in req.symbols && st in req.types :: SubKey(sym, NormalCategory(req.category), st) := req.opts
  }

  lemma RememberedUnique(subs: Subs, req: SubscribeRequest, a: Subs, b: Subs)
    requires Remembers(subs, req, a) && Remembers(subs, req, b)
    ensures a == b
  {
    assert a.Keys == b.Keys;
  }

  /** What a server ends up with that is sent these requests one after the other. */
  function Replay(reqs: seq<SubscribeRequest>): Subs {
    if reqs == [] then map[] else Remembered(Replay(reqs[..|reqs| - 1]), reqs[|reqs| - 1])
  }

  /** Every remembered category is the one it was sent as; `remember` never stores another. */
  predicate Normal(subs: Subs) {
    forall k :: k in subs ==> k.category != ""
  }
}
