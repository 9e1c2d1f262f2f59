/** Orders, the rules that depend on their asset class, and how `prepare` completes and
    checks one (trade/orders.go, trade/assets.go). The source's enumerations are open
    strings: each datatype here has a constructor for the empty string, one for each value
    the source knows, and one for all others. */
module Orders {
  import opened Options
  import opened Decimals

  datatype Side = NoSide | Buy | Sell | Short | OtherSide(wire: string)

  datatype OrderType =
    | NoType | Market | Limit | StopLoss | StopLossLimit | TrailingStopLoss
    | MarketOnOpen | MarketOnClose | LimitOnOpen | OtherType(wire: string)

  datatype TimeInForce = NoTif | Day | GTC | IOC | GTD | FOK | OtherTif(wire: string)

  datatype Role =
    | NoRole | Normal | RoleMaster | RoleStopProfit | RoleStopLoss | RoleOTO | RoleOCO | RoleOTOCO
    | OtherRole(wire: string)

  datatype EntrustType = NoEntrust | ByQuantity | ByAmount | OtherEntrust(wire: string)

  datatype Instrument =
    | NoInstrument | Equity | OptionContract | Futures | Crypto | EventContract | OtherInstrument(wire: string)

  datatype Session = NoSession | SessionCore | OtherSession(wire: string)

  datatype Strategy = NoStrategy | Single | OtherStrategy(wire: string)

  datatype Leg = Leg(
    side: Side, quantity: NullDecimal, market: string, instrument: Instrument,
    symbol: string, strikePrice: NullDecimal, expireDate: string, optionType: string)

  /** `passThrough` stands for the fields that `prepare` neither reads nor writes. */
  datatype Order = Order(
    clientOrderID: string, instrument: Instrument, role: Role, entrust: EntrustType, market: string, session: Session,
    symbol: string, side: Side, orderType: OrderType, tif: TimeInForce, expireDate: string,
    quantity: NullDecimal, totalCashAmount: NullDecimal, limitPrice: NullDecimal, stopPrice: NullDecimal,
    trailingType: string, trailingStopStep: NullDecimal, currentAsk: NullDecimal, currentBid: NullDecimal,
    targetVolPercent: NullDecimal, maxTargetPercent: NullDecimal,
    eventOutcome: string, strategy: Strategy, legs: seq<Leg>, passThrough: seq<string>)

  // ---------- the asset rules ----------

  /** What one asset class permits; a maxScale of -1 permits any precision. */
  datatype AssetRule = AssetRule(
    sides: set<Side>, orderTypes: set<OrderType>, tifs: set<TimeInForce>, entrust: set<EntrustType>,
    maxScale: int, needOutcome: bool, combos: bool)

  const KNOWN_SIDES: set<Side> := {Buy, Sell, Short}
  const KNOWN_TYPES: set<OrderType> :=
    {Market, Limit, StopLoss, StopLossLimit, TrailingStopLoss, MarketOnOpen, MarketOnClose, LimitOnOpen}
  const KNOWN_TIFS: set<TimeInForce> := {Day, GTC, IOC, GTD, FOK}
  const KNOWN_ENTRUST: set<EntrustType> := {ByQuantity, ByAmount}

  function RuleFor(instrument: Instrument): Option<AssetRule> {
    match instrument
    case Equity => Some(AssetRule(KNOWN_SIDES, KNOWN_TYPES, KNOWN_TIFS, KNOWN_ENTRUST, -1, false, true))
    case OptionContract =>
      Some(AssetRule({Buy, Sell, Short}, {Market, Limit, StopLoss, StopLossLimit}, {Day, GTC}, {ByQuantity},
                     0, false, true))
    case Futures =>
      Some(AssetRule({Buy, Sell}, {Market, Limit, StopLoss, StopLossLimit, TrailingStopLoss}, {Day, GTC}, {ByQuantity},
                     0, false, false))
    case Crypto =>
      Some(AssetRule({Buy, Sell}, {Market, Limit, StopLossLimit}, {Day, GTC, IOC}, {ByQuantity, ByAmount},
                     8, false, false))
    case EventContract => Some(AssetRule({Buy, Sell}, {Limit}, KNOWN_TIFS, {ByQuantity}, 2, true, false))
    case _ => None
  }

  /** A value is refused when it is one this SDK knows and the asset class does not permit;
      values it does not know are left to the server. */
  predicate Permits<T(==)>(known: set<T>, allowed: set<T>, x: T) {
    x in known ==> x in allowed
  }

  predicate WholeContracts(leg: Leg) {
    (leg.instrument.OptionContract? || leg.instrument.NoInstrument?) && leg.quantity.valid ==>
      Scale(leg.quantity.value) == 0
  }

  predicate RuleHolds(rule: AssetRule, o: Order) {
    && Permits(KNOWN_SIDES, rule.sides, o.side)
    && Permits(KNOWN_TYPES, rule.orderTypes, o.orderType)
    && Permits(KNOWN_TIFS, rule.tifs, o.tif)
    && Permits(KNOWN_ENTRUST, rule.entrust, o.entrust)
    && (rule.maxScale >= 0 && o.quantity.valid ==> Scale(o.quantity.value) <= rule.maxScale)
    && (forall i :: 0 <= i < |o.legs| ==> WholeContracts(o.legs[i]))
    && (rule.needOutcome <==> o.eventOutcome != "")
    && (o.role != Normal ==> rule.combos)
  }

  predicate AssetOk(o: Order) {
    RuleFor(o.instrument).Some? ==> RuleHolds(RuleFor(o.instrument).value, o)
  }

  // ---------- what an order must say ----------

  const ID_MIN := 10
  const ID_MAX := 40

  predicate IdOk(id: string) {
    ID_MIN <= |id| <= ID_MAX
  }

  /** The fields each order type, time in force and entrust type needs. */
  predicate FieldsOk(o: Order) {
    && o.symbol != "" && !o.side.NoSide? && !o.orderType.NoType?
    && (o.orderType.Limit? || o.orderType.LimitOnOpen? || o.orderType.StopLossLimit? ==> o.limitPrice.valid)
    && (o.orderType.StopLoss? || o.orderType.StopLossLimit? ==> o.stopPrice.valid)
    && (o.orderType.TrailingStopLoss? ==> o.trailingType != "" && o.trailingStopStep.valid)
    && (o.tif.GTD? ==> o.expireDate != "")
    && (o.entrust.ByQuantity? ==> o.quantity.valid)
    && (o.entrust.ByAmount? ==> o.totalCashAmount.valid)
  }

  predicate LegOk(leg: Leg) {
    match leg.instrument
    case OptionContract => leg.symbol != "" && leg.strikePrice.valid && leg.expireDate != "" && leg.optionType != ""
    case Equity => leg.symbol != "" && leg.quantity.valid
    case _ => false
  }

  /** An option order names one leg and is single, or several and a strategy for them, which
      then stays out of groups. */
  predicate StrategyOk(o: Order) {
    match o.strategy
    case NoStrategy => false
    case Single => |o.legs| == 1
    case OtherStrategy(_) => |o.legs| >= 2 && o.role == Normal
  }

  /** What `prepare` accepts, said of the order it leaves behind. */
  predicate Acceptable(o: Order) {
    && IdOk(o.clientOrderID) && FieldsOk(o) && AssetOk(o)
    && (o.instrument.OptionContract? ==> StrategyOk(o) && forall i :: 0 <= i < |o.legs| ==> LegOk(o.legs[i]))
  }

  // ---------- what `prepare` fills in ----------

  function WithId(o: Order, newId: string): Order {
    if o.clientOrderID == "" then o.(clientOrderID := newId) else o
  }

  function InstrumentOf(o: Order): Instrument {
    if !o.instrument.NoInstrument? then o.instrument else if o.legs == [] then Equity else OptionContract
  }

  /** The defaults that go into the order itself, before it is checked. */
  function Filled(o: Order): Order {
    o.(instrument := InstrumentOf(o),
       role := if o.role.NoRole? then Normal else o.role,
       entrust := if !o.entrust.NoEntrust? then o.entrust
                  else if o.totalCashAmount.valid && !o.quantity.valid then ByAmount else ByQuantity,
       market := if o.market == "" then "US" else o.market,
       session := if o.session.NoSession? && InstrumentOf(o).Equity? then SessionCore else o.session,
       tif := if o.tif.NoTif? then Day else o.tif,
       quantity := Clear(o.quantity), totalCashAmount := Clear(o.totalCashAmount),
       limitPrice := Clear(o.limitPrice), stopPrice := Clear(o.stopPrice),
       trailingStopStep := Clear(o.trailingStopStep),
       currentAsk := Clear(o.currentAsk), currentBid := Clear(o.currentBid),
       targetVolPercent := Clear(o.targetVolPercent), maxTargetPercent := Clear(o.maxTargetPercent))
  }

  /** The defaults that go into a leg of an option order. A stock leg never takes the order's
      quantity, which counts contracts. */
  function FilledLeg(o: Order, leg: Leg): Leg {
    var instrument := if leg.instrument.NoInstrument? then OptionContract else leg.instrument;
    leg.(market := if leg.market == "" then "US" else leg.market,
         instrument := instrument,
         side := if leg.side.NoSide? then o.side else leg.side,
         strikePrice := Clear(leg.strikePrice),
         quantity := if instrument.OptionContract? && !leg.quantity.valid then o.quantity else leg.quantity)
  }

  /** The strategy and the legs, filled in only for an option order. */
  function FilledOption(o: Order): Order {
    if !o.instrument.OptionContract? then o
    else o.(strategy := if o.strategy.NoStrategy? && |o.legs| == 1 then Single else o.strategy,
            legs := seq(|o.legs|, i requires 0 <= i < |o.legs| => FilledLeg(o, o.legs[i])))
  }

  /** The order `prepare` leaves behind. One whose id has a bad length is not touched. */
  function Prepared(o: Order, newId: string): Order {
    var o1 := WithId(o, newId);
    if IdOk(o1.clientOrderID) then FilledOption(Filled(o1)) else o1
  }

  /** Checking the asset rules before the legs are filled in gives the same verdict as
      checking them on the finished order: a leg that takes the order's quantity takes one
      the rule has already passed. */
  lemma AssetRulesSeeTheLegs(o: Order)
    ensures AssetOk(o) <==> AssetOk(FilledOption(o))
  {
    var p := FilledOption(o);
    if o.instrument.OptionContract? {
      forall i | 0 <= i < |o.legs|
        ensures (o.quantity.valid ==> Scale(o.quantity.value) == 0) ==>
          (WholeContracts(o.legs[i]) <==> WholeContracts(p.legs[i]))
      {
        assert p.legs[i] == FilledLeg(o, o.legs[i]);
      }
    }
  }

  /** Preparing a prepared order changes nothing and gives the same verdict, whatever id
      the second call would have generated. */
  lemma PreparedIsFixpoint(o: Order, newId: string, otherId: string)
    requires IdOk(newId)
    ensures var p := Prepared(o, newId); Prepared(p, otherId) == p
  {
    var p := Prepared(o, newId);
    if IdOk(p.clientOrderID) {
      assert Filled(p) == p;
      assert FilledOption(p).legs == p.legs;
    }
  }

  /** The verdict as `prepare` reaches it: the asset rules see the order before its legs have
      taken anything from it, the strategy and the legs are checked as they are filled in. */
  predicate Passes(o: Order, newId: string) {
    var o1 := WithId(o, newId);
    var f, p := Filled(o1), FilledOption(Filled(o1));
    && IdOk(o1.clientOrderID) && FieldsOk(f) && AssetOk(f)
    && (f.instrument.OptionContract? ==> StrategyOk(p) && forall i :: 0 <= i < |p.legs| ==> LegOk(p.legs[i]))
  }

  /** That verdict is the one the finished order deserves, and a second call, whatever id it
      would have generated, repeats it. */
  lemma VerdictStands(o: Order, newId: string, otherId: string)
    requires IdOk(newId)
    ensures Passes(o, newId) <==> Acceptable(Prepared(o, newId))
    ensures Passes(Prepared(o, newId), otherId) <==> Passes(o, newId)
  {
    hide AssetOk, StrategyOk, LegOk, Filled;
    PassesMeans(o, newId);
    PreparedIsFixpoint(o, newId, otherId);
    PassesMeans(Prepared(o, newId), otherId);
  }

  lemma PassesMeans(o: Order, newId: string)
    ensures Passes(o, newId) <==> Acceptable(Prepared(o, newId))
  {
    AssetRulesSeeTheLegs(Filled(WithId(o, newId)));
    hide AssetOk, StrategyOk, LegOk, FilledLeg;
  }

  /** `prepare` fills blanks only: what the caller set is kept. */
  lemma PreparedKeepsWhatIsSet(o: Order, newId: string)
    ensures var p := Prepared(o, newId);
      && (o.clientOrderID != "" ==> p.clientOrderID == o.clientOrderID)
      && (!o.instrument.NoInstrument? ==> p.instrument == o.instrument)
      && (!o.role.NoRole? ==> p.role == o.role)
      && (!o.entrust.NoEntrust? ==> p.entrust == o.entrust)
      && (!o.tif.NoTif? ==> p.tif == o.tif)
      && (!o.session.NoSession? ==> p.session == o.session)
      && (!o.strategy.NoStrategy? ==> p.strategy == o.strategy)
      && (o.market != "" ==> p.market == o.market)
      && p.quantity.valid == o.quantity.valid && (o.quantity.valid ==> p.quantity == o.quantity)
      && p.symbol == o.symbol && p.side == o.side && p.orderType == o.orderType
      && p.expireDate == o.expireDate && p.eventOutcome == o.eventOutcome && p.passThrough == o.passThrough
  {
    var f := Filled(WithId(o, newId));
    var p := FilledOption(f);
    assert p == f.(strategy := p.strategy, legs := p.legs);
    assert f.strategy == o.strategy && (!o.strategy.NoStrategy? ==> p.strategy == o.strategy);
    hide FilledOption;
  }

  lemma LegsKeepWhatIsSet(o: Order, newId: string, i: nat)
    requires i < |o.legs|
    ensures |Prepared(o, newId).legs| == |o.legs|
    ensures var (leg, leg') := (o.legs[i], Prepared(o, newId).legs[i]);
      && leg'.symbol == leg.symbol && leg'.expireDate == leg.expireDate && leg'.optionType == leg.optionType
      && (leg.quantity.valid || leg.instrument.Equity? ==> leg'.quantity == leg.quantity)
      && (!leg.side.NoSide? ==> leg'.side == leg.side)
      && (!leg.instrument.NoInstrument? ==> leg'.instrument == leg.instrument)
  {
  }

  // ---------- the defaults and the rules, one by one ----------

  const NOTHING := NullDecimal(Decimal(0, 0), false)

  /** What goes into each field the caller left blank, for an order whose id will do. */
  lemma DefaultsExactly(o: Order, newId: string)
    requires 10 <= |newId| <= 40 && (o.clientOrderID == "" || 10 <= |o.clientOrderID| <= 40)
    ensures var p := Prepared(o, newId);
      && (o.clientOrderID == "" ==> p.clientOrderID == newId)
      && (o.instrument == NoInstrument ==> p.instrument == if o.legs == [] then Equity else OptionContract)
      && (o.role == NoRole ==> p.role == Normal)
      && (o.entrust == NoEntrust ==> (p.entrust == ByAmount <==> o.totalCashAmount.valid && !o.quantity.valid))
      && (o.entrust == NoEntrust ==> p.entrust == ByAmount || p.entrust == ByQuantity)
      && (o.market == "" ==> p.market == "US")
      && (o.session == NoSession ==> p.session == if p.instrument == Equity then SessionCore else NoSession)
      && (o.tif == NoTif ==> p.tif == Day)
      && (o.strategy == NoStrategy ==>
            p.strategy == if p.instrument == OptionContract && |o.legs| == 1 then Single else NoStrategy)
  {
    hide FilledLeg, Clear;
  }

  /** A decimal that is absent is left with no payload, a present one as it is. */
  lemma DecimalsExactly(o: Order, newId: string)
    requires 10 <= |newId| <= 40 && (o.clientOrderID == "" || 10 <= |o.clientOrderID| <= 40)
    ensures var p := Prepared(o, newId);
      && p.quantity == (if o.quantity.valid then o.quantity else NOTHING)
      && p.totalCashAmount == (if o.totalCashAmount.valid then o.totalCashAmount else NOTHING)
      && p.limitPrice == (if o.limitPrice.valid then o.limitPrice else NOTHING)
      && p.stopPrice == (if o.stopPrice.valid then o.stopPrice else NOTHING)
      && p.trailingStopStep == (if o.trailingStopStep.valid then o.trailingStopStep else NOTHING)
      && p.currentAsk == (if o.currentAsk.valid then o.currentAsk else NOTHING)
      && p.currentBid == (if o.currentBid.valid then o.currentBid else NOTHING)
      && p.targetVolPercent == (if o.targetVolPercent.valid then o.targetVolPercent else NOTHING)
      && p.maxTargetPercent == (if o.maxTargetPercent.valid then o.maxTargetPercent else NOTHING)
  {
    var f := Filled(WithId(o, newId));
    var p := FilledOption(f);
    assert Prepared(o, newId) == p && p == f.(strategy := p.strategy, legs := p.legs);
    hide FilledOption, Prepared;
  }

  /** What goes into each field of a leg: only an option order fills its legs, and only an option
      leg takes the order's quantity. */
  lemma LegDefaultsExactly(o: Order, newId: string, i: nat)
    requires 10 <= |newId| <= 40 && (o.clientOrderID == "" || 10 <= |o.clientOrderID| <= 40) && i < |o.legs|
    ensures var (p, leg, leg') := (Prepared(o, newId), o.legs[i], Prepared(o, newId).legs[i]);
      if p.instrument != OptionContract then leg' == leg
      else
        && leg'.market == (if leg.market == "" then "US" else leg.market)
        && leg'.instrument == (if leg.instrument == NoInstrument then OptionContract else leg.instrument)
        && leg'.side == (if leg.side == NoSide then o.side else leg.side)
        && leg'.strikePrice == (if leg.strikePrice.valid then leg.strikePrice else NOTHING)
        && leg'.quantity ==
             (if leg.quantity.valid || leg'.instrument != OptionContract then leg.quantity else p.quantity)
  {
  }

  /** What each order type, time in force and entrust type asks for. */
  predicate Complete(o: Order) {
    && o.symbol != "" && o.side != NoSide
    && (match o.orderType
        case NoType => false
        case Limit => o.limitPrice.valid
        case LimitOnOpen => o.limitPrice.valid
        case StopLoss => o.stopPrice.valid
        case StopLossLimit => o.limitPrice.valid && o.stopPrice.valid
        case TrailingStopLoss => o.trailingType != "" && o.trailingStopStep.valid
        case _ => true)
    && (match o.entrust
        case ByQuantity => o.quantity.valid
        case ByAmount => o.totalCashAmount.valid
        case _ => true)
    && (o.tif == GTD ==> o.expireDate != "")
  }

  /** The quantity has at most this many decimal places. */
  predicate Places(q: NullDecimal, n: nat) {
    q.valid ==> WholeAt(q.value, n)
  }

  /** What each asset class refuses. A class the table does not have refuses nothing. */
  predicate ClassPermits(o: Order) {
    var ungrouped := o.role == Normal && o.side != Short;
    var plain := o.entrust != ByAmount && o.tif !in {IOC, GTD, FOK};
    var atOpenOrClose := o.orderType in {MarketOnOpen, MarketOnClose, LimitOnOpen};
    match o.instrument
    case Equity => true
    case OptionContract => plain && !atOpenOrClose && o.orderType != TrailingStopLoss && Places(o.quantity, 0)
    case Futures => ungrouped && plain && !atOpenOrClose && Places(o.quantity, 0)
    case Crypto =>
      ungrouped && o.tif !in {GTD, FOK} && !atOpenOrClose && o.orderType !in {StopLoss, TrailingStopLoss} &&
      Places(o.quantity, 8)
    case EventContract =>
      ungrouped && o.entrust != ByAmount && !atOpenOrClose &&
      o.orderType !in {Market, StopLoss, StopLossLimit, TrailingStopLoss} && Places(o.quantity, 2)
    case _ => true
  }

  /** Every class of the table wants option legs in whole contracts, and an outcome for an event
      contract and for nothing else. */
  predicate CommonRules(o: Order) {
    o.instrument in {Equity, OptionContract, Futures, Crypto, EventContract} ==>
      && (o.eventOutcome != "" <==> o.instrument == EventContract)
      && forall i :: 0 <= i < |o.legs| && o.legs[i].instrument in {OptionContract, NoInstrument} ==>
           Places(o.legs[i].quantity, 0)
  }

  /** An option order has one leg and is single, or several, with a strategy and no group; each
      leg is an option that is fully named, or stock with its own number of shares. */
  predicate LegsComplete(o: Order) {
    && (|o.legs| == 1 <==> o.strategy == Single) && o.legs != []
    && (|o.legs| > 1 ==> o.strategy != NoStrategy && o.role == Normal)
    && forall i :: 0 <= i < |o.legs| ==>
         var leg := o.legs[i];
         && leg.symbol != "" && leg.instrument in {OptionContract, Equity}
         && (leg.instrument == OptionContract ==> leg.strikePrice.valid && leg.expireDate != "" && leg.optionType != "")
         && (leg.instrument == Equity ==> leg.quantity.valid)
  }

  lemma ClassExactly(o: Order)
    ensures AssetOk(o) <==> ClassPermits(o) && CommonRules(o)
  {
    forall q: NullDecimal, n: nat | q.valid
      ensures Scale(q.value) <= n <==> WholeAt(q.value, n)
    {
      ScaleIsLeast(q.value, n);
    }
    hide Scale, WholeAt;
    assert forall i :: 0 <= i < |o.legs| ==>
      (WholeContracts(o.legs[i]) <==>
        (o.legs[i].instrument in {OptionContract, NoInstrument} ==> Places(o.legs[i].quantity, 0)));
  }

  /** Which orders are accepted, rule by rule. */
  lemma AcceptableExactly(o: Order)
    ensures Acceptable(o) <==>
      && 10 <= |o.clientOrderID| <= 40 && Complete(o) && ClassPermits(o) && CommonRules(o)
      && (o.instrument == OptionContract ==> LegsComplete(o))
  {
    ClassExactly(o);
    hide AssetOk, ClassPermits, CommonRules;
    assert FieldsOk(o) <==> Complete(o);
    hide FieldsOk, Complete;
    assert forall i :: 0 <= i < |o.legs| ==>
      (LegOk(o.legs[i]) <==>
        && o.legs[i].symbol != "" && o.legs[i].instrument in {OptionContract, Equity}
        && (o.legs[i].instrument == OptionContract ==>
              o.legs[i].strikePrice.valid && o.legs[i].expireDate != "" && o.legs[i].optionType != "")
        && (o.legs[i].instrument == Equity ==> o.legs[i].quantity.valid));
  }
}
