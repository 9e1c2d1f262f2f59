/** `Order` as an object, prepared in place (trade/orders.go, trade/assets.go). Its legs are a
    slice: references to cells, which other orders may refer to as well. */
module OrderObject {
  import opened Options
  import opened Decimals
  import opened Orders

  /** One element of the storage behind a slice of legs. */
  class LegRef {
    var leg: Leg

    constructor (leg: Leg)
      ensures this.leg == leg
    {
      this.leg := leg;
    }
  }

  function LegValues(legs: seq<LegRef>): (values: seq<Leg>)
    reads legs
    ensures |values| == |legs| && forall i :: 0 <= i < |legs| ==> values[i] == legs[i].leg
  {
    seq(|legs|, i requires 0 <= i < |legs| reads legs => legs[i].leg)
  }

  class OrderRef {
    /** All fields but the legs. */
    var o: Order
    var legs: seq<LegRef>

    /** A slice's elements are different cells. */
    ghost predicate Valid()
      reads this
    {
      o.legs == [] && forall i, j :: 0 <= i < j < |legs| ==> legs[i] != legs[j]
    }

    function Value(): (v: Order)
      reads this, legs
      ensures v == o.(legs := LegValues(legs))
    {
      o.(legs := LegValues(legs))
    }

    /** Copying an order, as `*order` does, copies the slice and not what is in it. */
    constructor (o: Order, legs: seq<LegRef>)
      requires o.legs == [] && forall i, j :: 0 <= i < j < |legs| ==> legs[i] != legs[j]
      ensures Valid() && this.o == o && this.legs == legs
    {
      this.o, this.legs := o, legs;
    }

    /** Counts the problems the asset rules find, on top of those found already. */
    method ValidateAsset(problems: nat) returns (problems': nat)
      ensures problems' >= problems
      ensures problems' == problems <==> AssetOk(Value())
    {
      problems' := problems;
      var found := RuleFor(o.instrument);
      if found.None? {
        return;
      }
      var rule := found.value;
      if o.side in KNOWN_SIDES && o.side !in rule.sides {
        problems' := problems' + 1;
      }
      if o.orderType in KNOWN_TYPES && o.orderType !in rule.orderTypes {
        problems' := problems' + 1;
      }
      if o.tif in KNOWN_TIFS && o.tif !in rule.tifs {
        problems' := problems' + 1;
      }
      if o.entrust in KNOWN_ENTRUST && o.entrust !in rule.entrust {
        problems' := problems' + 1;
      }
      if rule.maxScale >= 0 && o.quantity.valid && Scale(o.quantity.value) > rule.maxScale {
        problems' := problems' + 1;
      }
      var before := problems';
      for i := 0 to |legs|
        invariant problems' >= before
        invariant problems' == before <==> forall j :: 0 <= j < i ==> WholeContracts(legs[j].leg)
      {
        var leg := legs[i].leg;
        var isOption := leg.instrument.OptionContract? || leg.instrument.NoInstrument?;
        if isOption && leg.quantity.valid && Scale(leg.quantity.value) > 0 {
          problems' := problems' + 1;
        }
      }
      if rule.needOutcome && o.eventOutcome == "" {
        problems' := problems' + 1;
      }
      if !rule.needOutcome && o.eventOutcome != "" {
        problems' := problems' + 1;
      }
      if o.role != Normal && !rule.combos {
        problems' := problems' + 1;
      }
    }

    /** Counts the fields that are missing. */
    method CheckFields() returns (problems: nat)
      ensures problems == 0 <==> FieldsOk(Value())
    {
      problems := 0;
      if o.symbol == "" {
        problems := problems + 1;
      }
      if o.side.NoSide? {
        problems := problems + 1;
      }
      if o.orderType.NoType? {
        problems := problems + 1;
      }
      match o.orderType {
        case Limit =>
          if !o.limitPrice.valid { problems := problems + 1; }
        case LimitOnOpen =>
          if !o.limitPrice.valid { problems := problems + 1; }
        case StopLoss =>
          if !o.stopPrice.valid { problems := problems + 1; }
        case StopLossLimit =>
          if !o.limitPrice.valid || !o.stopPrice.valid { problems := problems + 1; }
        case TrailingStopLoss =>
          if o.trailingType == "" || !o.trailingStopStep.valid { problems := problems + 1; }
        case _ =>
      }
      if o.tif.GTD? && o.expireDate == "" {
        problems := problems + 1;
      }
      if o.entrust.ByQuantity? && !o.quantity.valid {
        problems := problems + 1;
      }
      if o.entrust.ByAmount? && !o.totalCashAmount.valid {
        problems := problems + 1;
      }
    }

    /** Fills in the order's own defaults. */
    method FillDefaults()
      requires Valid()
      modifies this`o
      ensures Valid() && Value() == Filled(old(Value()))
    {
      ghost var v := Value();
      FillFields(v);
      hide Filled;
      assert Filled(v).legs == v.legs by { FilledKeepsLegs(v); }
      assert o.(legs := v.legs) == Filled(v);
    }

    method FillFields(ghost v: Order)
      requires o == v.(legs := []) && |v.legs| == |legs|
      modifies this`o
      ensures o == Filled(v).(legs := [])
    {
      hide Clear;
      ghost var f := Filled(v);
      if o.instrument.NoInstrument? {
        o := o.(instrument := Equity);
        if |legs| > 0 {
          o := o.(instrument := OptionContract);
        }
      }
      assert o == v.(legs := [], instrument := f.instrument);
      if o.role.NoRole? {
        o := o.(role := Normal);
      }
      if o.entrust.NoEntrust? {
        o := o.(entrust := ByQuantity);
        if o.totalCashAmount.valid && !o.quantity.valid {
          o := o.(entrust := ByAmount);
        }
      }
      assert o == v.(legs := [], instrument := f.instrument, role := f.role, entrust := f.entrust);
      if o.market == "" {
        o := o.(market := "US");
      }
      if o.session.NoSession? && o.instrument.Equity? {
        o := o.(session := SessionCore);
      }
      if o.tif.NoTif? {
        o := o.(tif := Day);
      }
      o := o.(quantity := Clear(o.quantity), totalCashAmount := Clear(o.totalCashAmount),
              limitPrice := Clear(o.limitPrice), stopPrice := Clear(o.stopPrice),
              trailingStopStep := Clear(o.trailingStopStep),
              currentAsk := Clear(o.currentAsk), currentBid := Clear(o.currentBid),
              targetVolPercent := Clear(o.targetVolPercent), maxTargetPercent := Clear(o.maxTargetPercent));
    }

    /** Fills in and checks leg i of an option order. */
    method PrepareLeg(i: nat) returns (problems: nat)
      requires i < |legs|
      modifies legs[i]
      ensures legs[i].leg == FilledLeg(o, old(legs[i].leg))
      ensures problems == 0 <==> LegOk(legs[i].leg)
    {
      problems := 0;
      var leg := legs[i];
      if leg.leg.market == "" {
        leg.leg := leg.leg.(market := "US");
      }
      if leg.leg.instrument.NoInstrument? {
        leg.leg := leg.leg.(instrument := OptionContract);
      }
      if leg.leg.side.NoSide? {
        leg.leg := leg.leg.(side := o.side);
      }
      leg.leg := leg.leg.(strikePrice := Clear(leg.leg.strikePrice));
      if leg.leg.instrument.OptionContract? {
        if !leg.leg.quantity.valid {
          leg.leg := leg.leg.(quantity := o.quantity);
        }
        if leg.leg.symbol == "" || !leg.leg.strikePrice.valid || leg.leg.expireDate == "" || leg.leg.optionType == "" {
          problems := problems + 1;
        }
      } else if leg.leg.instrument.Equity? {
        if leg.leg.symbol == "" {
          problems := problems + 1;
        }
        if !leg.leg.quantity.valid {
          problems := problems + 1;
        }
      } else {
        problems := problems + 1;
      }
    }

    /** Fills in and checks the strategy and the legs of an option order. */
    method PrepareOption() returns (problems: nat)
      requires Valid() && o.instrument.OptionContract?
      modifies this`o, legs
      ensures Valid() && Value() == FilledOption(old(Value()))
      ensures problems == 0 <==> StrategyOk(Value()) && forall i :: 0 <= i < |legs| ==> LegOk(legs[i].leg)
    {
      problems := CheckStrategy();
      ghost var o1 := o;
      var before := problems;
      for i := 0 to |legs|
        invariant o == o1
        invariant forall j :: 0 <= j < i ==> legs[j].leg == FilledLeg(o1, old(legs[j].leg))
        invariant forall j :: i <= j < |legs| ==> legs[j].leg == old(legs[j].leg)
        invariant problems >= before
        invariant problems == before <==> forall j :: 0 <= j < i ==> LegOk(legs[j].leg)
      {
        var found := PrepareLeg(i);
        problems := problems + found;
      }
      FilledLegsSame(old(Value()), o1);
      assert LegValues(legs) == FilledOption(old(Value())).legs;
    }

    method CheckStrategy() returns (problems: nat)
      requires Valid()
      modifies this`o
      ensures Valid()
      ensures o == old(o).(strategy := if old(o).strategy.NoStrategy? && |legs| == 1 then Single else old(o).strategy)
      ensures problems == 0 <==> StrategyOk(Value())
    {
      problems := 0;
      if |legs| == 0 {
        problems := problems + 1;
      }
      if o.strategy.NoStrategy? && |legs| == 1 {
        o := o.(strategy := Single);
      }
      if o.strategy.NoStrategy? && |legs| > 1 {
        problems := problems + 1;
      }
      if o.strategy.Single? && |legs| != 1 {
        problems := problems + 1;
      }
      if !o.strategy.NoStrategy? && !o.strategy.Single? {
        if |legs| < 2 {
          problems := problems + 1;
        }
        if o.role != Normal {
          problems := problems + 1;
        }
      }
    }

    /** Completes the order in place and says whether it may be sent. `newId` is the id that
        is generated if the order has none. Nothing is written but the order and the cells of
        its legs. */
    method Prepare(newId: string) returns (ok: bool)
      requires Valid() && IdOk(newId)
      modifies this`o, legs
      ensures Valid() && Value() == Prepared(old(Value()), newId)
      ensures ok <==> Acceptable(Value())
    {
      if o.clientOrderID == "" {
        o := o.(clientOrderID := newId);
      }
      if |o.clientOrderID| < ID_MIN || |o.clientOrderID| > ID_MAX {
        return false;
      }
      FillDefaults();
      var problems := CheckFields();
      problems := ValidateAsset(problems);
      AssetRulesSeeTheLegs(Value());
      if o.instrument.OptionContract? {
        FieldsSeeNoLegs(Value());
        var found := PrepareOption();
        problems := problems + found;
      }
      ok := problems == 0;
    }

    /** A second call changes nothing and gives the same verdict. */
    method PrepareTwice(newId: string, otherId: string) returns (first: bool, second: bool)
      requires Valid() && IdOk(newId) && IdOk(otherId)
      modifies this`o, legs
      ensures Value() == Prepared(old(Value()), newId) && first == second
    {
      PreparedIsFixpoint(Value(), newId, otherId);
      first := Prepare(newId);
      second := Prepare(otherId);
    }
  }

  /** Only the order's side and quantity go into a leg. */
  lemma FilledLegsSame(a: Order, b: Order)
    requires a.side == b.side && a.quantity == b.quantity
    ensures forall leg :: FilledLeg(a, leg) == FilledLeg(b, leg)
  {
  }

  lemma FilledKeepsLegs(o: Order)
    ensures Filled(o).legs == o.legs
  {
  }

  lemma FieldsSeeNoLegs(o: Order)
    ensures FieldsOk(o) <==> FieldsOk(FilledOption(o))
  {
  }
}
