/** Orders whose legs lie in shared storage. A Go slice of legs refers to cells, and two orders
    may refer to the same ones: when they were given the same slice, or one was copied from
    the other. Preparing one order then writes into the legs of the other. Here the members of
    a group are named by R, the cells by C, and the orders' values are read off the cells. */
module SharedLegs {
  import opened Decimals
  import opened Orders

  /** An order without its legs. */
  function Bare(o: Order): Order {
    o.(legs := [])
  }

  /** What preparing makes of a leg, given the order as it is prepared. */
  function OwnLeg(p: Order, leg: Leg): Leg {
    if p.instrument.OptionContract? then FilledLeg(p, leg) else leg
  }

  lemma PreparedLegs(o: Order, newId: string)
    requires IdOk(Prepared(o, newId).clientOrderID)
    ensures var p := Prepared(o, newId);
      |p.legs| == |o.legs| && forall i :: 0 <= i < |o.legs| ==> p.legs[i] == OwnLeg(p, o.legs[i])
  {
  }

  lemma OwnLegTwice(p: Order, leg: Leg)
    ensures OwnLeg(p, OwnLeg(p, leg)) == OwnLeg(p, leg)
  {
  }

  // ---------- what sharing cannot change: the verdict ----------

  function KindOf(leg: Leg): Instrument {
    if leg.instrument.NoInstrument? then OptionContract else leg.instrument
  }

  /** Alike in all that the verdict on an order depends on. */
  predicate LegLike(a: Leg, b: Leg) {
    && a.symbol == b.symbol && a.expireDate == b.expireDate && a.optionType == b.optionType
    && a.strikePrice.valid == b.strikePrice.valid && KindOf(a) == KindOf(b)
    && (a.instrument.Equity? ==> a.quantity.valid == b.quantity.valid)
    && (WholeContracts(a) <==> WholeContracts(b))
  }

  predicate Like(a: Order, b: Order) {
    Bare(a) == Bare(b) && |a.legs| == |b.legs| && forall i :: 0 <= i < |a.legs| ==> LegLike(a.legs[i], b.legs[i])
  }

  lemma LikeThrough(a: Order, b: Order, c: Order)
    requires Like(a, b) && Like(b, c)
    ensures Like(a, c)
  {
    forall i | 0 <= i < |a.legs|
      ensures LegLike(a.legs[i], c.legs[i])
    {
      assert LegLike(a.legs[i], b.legs[i]) && LegLike(b.legs[i], c.legs[i]);
    }
  }

  /** An acceptable order writes only what makes no difference to a verdict: the quantity it
      may fill in is one the rule for options has passed. */
  lemma OwnLegLike(p: Order, leg: Leg)
    requires Acceptable(p)
    ensures LegLike(OwnLeg(p, leg), leg)
  {
    if p.instrument.OptionContract? {
      assert RuleFor(OptionContract).value.maxScale == 0;
    }
  }

  lemma PreparedLike(o: Order, newId: string)
    requires Acceptable(Prepared(o, newId))
    ensures var p := Prepared(o, newId);
      |p.legs| == |o.legs| && forall i :: 0 <= i < |o.legs| ==> LegLike(p.legs[i], o.legs[i])
  {
    var p := Prepared(o, newId);
    PreparedLegs(o, newId);
    hide Prepared, Acceptable, LegLike;
    forall i | 0 <= i < |o.legs|
      ensures LegLike(p.legs[i], o.legs[i])
    {
      OwnLegLike(p, o.legs[i]);
    }
  }

  lemma LegOkLike(p: Order, a: Leg, b: Leg)
    requires LegLike(a, b)
    ensures LegOk(FilledLeg(p, a)) <==> LegOk(FilledLeg(p, b))
  {
  }

  /** The legs' contents make no difference to the rest of the order. */
  lemma HeadLike(a: Order, b: Order, newId: string)
    requires Bare(a) == Bare(b) && |a.legs| == |b.legs|
    ensures Bare(Prepared(a, newId)) == Bare(Prepared(b, newId))
    ensures Bare(Filled(WithId(a, newId))) == Bare(Filled(WithId(b, newId)))
    ensures Bare(FilledOption(Filled(WithId(a, newId)))) == Bare(FilledOption(Filled(WithId(b, newId))))
  {
    var a1, b1 := WithId(a, newId), WithId(b, newId);
    assert a == b.(legs := a.legs);
    FilledBare(a1, b1);
    hide Filled;
    FilledOptionBare(Filled(a1), Filled(b1));
    hide FilledOption;
    assert a1.clientOrderID == b1.clientOrderID;
  }

  lemma FilledBare(a: Order, b: Order)
    requires Bare(a) == Bare(b) && |a.legs| == |b.legs|
    ensures Bare(Filled(a)) == Bare(Filled(b)) && |Filled(a).legs| == |Filled(b).legs|
  {
    assert a == b.(legs := a.legs);
    hide Clear;
  }

  lemma FilledOptionBare(a: Order, b: Order)
    requires Bare(a) == Bare(b) && |a.legs| == |b.legs|
    ensures Bare(FilledOption(a)) == Bare(FilledOption(b))
  {
    assert a == b.(legs := a.legs);
  }

  lemma RuleLike(a: Order, b: Order)
    requires Like(a, b)
    ensures AssetOk(a) <==> AssetOk(b)
  {
    assert a == b.(legs := a.legs);
    assert forall i :: 0 <= i < |a.legs| ==> LegLike(a.legs[i], b.legs[i]);
  }

  lemma FieldsLike(a: Order, b: Order)
    requires Bare(a) == Bare(b)
    ensures FieldsOk(a) <==> FieldsOk(b)
    ensures |a.legs| == |b.legs| ==> (StrategyOk(a) <==> StrategyOk(b))
  {
    assert a == b.(legs := a.legs);
  }

  /** Alike orders get the same verdict. */
  lemma VerdictLike(a: Order, b: Order, newId: string)
    requires Like(a, b)
    ensures Acceptable(Prepared(a, newId)) <==> Acceptable(Prepared(b, newId))
  {
    var fa, fb := Filled(WithId(a, newId)), Filled(WithId(b, newId));
    var pa, pb := FilledOption(fa), FilledOption(fb);
    HeadLike(a, b, newId);
    assert fa.legs == a.legs && fb.legs == b.legs;
    assert fa == fb.(legs := fa.legs);
    RuleLike(fa, fb);
    FieldsLike(fa, fb);
    FieldsLike(pa, pb);
    assert |pa.legs| == |pb.legs| == |a.legs|;
    if fa.instrument.OptionContract? {
      forall i | 0 <= i < |a.legs|
        ensures LegOk(pa.legs[i]) <==> LegOk(pb.legs[i])
      {
        assert LegLike(fa.legs[i], fb.legs[i]);
        LegOkLike(fa, fa.legs[i], fb.legs[i]);
        assert pa.legs[i] == FilledLeg(fa, fa.legs[i]);
        assert pb.legs[i] == FilledLeg(fa, fb.legs[i]);
      }
    }
    hide Filled, FilledOption, FieldsOk, AssetOk, StrategyOk, LegOk, LegLike;
    PassesMeans(a, newId);
    PassesMeans(b, newId);
    assert WithId(a, newId).clientOrderID == WithId(b, newId).clientOrderID;
  }

  // ---------- preparing one member after another ----------

  /** Some member before the i-th is the same object. */
  ghost predicate StoodBefore<R>(refs: seq<R>, i: nat)
    requires i < |refs|
  {
    exists j :: 0 <= j < i && refs[j] == refs[i]
  }

  lemma {:induction false} FirstOf<R>(refs: seq<R>, i: nat) returns (f: nat)
    requires i < |refs|
    ensures f <= i && refs[f] == refs[i] && !StoodBefore(refs, f)
    decreases i
  {
    if StoodBefore(refs, i) {
      var j :| 0 <= j < i && refs[j] == refs[i];
      f := FirstOf(refs, j);
    } else {
      f := i;
    }
  }

  /** Values read off one heap: an object has one value, and a cell has one leg. */
  ghost predicate OneHeap<R, C>(refs: seq<R>, cells: seq<seq<C>>, now: seq<Order>) {
    && |refs| == |cells| == |now|
    && (forall i, j :: 0 <= i < |refs| && 0 <= j < |refs| && refs[i] == refs[j] ==>
          cells[i] == cells[j] && now[i] == now[j])
    && LegsAgree(cells, now)
  }

  /** The i-th member has been prepared, and nothing else was touched. */
  ghost predicate PreparesOne<R, C>(refs: seq<R>, cells: seq<seq<C>>, i: nat, newId: string, now: seq<Order>,
                                    now': seq<Order>) {
    && OneHeap(refs, cells, now) && OneHeap(refs, cells, now') && i < |refs|
    && now'[i] == Prepared(now[i], newId)
    && (forall j :: 0 <= j < |refs| && refs[j] != refs[i] ==> Bare(now'[j]) == Bare(now[j]))
    && (forall j, b :: 0 <= j < |refs| && 0 <= b < |cells[j]| && cells[j][b] !in cells[i] ==>
          now'[j].legs[b] == now[j].legs[b])
  }

  /** A leg of any member, then, is as it was or as the prepared member makes it. */
  lemma LegThen<R, C>(refs: seq<R>, cells: seq<seq<C>>, i: nat, newId: string, now: seq<Order>, now': seq<Order>,
                      j: nat, b: nat)
    requires PreparesOne(refs, cells, i, newId, now, now') && IdOk(now'[i].clientOrderID)
    requires j < |refs| && b < |cells[j]|
    ensures now'[j].legs[b] == if cells[j][b] in cells[i] then OwnLeg(now'[i], now[j].legs[b]) else now[j].legs[b]
  {
    if cells[j][b] in cells[i] {
      hide Prepared;
      var a :| 0 <= a < |cells[i]| && cells[i][a] == cells[j][b];
      PreparedLegs(now[i], newId);
      assert now[i].legs[a] == now[j].legs[b] && now'[i].legs[a] == now'[j].legs[b];
    }
  }

  lemma OthersLike<R, C>(refs: seq<R>, cells: seq<seq<C>>, i: nat, newId: string, now: seq<Order>, now': seq<Order>,
                         j: nat)
    requires PreparesOne(refs, cells, i, newId, now, now') && Acceptable(now'[i])
    requires j < |refs| && refs[j] != refs[i]
    ensures Like(now'[j], now[j])
  {
    hide Prepared, LegLike;
    assert IdOk(now'[i].clientOrderID);
    hide Acceptable, PreparesOne;
    LegCounts(refs, cells, i, newId, now, now', j);
    forall b | 0 <= b < |now[j].legs|
      ensures LegLike(now'[j].legs[b], now[j].legs[b])
    {
      LegThen(refs, cells, i, newId, now, now', j, b);
      OwnLegLike(now'[i], now[j].legs[b]);
      SelfLike(now[j].legs[b]);
    }
  }

  lemma LegCounts<R, C>(refs: seq<R>, cells: seq<seq<C>>, i: nat, newId: string, now: seq<Order>, now': seq<Order>,
                        j: nat)
    requires PreparesOne(refs, cells, i, newId, now, now') && j < |refs|
    ensures |now'| == |now| == |refs| && |now'[j].legs| == |now[j].legs| == |cells[j]|
    ensures refs[j] != refs[i] ==> Bare(now'[j]) == Bare(now[j])
    ensures refs[j] == refs[i] ==> now[j] == now[i] && now'[j] == now'[i] == Prepared(now[j], newId)
  {
  }

  lemma SelfLike(leg: Leg)
    ensures LegLike(leg, leg)
  {
  }

  ghost predicate Touched<R>(refs: seq<R>, i: nat, j: nat)
    requires i <= |refs| && j < |refs|
  {
    exists k :: 0 <= k < i && refs[k] == refs[j]
  }

  /** The first i members have been prepared and accepted: each is like what it would be if it
      had been prepared on its own, and each of the others like what it was. */
  ghost predicate Along<R>(refs: seq<R>, i: nat, now: seq<Order>, olds: seq<Order>, ps: seq<Order>) {
    && i <= |refs| == |now| == |olds| == |ps|
    && (forall f :: 0 <= f < i && !StoodBefore(refs, f) ==> Like(now[f], ps[f]) && Acceptable(ps[f]))
    && (forall j :: 0 <= j < |refs| && !Touched(refs, i, j) ==> Like(now[j], olds[j]))
  }

  predicate Alone(olds: seq<Order>, ids: seq<string>, ps: seq<Order>) {
    && |olds| == |ids| == |ps|
    && forall i :: 0 <= i < |ps| ==> IdOk(ids[i]) && ps[i] == Prepared(olds[i], ids[i])
  }

  /** The next member is accepted exactly if it would be on its own, unless it has been already. */
  lemma SameVerdict<R, C>(refs: seq<R>, cells: seq<seq<C>>, i: nat, now: seq<Order>, olds: seq<Order>,
                          ids: seq<string>, ps: seq<Order>)
    requires Along(refs, i, now, olds, ps) && i < |refs| && OneHeap(refs, cells, now) && Alone(olds, ids, ps)
    ensures Acceptable(Prepared(now[i], ids[i])) <==> StoodBefore(refs, i) || Acceptable(ps[i])
    ensures StoodBefore(refs, i) ==> Bare(Prepared(now[i], ids[i])) == Bare(now[i])
  {
    hide Prepared, Acceptable, Like, IdOk;
    if StoodBefore(refs, i) {
      var f := FirstOf(refs, i);
      assert now[i] == now[f];
      VerdictLike(now[i], ps[f], ids[i]);
      PreparedIsFixpoint(olds[f], ids[f], ids[i]);
      BareLike(now[i], ps[f]);
      HeadLike(now[i], ps[f], ids[i]);
    } else {
      assert !Touched(refs, i, i);
      VerdictLike(now[i], olds[i], ids[i]);
    }
  }

  lemma BareLike(a: Order, b: Order)
    requires Like(a, b)
    ensures Bare(a) == Bare(b) && |a.legs| == |b.legs|
  {
  }

  /** Preparing the next member keeps that up, and what was accepted keeps all but its legs. */
  lemma AlongOneMore<R, C>(refs: seq<R>, cells: seq<seq<C>>, i: nat, now: seq<Order>, olds: seq<Order>,
                           ids: seq<string>, ps: seq<Order>, now': seq<Order>)
    requires Along(refs, i, now, olds, ps) && i < |refs| && Alone(olds, ids, ps)
    requires PreparesOne(refs, cells, i, ids[i], now, now') && Acceptable(now'[i])
    ensures Along(refs, i + 1, now', olds, ps)
    ensures forall j :: 0 <= j < i ==> Bare(now'[j]) == Bare(now[j])
    ensures !StoodBefore(refs, i) ==> Bare(now'[i]) == Bare(ps[i])
  {
    PreparedHere(refs, cells, i, ids[i], now, now');
    hide Prepared, Acceptable, Like, IdOk, PreparesOne;
    SameVerdict(refs, cells, i, now, olds, ids, ps);
    forall f | 0 <= f < i + 1 && !StoodBefore(refs, f)
      ensures Like(now'[f], ps[f]) && Acceptable(ps[f])
    {
      if f == i {
        assert !Touched(refs, i, i);
        BothPrepared(now[i], olds[i], ids[i]);
      } else {
        KeepsLike(refs, cells, i, ids, now, now', f, olds, ps);
      }
    }
    forall j | 0 <= j < |refs| && !Touched(refs, i + 1, j)
      ensures Like(now'[j], olds[j])
    {
      assert refs[j] != refs[i];
      assert !Touched(refs, i, j);
      OthersLike(refs, cells, i, ids[i], now, now', j);
      LikeThrough(now'[j], now[j], olds[j]);
    }
    forall j | 0 <= j < i
      ensures Bare(now'[j]) == Bare(now[j])
    {
      LegCounts(refs, cells, i, ids[i], now, now', j);
      assert refs[j] == refs[i] ==> StoodBefore(refs, i);
    }
    if !StoodBefore(refs, i) {
      BareLike(now'[i], ps[i]);
    }
  }

  /** But for their legs, the first k orders are as they would be prepared on their own, and the
      others as they were. */
  predicate UpTo(now: seq<Order>, olds: seq<Order>, ps: seq<Order>, k: nat) {
    && k <= |now| == |olds| == |ps|
    && forall j :: 0 <= j < |now| ==> Bare(now[j]) == if j < k then Bare(ps[j]) else Bare(olds[j])
  }

  /** So far they are, when they are different objects. */
  lemma AlongUpTo<R>(refs: seq<R>, i: nat, now: seq<Order>, olds: seq<Order>, ps: seq<Order>)
    requires Along(refs, i, now, olds, ps) && forall j, k :: 0 <= j < k < |refs| ==> refs[j] != refs[k]
    ensures UpTo(now, olds, ps, i)
  {
    hide Acceptable;
    forall j | 0 <= j < |refs|
      ensures Bare(now[j]) == if j < i then Bare(ps[j]) else Bare(olds[j])
    {
      if j < i {
        assert !StoodBefore(refs, j);
        BareLike(now[j], ps[j]);
      } else {
        assert !Touched(refs, i, j);
        BareLike(now[j], olds[j]);
      }
    }
  }

  /** And they still are when the next one has been prepared, even if it is not accepted. */
  lemma UpToOneMore<R, C>(refs: seq<R>, cells: seq<seq<C>>, i: nat, now: seq<Order>, olds: seq<Order>, ids: seq<string>,
                          ps: seq<Order>, now': seq<Order>)
    requires Along(refs, i, now, olds, ps) && i < |refs| && Alone(olds, ids, ps)
    requires PreparesOne(refs, cells, i, ids[i], now, now')
    requires forall j, k :: 0 <= j < k < |refs| ==> refs[j] != refs[k]
    ensures UpTo(now', olds, ps, i + 1)
  {
    PreparedHere(refs, cells, i, ids[i], now, now');
    hide Prepared, PreparesOne, Like, IdOk;
    AlongUpTo(refs, i, now, olds, ps);
    assert !Touched(refs, i, i);
    BareLike(now[i], olds[i]);
    HeadLike(now[i], olds[i], ids[i]);
    LegCounts(refs, cells, i, ids[i], now, now', i);
    forall j | 0 <= j < |refs| && j != i
      ensures Bare(now'[j]) == Bare(now[j])
    {
      LegCounts(refs, cells, i, ids[i], now, now', j);
    }
  }

  lemma PreparedHere<R, C>(refs: seq<R>, cells: seq<seq<C>>, i: nat, newId: string, now: seq<Order>, now': seq<Order>)
    requires PreparesOne(refs, cells, i, newId, now, now')
    ensures OneHeap(refs, cells, now) && OneHeap(refs, cells, now') && i < |refs| && now'[i] == Prepared(now[i], newId)
  {
  }

  /** Alike orders stay alike when both are prepared. */
  lemma BothPrepared(a: Order, b: Order, newId: string)
    requires Like(a, b) && Acceptable(Prepared(a, newId))
    ensures Like(Prepared(a, newId), Prepared(b, newId)) && Acceptable(Prepared(b, newId))
  {
    var pa, pb := Prepared(a, newId), Prepared(b, newId);
    VerdictLike(a, b, newId);
    HeadLike(a, b, newId);
    PreparedLike(a, newId);
    PreparedLike(b, newId);
    hide Prepared, Acceptable, Bare;
    forall i | 0 <= i < |a.legs|
      ensures LegLike(pa.legs[i], pb.legs[i])
    {
      assert LegLike(a.legs[i], b.legs[i]);
    }
  }

  lemma KeepsLike<R, C>(refs: seq<R>, cells: seq<seq<C>>, i: nat, ids: seq<string>, now: seq<Order>, now': seq<Order>,
                                f: nat, olds: seq<Order>, ps: seq<Order>)
    requires Along(refs, i, now, olds, ps) && i < |refs| && f < i && !StoodBefore(refs, f) && Alone(olds, ids, ps)
    requires PreparesOne(refs, cells, i, ids[i], now, now') && Acceptable(now'[i])
    ensures Like(now'[f], ps[f])
  {
    hide Prepared, Acceptable, Like, IdOk, PreparesOne;
    LegCounts(refs, cells, i, ids[i], now, now', f);
    if refs[f] == refs[i] {
      BothPrepared(now[f], ps[f], ids[i]);
      PreparedIsFixpoint(olds[f], ids[f], ids[i]);
    } else {
      OthersLike(refs, cells, i, ids[i], now, now', f);
      LikeThrough(now'[f], now[f], ps[f]);
    }
  }

  // ---------- what sharing does change: the legs ----------

  /** The leg in cell c when the first i members have been prepared, one after the other. */
  ghost function LegAfter<C>(cells: seq<seq<C>>, ps: seq<Order>, i: nat, c: C, leg: Leg): Leg
    requires i <= |cells| == |ps|
  {
    if i == 0 then leg
    else
      var before := LegAfter(cells, ps, i - 1, c, leg);
      if c in cells[i - 1] then OwnLeg(ps[i - 1], before) else before
  }

  ghost predicate LegsAre<C>(cells: seq<seq<C>>, ps: seq<Order>, i: nat, now: seq<Order>, olds: seq<Order>) {
    && i <= |cells| == |ps| == |now| == |olds|
    && (forall j :: 0 <= j < |cells| ==> |cells[j]| == |now[j].legs| == |olds[j].legs|)
    && (forall j, a :: 0 <= j < |cells| && 0 <= a < |cells[j]| ==>
          now[j].legs[a] == LegAfter(cells, ps, i, cells[j][a], olds[j].legs[a]))
  }

  lemma LegsOneMore<R, C>(refs: seq<R>, cells: seq<seq<C>>, i: nat, newId: string, now: seq<Order>, olds: seq<Order>,
                                  ps: seq<Order>, now': seq<Order>)
    requires LegsAre(cells, ps, i, now, olds) && i < |refs| && PreparesOne(refs, cells, i, newId, now, now')
    requires IdOk(now'[i].clientOrderID) && Bare(now'[i]) == Bare(ps[i])
    ensures LegsAre(cells, ps, i + 1, now', olds)
  {
    forall j | 0 <= j < |cells|
      ensures |now'[j].legs| == |now[j].legs|
    {
      LegCounts(refs, cells, i, newId, now, now', j);
    }
    hide PreparesOne, IdOk;
    forall j, a | 0 <= j < |cells| && 0 <= a < |cells[j]|
      ensures now'[j].legs[a] == LegAfter(cells, ps, i + 1, cells[j][a], olds[j].legs[a])
    {
      LegThen(refs, cells, i, newId, now, now', j, a);
      OwnLegBare(now'[i], ps[i], now[j].legs[a]);
    }
  }

  lemma OwnLegBare(p: Order, q: Order, leg: Leg)
    requires Bare(p) == Bare(q)
    ensures OwnLeg(p, leg) == OwnLeg(q, leg)
  {
    assert p == q.(legs := p.legs);
  }

  /** Where two members share a cell, each would make the same of the leg in it. */
  ghost predicate LegsAgree<C>(cells: seq<seq<C>>, ps: seq<Order>) {
    && |cells| == |ps| && (forall i :: 0 <= i < |cells| ==> |cells[i]| == |ps[i].legs|)
    && forall i, a, j, b ::
      (0 <= i < |cells| && 0 <= j < |cells| && 0 <= a < |cells[i]| && 0 <= b < |cells[j]| && cells[i][a] == cells[j][b]
       ==> ps[i].legs[a] == ps[j].legs[b])
  }

  /** The members end up as if each had been prepared on its own exactly if they agree about
      the legs they share. */
  lemma AloneExactly<R, C>(refs: seq<R>, cells: seq<seq<C>>, now: seq<Order>, olds: seq<Order>, ids: seq<string>,
                           ps: seq<Order>)
    requires OneHeap(refs, cells, now) && OneHeap(refs, cells, olds) && Alone(olds, ids, ps)
    requires LegsAre(cells, ps, |refs|, now, olds)
    requires forall i :: 0 <= i < |ps| ==> Bare(now[i]) == Bare(ps[i]) && IdOk(ps[i].clientOrderID)
    requires forall i :: 0 <= i < |ps| ==> |cells[i]| == |ps[i].legs|
    ensures now == ps <==> LegsAgree(cells, ps)
  {
    hide Prepared, IdOk, LegAfter;
    if LegsAgree(cells, ps) {
      forall i | 0 <= i < |ps|
        ensures now[i] == ps[i]
      {
        forall a | 0 <= a < |cells[i]|
          ensures now[i].legs[a] == ps[i].legs[a]
        {
          AgreedLeg(cells, olds, ids, ps, i, a, |refs|);
        }
        assert now[i] == Bare(now[i]).(legs := now[i].legs) && ps[i] == Bare(ps[i]).(legs := ps[i].legs);
        assert now[i].legs == ps[i].legs;
      }
    }
  }

  lemma {:induction false} AgreedLeg<C>(cells: seq<seq<C>>, olds: seq<Order>, ids: seq<string>, ps: seq<Order>,
                                        i: nat, a: nat, n: nat)
    requires Alone(olds, ids, ps) && |cells| == |ps| && n <= |ps| && i < |ps| && a < |cells[i]|
    requires forall j :: 0 <= j < |cells| ==> |cells[j]| == |ps[j].legs| == |olds[j].legs| && IdOk(ps[j].clientOrderID)
    requires LegsAgree(cells, ps) && LegsAgree(cells, olds)
    ensures LegAfter(cells, ps, n, cells[i][a], olds[i].legs[a]) in {olds[i].legs[a], ps[i].legs[a]}
    ensures i < n ==> LegAfter(cells, ps, n, cells[i][a], olds[i].legs[a]) == ps[i].legs[a]
    decreases n
  {
    hide Prepared, IdOk, OwnLeg;
    PreparedLegs(olds[i], ids[i]);
    if n > 0 {
      AgreedLeg(cells, olds, ids, ps, i, a, n - 1);
      var k, c, leg := n - 1, cells[i][a], olds[i].legs[a];
      var before := LegAfter(cells, ps, k, c, leg);
      if c in cells[k] {
        var b :| 0 <= b < |cells[k]| && cells[k][b] == c;
        PreparedLegs(olds[k], ids[k]);
        assert ps[k].legs[b] == ps[i].legs[a] && olds[k].legs[b] == leg;
        assert OwnLeg(ps[k], leg) == ps[i].legs[a];
        OwnLegTwice(ps[k], leg);
      }
    }
  }

  /** Two option orders agree about a leg exactly if what the leg leaves open, its side and,
      for an option, its quantity, is the same in both. */
  lemma AgreeExactly(p: Order, q: Order, leg: Leg)
    requires p.instrument.OptionContract? && q.instrument.OptionContract?
    ensures OwnLeg(p, leg) == OwnLeg(q, leg) <==>
      && (leg.side.NoSide? ==> p.side == q.side)
      && (KindOf(leg).OptionContract? && !leg.quantity.valid ==> p.quantity == q.quantity)
  {
    var a, b := OwnLeg(p, leg), OwnLeg(q, leg);
    assert a == b <==> a.side == b.side && a.quantity == b.quantity;
  }

  /** An option order changes nothing in a leg exactly if the leg already holds all that the
      order would fill in. */
  lemma FilledExactly(p: Order, leg: Leg)
    requires p.instrument.OptionContract?
    ensures OwnLeg(p, leg) == leg <==> HoldsFill(p.side, p.quantity, leg)
  {
    var q := OwnLeg(p, leg);
    assert q == leg <==>
      q.market == leg.market && q.instrument == leg.instrument && q.side == leg.side &&
      q.strikePrice == leg.strikePrice && q.quantity == leg.quantity;
  }

  predicate HoldsFill(side: Side, quantity: NullDecimal, leg: Leg) {
    && leg.market != "" && !leg.instrument.NoInstrument? && leg.strikePrice == Clear(leg.strikePrice)
    && (leg.side.NoSide? ==> side.NoSide?)
    && (leg.instrument.OptionContract? && !leg.quantity.valid ==> quantity == leg.quantity)
  }

  /** Only option orders write into their legs. */
  predicate Writes(o: Order) {
    InstrumentOf(o).OptionContract?
  }

  /** Two option orders would write the same into the leg; and where only one of the two orders
      writes at all, it finds everything there. */
  predicate SameFill(o: Order, p: Order, leg: Leg) {
    if Writes(o) && Writes(p) then
      && (leg.side.NoSide? ==> o.side == p.side)
      && (KindOf(leg).OptionContract? && !leg.quantity.valid ==> Clear(o.quantity) == Clear(p.quantity))
    else
      && (Writes(o) ==> HoldsFill(o.side, Clear(o.quantity), leg))
      && (Writes(p) ==> HoldsFill(p.side, Clear(p.quantity), leg))
  }

  ghost predicate SameFills<C>(cells: seq<seq<C>>, olds: seq<Order>)
    requires |cells| == |olds| && forall i :: 0 <= i < |cells| ==> |cells[i]| == |olds[i].legs|
  {
    forall i, a, j, b ::
      (0 <= i < |cells| && 0 <= j < |cells| && 0 <= a < |cells[i]| && 0 <= b < |cells[j]| && cells[i][a] == cells[j][b]
       ==> SameFill(olds[i], olds[j], olds[i].legs[a]))
  }

  /** So the agreement can be read off the orders before the call, whatever their instruments. */
  lemma LegsAgreeExactly<C>(cells: seq<seq<C>>, olds: seq<Order>, ids: seq<string>, ps: seq<Order>)
    requires LegsAgree(cells, olds) && Alone(olds, ids, ps)
    requires forall i :: 0 <= i < |ps| ==> IdOk(ps[i].clientOrderID)
    ensures LegsAgree(cells, ps) <==> SameFills(cells, olds)
  {
    hide Prepared, IdOk, OwnLeg;
    forall i | 0 <= i < |ps|
      ensures |ps[i].legs| == |olds[i].legs| == |cells[i]|
      ensures forall a :: 0 <= a < |cells[i]| ==> ps[i].legs[a] == OwnLeg(ps[i], olds[i].legs[a])
    {
      PreparedLegs(olds[i], ids[i]);
    }
    forall i, a, j, b |
      0 <= i < |cells| && 0 <= j < |cells| && 0 <= a < |cells[i]| && 0 <= b < |cells[j]| && cells[i][a] == cells[j][b]
      ensures ps[i].legs[a] == ps[j].legs[b] <==> SameFill(olds[i], olds[j], olds[i].legs[a])
    {
      assert olds[j].legs[b] == olds[i].legs[a];
      PreparedHead(olds[i], ids[i]);
      PreparedHead(olds[j], ids[j]);
      OwnExactly(ps[i], ps[j], olds[i].legs[a]);
    }
  }

  lemma OwnExactly(p: Order, q: Order, leg: Leg)
    ensures OwnLeg(p, leg) == OwnLeg(q, leg) <==>
      if p.instrument.OptionContract? && q.instrument.OptionContract? then
        && (leg.side.NoSide? ==> p.side == q.side)
        && (KindOf(leg).OptionContract? && !leg.quantity.valid ==> p.quantity == q.quantity)
      else
        && (p.instrument.OptionContract? ==> HoldsFill(p.side, p.quantity, leg))
        && (q.instrument.OptionContract? ==> HoldsFill(q.side, q.quantity, leg))
  {
    if p.instrument.OptionContract? && q.instrument.OptionContract? {
      AgreeExactly(p, q, leg);
    } else if p.instrument.OptionContract? {
      FilledExactly(p, leg);
    } else if q.instrument.OptionContract? {
      FilledExactly(q, leg);
    }
  }

  lemma PreparedHead(o: Order, newId: string)
    requires IdOk(Prepared(o, newId).clientOrderID)
    ensures var p := Prepared(o, newId);
      p.instrument == InstrumentOf(o) && p.side == o.side && p.quantity == Clear(o.quantity)
  {
  }
}
