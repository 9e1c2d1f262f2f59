/** Which groups of orders may be placed together, and the role table the source decides it
    by (trade/combos.go). The specification speaks of orders that have been prepared. */
module Groups {
  import opened Options
  import opened Orders

  /** `b` closes a position opened by `a`. */
  predicate Opposite(a: Side, b: Side) {
    (a.Buy? && b.Sell?) || ((a.Sell? || a.Short?) && b.Buy?)
  }

  predicate MarketOrLimit(t: OrderType) {
    t.Market? || t.Limit?
  }

  predicate Triggerable(t: OrderType) {
    t.Market? || t.Limit? || t.StopLoss? || t.StopLossLimit?
  }

  predicate Cancellable(t: OrderType) {
    t.Limit? || t.StopLoss? || t.StopLossLimit?
  }

  function Count(os: seq<Order>, role: Role): nat {
    if os == [] then 0 else Count(os[..|os| - 1], role) + (if os[|os| - 1].role == role then 1 else 0)
  }

  /** Whatever is not a master closes the master: same symbol, opposite side. */
  predicate ExitsClose(os: seq<Order>) {
    forall i, j :: 0 <= i < |os| && 0 <= j < |os| && os[i].role.RoleMaster? && !os[j].role.RoleMaster? ==>
      os[j].symbol == os[i].symbol && Opposite(os[i].side, os[j].side)
  }

  /** A take-profit, a stop-loss or both, with at most one order they close. */
  predicate IsBracket(os: seq<Order>) {
    && (forall i :: 0 <= i < |os| ==>
          match os[i].role
          case RoleMaster => MarketOrLimit(os[i].orderType)
          case RoleStopProfit => os[i].orderType.Limit?
          case RoleStopLoss => os[i].orderType.StopLoss?
          case _ => false)
    && Count(os, RoleMaster) <= 1 && Count(os, RoleStopProfit) <= 1 && Count(os, RoleStopLoss) <= 1
    && Count(os, RoleStopProfit) + Count(os, RoleStopLoss) >= 1
    && ExitsClose(os)
  }

  /** One order that triggers one to six others. */
  predicate IsOTO(os: seq<Order>) {
    && (forall i :: 0 <= i < |os| ==>
          os[i].instrument.Equity? && Triggerable(os[i].orderType) &&
          (os[i].role.RoleMaster? || os[i].role.RoleOTO?))
    && Count(os, RoleMaster) == 1 && 1 <= Count(os, RoleOTO) <= 6
  }

  /** Two to six orders that cancel each other. */
  predicate IsOCO(os: seq<Order>) {
    && (forall i :: 0 <= i < |os| ==> os[i].instrument.Equity? && os[i].role.RoleOCO? && Cancellable(os[i].orderType))
    && 2 <= Count(os, RoleOCO) <= 6
  }

  /** One order that triggers one to six others, which then cancel each other. */
  predicate IsOTOCO(os: seq<Order>) {
    && (forall i :: 0 <= i < |os| ==>
          os[i].instrument.Equity? &&
          ((os[i].role.RoleMaster? && Triggerable(os[i].orderType)) ||
           (os[i].role.RoleOTOCO? && Cancellable(os[i].orderType))))
    && Count(os, RoleMaster) == 1 && 1 <= Count(os, RoleOTOCO) <= 6
  }

  predicate DistinctIds(os: seq<Order>) {
    forall i, j :: 0 <= i < j < |os| ==> os[i].clientOrderID != os[j].clientOrderID
  }

  predicate ValidGroup(os: seq<Order>) {
    && (forall i :: 0 <= i < |os| ==> Acceptable(os[i]))
    && DistinctIds(os)
    && (IsBracket(os) || IsOTO(os) || IsOCO(os) || IsOTOCO(os))
  }

  // ---------- the source's table ----------

  datatype RoleRule = RoleRule(types: set<OrderType>, min: nat, max: nat)

  const MARKET_OR_LIMIT: set<OrderType> := {Market, Limit}
  const TRIGGERABLE: set<OrderType> := {Market, Limit, StopLoss, StopLossLimit}
  const CANCELLABLE: set<OrderType> := {Limit, StopLoss, StopLossLimit}

  /** The rules of the group that the given role identifies. */
  function ComboRules(kind: Role): map<Role, RoleRule> {
    match kind
    case RoleStopProfit =>
      map[RoleMaster := RoleRule(MARKET_OR_LIMIT, 0, 1),
          RoleStopProfit := RoleRule({Limit}, 0, 1),
          RoleStopLoss := RoleRule({StopLoss}, 0, 1)]
    case RoleOTO => map[RoleMaster := RoleRule(TRIGGERABLE, 1, 1), RoleOTO := RoleRule(TRIGGERABLE, 1, 6)]
    case RoleOCO => map[RoleOCO := RoleRule(CANCELLABLE, 2, 6)]
    case RoleOTOCO => map[RoleMaster := RoleRule(TRIGGERABLE, 1, 1), RoleOTOCO := RoleRule(CANCELLABLE, 1, 6)]
    case _ => map[]
  }

  predicate HasRole(os: seq<Order>, role: Role) {
    exists i :: 0 <= i < |os| && os[i].role == role
  }

  /** Which group the roles present describe. */
  function Kind(os: seq<Order>): Option<Role> {
    if HasRole(os, RoleOTOCO) then Some(RoleOTOCO)
    else if HasRole(os, RoleOTO) then Some(RoleOTO)
    else if HasRole(os, RoleOCO) then Some(RoleOCO)
    else if HasRole(os, RoleStopProfit) || HasRole(os, RoleStopLoss) then Some(RoleStopProfit)
    else None
  }

  /** What the source checks of one member. */
  predicate MemberOk(kind: Role, o: Order) {
    && o.role in ComboRules(kind)
    && o.orderType in ComboRules(kind)[o.role].types
    && (kind.RoleOTO? || kind.RoleOCO? || kind.RoleOTOCO? ==> o.instrument.Equity?)
  }

  predicate CountsOk(kind: Role, os: seq<Order>) {
    forall role :: role in ComboRules(kind) ==>
      ComboRules(kind)[role].min <= Count(os, role) <= ComboRules(kind)[role].max
  }

  /** What the source checks of a bracket as a whole. */
  predicate ExitsOk(os: seq<Order>) {
    && Count(os, RoleStopProfit) + Count(os, RoleStopLoss) >= 1
    && ExitsClose(os)
  }

  predicate TableOk(os: seq<Order>) {
    Kind(os).Some? &&
    var kind := Kind(os).value;
    && (forall i :: 0 <= i < |os| ==> MemberOk(kind, os[i]))
    && CountsOk(kind, os)
    && (kind.RoleStopProfit? ==> ExitsOk(os))
  }

  lemma {:induction false} CountPositive(os: seq<Order>, role: Role)
    ensures Count(os, role) > 0 <==> HasRole(os, role)
    decreases |os|
  {
    if os != [] {
      var rest, n := os[..|os| - 1], |os| - 1;
      CountPositive(rest, role);
      if HasRole(rest, role) {
        var i :| 0 <= i < n && rest[i].role == role;
        assert os[i].role == role;
      }
      if HasRole(os, role) && os[n].role != role {
        var i :| 0 <= i < |os| && os[i].role == role;
        assert rest[i].role == role;
      }
    }
  }

  lemma {:induction false} CountTwice(os: seq<Order>, i: nat, j: nat)
    requires i < j < |os| && os[i].role == os[j].role
    ensures Count(os, os[i].role) >= 2
    decreases |os|
  {
    var n := |os| - 1;
    if j < n {
      CountTwice(os[..n], i, j);
    } else {
      CountPositive(os[..n], os[i].role);
      assert os[..n][i].role == os[i].role;
    }
  }

  predicate IsFamily(kind: Role, os: seq<Order>) {
    match kind
    case RoleStopProfit => IsBracket(os)
    case RoleOTO => IsOTO(os)
    case RoleOCO => IsOCO(os)
    case RoleOTOCO => IsOTOCO(os)
    case _ => false
  }

  /** A group of one family is recognised as that family, whatever order its members are in. */
  lemma FamilyKind(os: seq<Order>, kind: Role)
    requires IsFamily(kind, os)
    ensures Kind(os) == Some(kind)
  {
    CountPositive(os, kind);
    if kind.RoleStopProfit? {
      CountPositive(os, RoleStopLoss);
    }
  }

  lemma CountsOkMeans(kind: Role, os: seq<Order>)
    ensures kind.RoleStopProfit? ==>
      (CountsOk(kind, os) <==>
        Count(os, RoleMaster) <= 1 && Count(os, RoleStopProfit) <= 1 && Count(os, RoleStopLoss) <= 1)
    ensures kind.RoleOTO? ==> (CountsOk(kind, os) <==> Count(os, RoleMaster) == 1 && 1 <= Count(os, RoleOTO) <= 6)
    ensures kind.RoleOCO? ==> (CountsOk(kind, os) <==> 2 <= Count(os, RoleOCO) <= 6)
    ensures kind.RoleOTOCO? ==> (CountsOk(kind, os) <==> Count(os, RoleMaster) == 1 && 1 <= Count(os, RoleOTOCO) <= 6)
  {
    if CountsOk(kind, os) && (kind.RoleStopProfit? || kind.RoleOTO? || kind.RoleOCO? || kind.RoleOTOCO?) {
      assert kind in ComboRules(kind);
      assert RoleMaster in ComboRules(kind) || kind.RoleOCO?;
      assert kind.RoleStopProfit? ==> RoleStopLoss in ComboRules(kind);
    }
  }

  lemma TableForKind(os: seq<Order>, kind: Role)
    requires Kind(os) == Some(kind)
    ensures TableOk(os) <==> IsFamily(kind, os)
  {
    hide Count, CountsOk;
    CountsOkMeans(kind, os);
  }

  /** The source's table admits exactly the four families, and a group that mixes families
      fits none of them. */
  lemma TableMeansFamilies(os: seq<Order>)
    ensures TableOk(os) <==> IsBracket(os) || IsOTO(os) || IsOCO(os) || IsOTOCO(os)
  {
    forall kind | IsFamily(kind, os)
      ensures TableOk(os)
    {
      FamilyKind(os, kind);
      TableForKind(os, kind);
    }
    assert IsBracket(os) ==> IsFamily(RoleStopProfit, os);
    assert IsOTO(os) ==> IsFamily(RoleOTO, os);
    assert IsOCO(os) ==> IsFamily(RoleOCO, os);
    assert IsOTOCO(os) ==> IsFamily(RoleOTOCO, os);
    if TableOk(os) {
      TableForKind(os, Kind(os).value);
    }
  }

  // ---------- what exits are ----------

  /** What an order of this side does to the position: buying raises it, selling and selling short
      lower it. */
  function Moves(side: Side): int {
    match side
    case Buy => 1
    case Sell => -1
    case Short => -1
    case _ => 0
  }

  /** The exits of an acceptable bracket are on the master's symbol and move against it, and
      none of them opens a position short. */
  lemma ExitsMoveAgainst(os: seq<Order>, i: nat, j: nat)
    requires ValidGroup(os) && i < |os| && j < |os| && os[i].role.RoleMaster?
    requires os[j].role.RoleStopProfit? || os[j].role.RoleStopLoss?
    ensures os[j].symbol == os[i].symbol
    ensures Moves(os[i].side) != 0 && Moves(os[j].side) == -Moves(os[i].side) && os[j].side != Short
  {
    hide Acceptable, Count;
    CountPositive(os, RoleMaster);
  }

  /** A master and one exit are a group exactly if the exit is of the type its place asks for, on
      the same symbol, and sells what the master buys or buys back what it sells. */
  lemma OneExitExactly(m: Order, x: Order)
    requires m.role.RoleMaster? && (x.role.RoleStopProfit? || x.role.RoleStopLoss?)
    ensures ValidGroup([m, x]) <==>
      && Acceptable(m) && Acceptable(x) && m.clientOrderID != x.clientOrderID
      && (m.orderType == Market || m.orderType == Limit)
      && x.orderType == (if x.role.RoleStopProfit? then Limit else StopLoss)
      && x.symbol == m.symbol
      && ((m.side == Buy && x.side == Sell) || (m.side == Sell && x.side == Buy) || (m.side == Short && x.side == Buy))
  {
    var (t, s) := if x.role.RoleStopProfit? then (Some(x), None) else (None, Some(x));
    BuiltBracket(Some(m), t, s);
    var os := Listed(Some(m)) + Listed(t) + Listed(s);
    assert os == [m, x];
    hide ValidGroup, Acceptable;
    assert os[0] == m && os[1] == x;
    assert DistinctIds(os) <==> m.clientOrderID != x.clientOrderID;
  }

  /** Two members are a group of another family exactly with the roles, types and instruments that
      family has. */
  lemma PairExactly(m: Order, x: Order)
    requires x.role in {RoleOTO, RoleOCO, RoleOTOCO} && m.role == if x.role == RoleOCO then RoleOCO else RoleMaster
    ensures ValidGroup([m, x]) <==>
      && Acceptable(m) && Acceptable(x) && m.clientOrderID != x.clientOrderID
      && m.instrument == Equity && x.instrument == Equity
      && (m.orderType in {Limit, StopLoss, StopLossLimit} || (m.orderType == Market && x.role != RoleOCO))
      && (x.orderType in {Limit, StopLoss, StopLossLimit} || (x.orderType == Market && x.role == RoleOTO))
  {
    hide Acceptable;
    var os := [m, x];
    assert os[0] == m && os[1] == x;
    assert DistinctIds(os) <==> m.clientOrderID != x.clientOrderID;
    if x.role == RoleOTO {
      BuiltOTO(os);
    } else if x.role == RoleOCO {
      BuiltOCO(os);
    } else {
      BuiltOTOCO(os);
    }
    hide ValidGroup;
  }

  // ---------- what the constructors build ----------

  /** The roles of a group built as a master and its dependent orders, or of the latter alone. */
  predicate BuiltAs(os: seq<Order>, withMaster: bool, role: Role) {
    && (withMaster ==> os != [] && os[0].role.RoleMaster?)
    && forall i :: (if withMaster then 1 else 0) <= i < |os| ==> os[i].role == role
  }

  lemma {:induction false} BuiltCounts(os: seq<Order>, withMaster: bool, role: Role)
    requires BuiltAs(os, withMaster, role) && !role.RoleMaster?
    ensures Count(os, RoleMaster) == if withMaster then 1 else 0
    ensures Count(os, role) == |os| - Count(os, RoleMaster)
    decreases |os|
  {
    var rest := if os == [] then [] else os[..|os| - 1];
    if |os| > 1 || (os != [] && !withMaster) {
      BuiltCounts(rest, withMaster, role);
    } else if os != [] {
      assert rest == [];
    }
  }

  /** Such a group can only be of the family its dependent orders name. */
  lemma BuiltFamily(os: seq<Order>, withMaster: bool, role: Role)
    requires BuiltAs(os, withMaster, role) && role in {RoleOTO, RoleOCO, RoleOTOCO}
    ensures IsBracket(os) || IsOTO(os) || IsOCO(os) || IsOTOCO(os) ==> IsFamily(role, os)
  {
    forall kind | kind in {RoleStopProfit, RoleOTO, RoleOCO, RoleOTOCO} && IsFamily(kind, os)
      ensures kind == role
    {
      FamilyKind(os, kind);
    }
    assert IsFamily(RoleStopProfit, os) == IsBracket(os) && IsFamily(RoleOTO, os) == IsOTO(os);
    assert IsFamily(RoleOCO, os) == IsOCO(os) && IsFamily(RoleOTOCO, os) == IsOTOCO(os);
  }

  /** One to six orders behind the first; acceptable equity orders of triggerable types; no id
      twice. */
  predicate FitsOTO(os: seq<Order>) {
    2 <= |os| <= 7 && DistinctIds(os) &&
    forall i :: 0 <= i < |os| ==> Acceptable(os[i]) && os[i].instrument.Equity? && Triggerable(os[i].orderType)
  }

  /** Two to six acceptable equity orders of cancellable types; no id twice. */
  predicate FitsOCO(os: seq<Order>) {
    2 <= |os| <= 6 && DistinctIds(os) &&
    forall i :: 0 <= i < |os| ==> Acceptable(os[i]) && os[i].instrument.Equity? && Cancellable(os[i].orderType)
  }

  /** A triggerable order and one to six cancellable ones; acceptable equity orders; no id twice. */
  predicate FitsOTOCO(os: seq<Order>) {
    2 <= |os| <= 7 && DistinctIds(os) && Triggerable(os[0].orderType) &&
    (forall i :: 0 <= i < |os| ==> Acceptable(os[i]) && os[i].instrument.Equity?) &&
    forall i :: 1 <= i < |os| ==> Cancellable(os[i].orderType)
  }

  /** An exit at least; acceptable orders, each of the type its place asks for; no id twice; and
      the exits close the master, where there is one. */
  predicate FitsBracket(master: Option<Order>, takeProfit: Option<Order>, stopLoss: Option<Order>) {
    var os := Listed(master) + Listed(takeProfit) + Listed(stopLoss);
    && (forall i :: 0 <= i < |os| ==> Acceptable(os[i])) && DistinctIds(os) && (takeProfit.Some? || stopLoss.Some?)
    && (master.Some? ==> MarketOrLimit(master.value.orderType))
    && (takeProfit.Some? ==> takeProfit.value.orderType.Limit?)
    && (stopLoss.Some? ==> stopLoss.value.orderType.StopLoss?)
    && Closes(master, takeProfit) && Closes(master, stopLoss)
  }

  /** A group built as an OTO is acceptable exactly if it fits. */
  lemma BuiltOTO(os: seq<Order>)
    requires BuiltAs(os, true, RoleOTO)
    ensures ValidGroup(os) <==> FitsOTO(os)
  {
    hide Acceptable;
    BuiltFamily(os, true, RoleOTO);
    BuiltCounts(os, true, RoleOTO);
  }

  /** So is one built as an OCO. */
  lemma BuiltOCO(os: seq<Order>)
    requires BuiltAs(os, false, RoleOCO)
    ensures ValidGroup(os) <==> FitsOCO(os)
  {
    hide Acceptable;
    BuiltFamily(os, false, RoleOCO);
    BuiltCounts(os, false, RoleOCO);
  }

  /** And one built as an OTOCO. */
  lemma BuiltOTOCO(os: seq<Order>)
    requires BuiltAs(os, true, RoleOTOCO)
    ensures ValidGroup(os) <==> FitsOTOCO(os)
  {
    hide Acceptable;
    BuiltFamily(os, true, RoleOTOCO);
    BuiltCounts(os, true, RoleOTOCO);
  }

  function Listed(o: Option<Order>): seq<Order> {
    if o.Some? then [o.value] else []
  }

  predicate Closes(m: Option<Order>, o: Option<Order>) {
    m.Some? && o.Some? ==> o.value.symbol == m.value.symbol && Opposite(m.value.side, o.value.side)
  }

  lemma BuiltExits(master: Option<Order>, takeProfit: Option<Order>, stopLoss: Option<Order>)
    requires master.Some? ==> master.value.role.RoleMaster?
    requires takeProfit.Some? ==> !takeProfit.value.role.RoleMaster?
    requires stopLoss.Some? ==> !stopLoss.value.role.RoleMaster?
    ensures ExitsClose(Listed(master) + Listed(takeProfit) + Listed(stopLoss)) <==>
      Closes(master, takeProfit) && Closes(master, stopLoss)
  {
    var os := Listed(master) + Listed(takeProfit) + Listed(stopLoss);
    if ExitsClose(os) && master.Some? {
      assert os[0] == master.value;
      assert takeProfit.Some? ==> os[1] == takeProfit.value;
      assert stopLoss.Some? ==> os[|os| - 1] == stopLoss.value;
    }
  }

  lemma BuiltBracketCounts(master: Option<Order>, takeProfit: Option<Order>, stopLoss: Option<Order>, role: Role)
    ensures Count(Listed(master) + Listed(takeProfit) + Listed(stopLoss), role) ==
      (if master.Some? && master.value.role == role then 1 else 0)
      + (if takeProfit.Some? && takeProfit.value.role == role then 1 else 0)
      + (if stopLoss.Some? && stopLoss.value.role == role then 1 else 0)
  {
    CountConcat(Listed(master) + Listed(takeProfit), Listed(stopLoss), role);
    CountConcat(Listed(master), Listed(takeProfit), role);
  }

  /** And a bracket built of a master, a take-profit and a stop-loss, each of which may be missing. */
  lemma BuiltBracket(master: Option<Order>, takeProfit: Option<Order>, stopLoss: Option<Order>)
    requires master.Some? ==> master.value.role.RoleMaster?
    requires takeProfit.Some? ==> takeProfit.value.role.RoleStopProfit?
    requires stopLoss.Some? ==> stopLoss.value.role.RoleStopLoss?
    ensures ValidGroup(Listed(master) + Listed(takeProfit) + Listed(stopLoss)) <==>
      FitsBracket(master, takeProfit, stopLoss)
  {
    hide Acceptable, DistinctIds, ExitsClose, Closes, Count;
    var os := Listed(master) + Listed(takeProfit) + Listed(stopLoss);
    BuiltExits(master, takeProfit, stopLoss);
    BuiltBracketCounts(master, takeProfit, stopLoss, RoleMaster);
    BuiltBracketCounts(master, takeProfit, stopLoss, RoleStopProfit);
    BuiltBracketCounts(master, takeProfit, stopLoss, RoleStopLoss);
    BuiltBracketCounts(master, takeProfit, stopLoss, RoleOTO);
    BuiltBracketCounts(master, takeProfit, stopLoss, RoleOCO);
    BuiltBracketCounts(master, takeProfit, stopLoss, RoleOTOCO);
    assert master.Some? ==> os[0] == master.value;
    assert takeProfit.Some? ==> os[|Listed(master)|] == takeProfit.value;
    assert stopLoss.Some? ==> os[|os| - 1] == stopLoss.value;
  }

  /** Dependent orders of two families never make a group. */
  lemma NoMixedFamilies(os: seq<Order>, a: Role, b: Role)
    requires HasRole(os, a) && HasRole(os, b)
    requires a in {RoleOTO, RoleOCO, RoleOTOCO} && b in {RoleOTO, RoleOCO, RoleOTOCO, RoleStopProfit, RoleStopLoss}
    requires a != b
    ensures !ValidGroup(os)
  {
    var i :| 0 <= i < |os| && os[i].role == a;
    var j :| 0 <= j < |os| && os[j].role == b;
  }

  /** The check for multi-leg options that the group makes of its members is one that each
      member's own `prepare` has already made. */
  lemma MultiLegAlreadyRefused(o: Order)
    requires Acceptable(o) && o.role != Normal
    ensures o.instrument.OptionContract? ==> o.strategy.Single? && |o.legs| == 1
  {
  }

  // ---------- the order of the members does not matter ----------

  lemma {:induction false} CountConcat(a: seq<Order>, b: seq<Order>, role: Role)
    ensures Count(a + b, role) == Count(a, role) + Count(b, role)
    decreases |b|
  {
    if b == [] {
      assert a + b == a;
    } else {
      assert (a + b)[..|a + b| - 1] == a + b[..|b| - 1];
      CountConcat(a, b[..|b| - 1], role);
    }
  }

  lemma WithoutOne(os: seq<Order>, j: nat, role: Role)
    requires j < |os|
    ensures multiset(os[..j] + os[j + 1..]) == multiset(os) - multiset{os[j]}
    ensures Count(os, role) == Count(os[..j] + os[j + 1..], role) + (if os[j].role == role then 1 else 0)
  {
    var one := [os[j]];
    assert os == os[..j] + (one + os[j + 1..]);
    CountConcat(os[..j], one + os[j + 1..], role);
    CountConcat(one, os[j + 1..], role);
    CountConcat(os[..j], os[j + 1..], role);
    assert one[..0] == [];
  }

  lemma {:induction false} CountPermuted(a: seq<Order>, b: seq<Order>, role: Role)
    requires multiset(a) == multiset(b)
    ensures Count(a, role) == Count(b, role)
    decreases |a|
  {
    if a == [] {
      assert |multiset(b)| == 0;
    } else {
      hide Count;
      var n := |a| - 1;
      assert a[n] in multiset(b);
      var j :| 0 <= j < |b| && b[j] == a[n];
      WithoutOne(b, j, role);
      WithoutOne(a, n, role);
      assert a[..n] + a[n + 1..] == a[..n];
      CountPermuted(a[..n], b[..j] + b[j + 1..], role);
    }
  }

  /** Distinct ids, said of the members as a multiset. */
  ghost predicate DistinctMembers(m: multiset<Order>) {
    && (forall o :: o in m ==> m[o] == 1)
    && (forall o, p :: o in m && p in m && o.clientOrderID == p.clientOrderID ==> o == p)
  }

  lemma RepeatedMember<T>(os: seq<T>, i: nat, j: nat)
    requires i < j < |os| && os[i] == os[j]
    ensures multiset(os)[os[i]] >= 2
  {
    assert os == os[..j] + ([os[j]] + os[j + 1..]);
    assert os[i] in os[..j];
  }

  lemma {:induction false} RepeatedAt<T>(os: seq<T>, o: T)
    requires multiset(os)[o] >= 2
    ensures exists i, j :: 0 <= i < j < |os| && os[i] == o && os[j] == o
    decreases |os|
  {
    var n := |os| - 1;
    assert os == os[..n] + [os[n]];
    if os[n] == o {
      assert o in multiset(os[..n]);
      var i :| 0 <= i < n && os[i] == o;
      assert 0 <= i < n < |os| && os[i] == o && os[n] == o;
    } else {
      RepeatedAt(os[..n], o);
      var i, j :| 0 <= i < j < n && os[..n][i] == o && os[..n][j] == o;
      assert os[i] == o && os[j] == o;
    }
  }

  lemma DistinctIdsMeans(os: seq<Order>)
    ensures DistinctIds(os) <==> DistinctMembers(multiset(os))
  {
    if DistinctIds(os) {
      forall o | o in multiset(os)
        ensures multiset(os)[o] == 1
      {
        if multiset(os)[o] >= 2 {
          RepeatedAt(os, o);
        }
      }
    }
    if DistinctMembers(multiset(os)) {
      forall i, j | 0 <= i < j < |os|
        ensures os[i].clientOrderID != os[j].clientOrderID
      {
        assert os[i] in multiset(os) && os[j] in multiset(os);
        if os[i] == os[j] {
          RepeatedMember(os, i, j);
        }
      }
    }
  }

  lemma PermutedFamily(a: seq<Order>, b: seq<Order>, kind: Role)
    requires multiset(a) == multiset(b) && IsFamily(kind, a)
    ensures IsFamily(kind, b)
  {
    CountPermuted(a, b, RoleMaster);
    CountPermuted(a, b, kind);
    CountPermuted(a, b, RoleStopLoss);
    forall j | 0 <= j < |b|
      ensures exists i :: 0 <= i < |a| && a[i] == b[j]
    {
      assert b[j] in multiset(a);
    }
  }

  /** The verdict does not depend on the order in which the members are listed. */
  lemma OrderDoesNotMatter(a: seq<Order>, b: seq<Order>)
    requires multiset(a) == multiset(b) && ValidGroup(a)
    ensures ValidGroup(b)
  {
    DistinctIdsMeans(a);
    DistinctIdsMeans(b);
    forall j | 0 <= j < |b|
      ensures Acceptable(b[j])
    {
      assert b[j] in multiset(a);
      assert b[j] in a;
    }
    forall kind | IsFamily(kind, a)
      ensures IsFamily(kind, b)
    {
      PermutedFamily(a, b, kind);
    }
    assert IsBracket(a) ==> IsFamily(RoleStopProfit, a);
    assert IsOTO(a) ==> IsFamily(RoleOTO, a);
    assert IsOCO(a) ==> IsFamily(RoleOCO, a);
    assert IsOTOCO(a) ==> IsFamily(RoleOTOCO, a);
  }
}
