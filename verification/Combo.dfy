/** `Combo`: building a group, preparing it in place and cancelling it (trade/combos.go). */
module Combo {
  import opened Options
  import opened Decimals
  import opened Orders
  import opened SharedLegs
  import opened OrderObject
  import opened Groups

  /** The orders' values as they would be after each was prepared on its own, the k-th with
      ids[k] if it has no id. */
  function PreparedAll(os: seq<Order>, ids: seq<string>): (ps: seq<Order>)
    requires |ids| >= |os|
    ensures |ps| == |os|
  {
    seq(|os|, i requires 0 <= i < |os| => Prepared(os[i], ids[i]))
  }

  ghost predicate AllValid(refs: seq<OrderRef>)
    reads refs
  {
    forall i :: 0 <= i < |refs| ==> refs[i].Valid()
  }

  /** The storage of the members' legs. */
  function Cells(refs: seq<OrderRef>): set<LegRef>
    reads refs
  {
    set r, c | r in refs && c in r.legs :: c
  }

  /** The same where members may be missing. */
  function StorageOf(rs: seq<OrderRef?>): set<LegRef>
    reads set r: OrderRef? | r in rs && r != null
  {
    set r: OrderRef?, c: LegRef | r in rs && r != null && c in r.legs :: c
  }

  function LegLists(refs: seq<OrderRef>): (cells: seq<seq<LegRef>>)
    reads refs
    ensures |cells| == |refs| && forall i :: 0 <= i < |refs| ==> cells[i] == refs[i].legs
  {
    seq(|refs|, i requires 0 <= i < |refs| reads refs => refs[i].legs)
  }

  function Values(refs: seq<OrderRef>): (os: seq<Order>)
    reads refs, Cells(refs)
    ensures |os| == |refs| && forall i :: 0 <= i < |refs| ==> os[i] == refs[i].Value()
  {
    seq(|refs|, i requires 0 <= i < |refs| reads refs, Cells(refs) =>
      assert forall c :: c in refs[i].legs ==> c in Cells(refs); refs[i].Value())
  }

  /** All but the legs. */
  function Bares(refs: seq<OrderRef>): (os: seq<Order>)
    reads refs
    ensures |os| == |refs| && forall i :: 0 <= i < |refs| ==> os[i] == refs[i].o
  {
    seq(|refs|, i requires 0 <= i < |refs| reads refs => refs[i].o)
  }

  lemma HeapIsOne(refs: seq<OrderRef>)
    requires AllValid(refs)
    ensures OneHeap(refs, LegLists(refs), Values(refs))
    ensures forall i :: 0 <= i < |refs| ==> Bares(refs)[i] == Bare(Values(refs)[i])
  {
  }

  predicate NoRepeats(refs: seq<OrderRef>) {
    forall i, j :: 0 <= i < j < |refs| ==> refs[i] != refs[j]
  }

  lemma PreparedRole(o: Order, newId: string)
    ensures Prepared(o, newId).role == o.role || (o.role.NoRole? && Prepared(o, newId).role.Normal?)
  {
  }

  /** Preparing leaves the roles that identify a group alone. */
  lemma KindPrepared(os: seq<Order>, ids: seq<string>)
    requires |ids| >= |os|
    ensures Kind(PreparedAll(os, ids)) == Kind(os)
  {
    hide Prepared;
    var ps := PreparedAll(os, ids);
    forall i | 0 <= i < |os|
      ensures ps[i].role == os[i].role || (os[i].role.NoRole? && ps[i].role.Normal?)
    {
      PreparedRole(os[i], ids[i]);
    }
    forall role | role in {RoleOTOCO, RoleOTO, RoleOCO, RoleStopProfit, RoleStopLoss}
      ensures HasRole(ps, role) <==> HasRole(os, role)
    {
      if HasRole(os, role) {
        var i :| 0 <= i < |os| && os[i].role == role;
        assert ps[i].role == role;
      }
      if HasRole(ps, role) {
        var i :| 0 <= i < |ps| && ps[i].role == role;
        assert os[i].role == role;
      }
    }
  }

  predicate BaresOf(bs: seq<Order>, os: seq<Order>) {
    |bs| == |os| && forall i :: 0 <= i < |os| ==> bs[i] == Bare(os[i])
  }

  lemma {:induction false} CountBare(bs: seq<Order>, os: seq<Order>, role: Role)
    requires BaresOf(bs, os)
    ensures Count(bs, role) == Count(os, role)
    decreases |os|
  {
    if os != [] {
      CountBare(bs[..|bs| - 1], os[..|os| - 1], role);
    }
  }

  lemma RolesBare(bs: seq<Order>, os: seq<Order>)
    requires BaresOf(bs, os)
    ensures forall role :: HasRole(bs, role) <==> HasRole(os, role)
    ensures Kind(bs) == Kind(os)
  {
    hide Count;
    forall role
      ensures HasRole(bs, role) <==> HasRole(os, role)
    {
      CountBare(bs, os, role);
      CountPositive(bs, role);
      CountPositive(os, role);
    }
  }

  lemma MembersBare(kind: Role, bs: seq<Order>, os: seq<Order>)
    requires BaresOf(bs, os)
    ensures AllMembersOk(kind, bs) <==> AllMembersOk(kind, os)
  {
    hide ComboRules;
    forall i | 0 <= i < |os|
      ensures MemberOk(kind, bs[i]) <==> MemberOk(kind, os[i])
    {
    }
  }

  /** Whether a group is a group has nothing to do with legs. */
  lemma BaresDecide(bs: seq<Order>, os: seq<Order>)
    requires BaresOf(bs, os)
    ensures (DistinctIds(bs) <==> DistinctIds(os)) && Kind(bs) == Kind(os)
    ensures forall kind :: AllMembersOk(kind, bs) <==> AllMembersOk(kind, os)
    ensures forall kind :: CountsOk(kind, bs) <==> CountsOk(kind, os)
    ensures ExitsOk(bs) <==> ExitsOk(os)
  {
    hide Count, ComboRules, Kind, MemberOk, AllMembersOk;
    RolesBare(bs, os);
    forall role
      ensures Count(bs, role) == Count(os, role)
    {
      CountBare(bs, os, role);
    }
    forall kind
      ensures AllMembersOk(kind, bs) <==> AllMembersOk(kind, os)
    {
      MembersBare(kind, bs, os);
    }
  }

  method FindKind(os: seq<Order>) returns (kind: Option<Role>)
    ensures kind == Kind(os)
  {
    var roles: set<Role> := {};
    for i := 0 to |os|
      invariant forall role :: role in roles <==> HasRole(os[..i], role)
    {
      assert os[..i + 1] == os[..i] + [os[i]];
      forall role
        ensures HasRole(os[..i + 1], role) <==> HasRole(os[..i], role) || os[i].role == role
      {
        HasRoleOneMore(os[..i], os[i], role);
      }
      roles := roles + {os[i].role};
    }
    assert os[..|os|] == os;
    if RoleOTOCO in roles {
      return Some(RoleOTOCO);
    } else if RoleOTO in roles {
      return Some(RoleOTO);
    } else if RoleOCO in roles {
      return Some(RoleOCO);
    } else if RoleStopProfit in roles || RoleStopLoss in roles {
      return Some(RoleStopProfit);
    } else {
      return None;
    }
  }

  lemma HasRoleOneMore(os: seq<Order>, o: Order, role: Role)
    ensures HasRole(os + [o], role) <==> HasRole(os, role) || o.role == role
  {
    if HasRole(os, role) {
      var i :| 0 <= i < |os| && os[i].role == role;
      assert (os + [o])[i].role == role;
    }
    assert (os + [o])[|os|] == o;
  }

  predicate SingleInGroup(o: Order) {
    o.instrument.OptionContract? && o.role != Normal ==> o.strategy.Single?
  }

  /** Counts the problems of one member that has passed its own checks. */
  method CheckMember(kind: Role, o: Order) returns (problems: nat)
    requires SingleInGroup(o) && kind in {RoleStopProfit, RoleOTO, RoleOCO, RoleOTOCO}
    ensures problems == 0 <==> MemberOk(kind, o)
  {
    problems := 0;
    var rules := ComboRules(kind);
    if o.role !in rules {
      return 1;
    }
    if o.orderType !in rules[o.role].types {
      problems := problems + 1;
    }
    if kind.RoleOTO? || kind.RoleOCO? || kind.RoleOTOCO? {
      if !o.instrument.Equity? {
        problems := problems + 1;
      }
    } else {
      if o.instrument.OptionContract? && o.strategy != Single {
        problems := problems + 1;
      }
    }
  }

  /** Counts the roles that occur too rarely or too often, in whatever order the table lists them. */
  method CheckCounts(kind: Role, counts: map<Role, nat>, ghost os: seq<Order>) returns (problems: nat)
    requires forall role :: role in ComboRules(kind) ==> (if role in counts then counts[role] else 0) == Count(os, role)
    ensures problems == 0 <==> CountsOk(kind, os)
  {
    hide Count;
    problems := 0;
    var rules := ComboRules(kind);
    var left := rules.Keys;
    while left != {}
      invariant left <= rules.Keys
      invariant problems == 0 <==>
        forall role :: role in rules && role !in left ==> rules[role].min <= Count(os, role) <= rules[role].max
      decreases left
    {
      var role :| role in left;
      var n := if role in counts then counts[role] else 0;
      if n < rules[role].min || n > rules[role].max {
        problems := problems + 1;
      }
      left := left - {role};
    }
  }

  /** Counts what is wrong with a bracket as a whole. */
  method CheckExits(os: seq<Order>) returns (problems: nat)
    ensures Count(os, RoleMaster) <= 1 ==> (problems == 0 <==> ExitsClose(os))
  {
    problems := 0;
    var master: Option<nat> := None;
    for i := 0 to |os|
      invariant master.Some? ==> master.value < i && os[master.value].role.RoleMaster?
      invariant master.None? ==> forall j :: 0 <= j < i ==> !os[j].role.RoleMaster?
    {
      if os[i].role.RoleMaster? {
        master := Some(i);
      }
    }
    if master.None? {
      return;
    }
    var m := os[master.value];
    forall i | 0 <= i < |os| && os[i].role.RoleMaster? && Count(os, RoleMaster) <= 1
      ensures i == master.value
    {
      if i < master.value {
        CountTwice(os, i, master.value);
      } else if i > master.value {
        CountTwice(os, master.value, i);
      }
    }
    for j := 0 to |os|
      invariant problems == 0 <==>
        forall k :: 0 <= k < j && !os[k].role.RoleMaster? ==> os[k].symbol == m.symbol && Opposite(m.side, os[k].side)
    {
      if os[j].role.RoleMaster? {
        continue;
      }
      if os[j].symbol != m.symbol {
        problems := problems + 1;
      }
      if !Opposite(m.side, os[j].side) {
        problems := problems + 1;
      }
    }
  }

  ghost predicate IdsMatch(os: seq<Order>, ids: set<string>) {
    forall id :: id in ids <==> exists i :: 0 <= i < |os| && os[i].clientOrderID == id
  }

  predicate CountsMatch(kind: Role, os: seq<Order>, counts: map<Role, nat>) {
    forall role :: role in ComboRules(kind) ==> (if role in counts then counts[role] else 0) == Count(os, role)
  }

  predicate AllMembersOk(kind: Role, os: seq<Order>) {
    forall i :: 0 <= i < |os| ==> MemberOk(kind, os[i])
  }

  lemma IdsOneMore(os: seq<Order>, ids: set<string>, o: Order)
    requires IdsMatch(os, ids)
    ensures IdsMatch(os + [o], ids + {o.clientOrderID})
    ensures DistinctIds(os + [o]) <==> DistinctIds(os) && o.clientOrderID !in ids
  {
    var os' := os + [o];
    assert forall i :: 0 <= i < |os| ==> os'[i] == os[i];
    assert os'[|os|] == o;
    forall id
      ensures id in ids + {o.clientOrderID} <==> exists i :: 0 <= i < |os'| && os'[i].clientOrderID == id
    {
      if id in ids {
        var i :| 0 <= i < |os| && os[i].clientOrderID == id;
        assert os'[i].clientOrderID == id;
      }
    }
    if o.clientOrderID in ids {
      var i :| 0 <= i < |os| && os[i].clientOrderID == o.clientOrderID;
      assert os'[i].clientOrderID == os'[|os|].clientOrderID;
    }
  }

  /** The counts with one more member, if its role belongs in the group. */
  function Counted(kind: Role, counts: map<Role, nat>, o: Order): map<Role, nat> {
    if o.role !in ComboRules(kind) then counts
    else counts[o.role := (if o.role in counts then counts[o.role] else 0) + 1]
  }

  lemma CountsOneMore(kind: Role, os: seq<Order>, counts: map<Role, nat>, o: Order)
    requires CountsMatch(kind, os, counts)
    ensures CountsMatch(kind, os + [o], Counted(kind, counts, o))
  {
    assert (os + [o])[..|os|] == os;
  }

  lemma MembersOneMore(kind: Role, os: seq<Order>, o: Order)
    ensures AllMembersOk(kind, os + [o]) <==> AllMembersOk(kind, os) && MemberOk(kind, o)
  {
    var os' := os + [o];
    assert forall i :: 0 <= i < |os| ==> os'[i] == os[i];
    assert os'[|os|] == o;
  }

  class Combo {
    var clientComboOrderID: string
    var orders: seq<OrderRef?>

    /** Appends an order in the given role; with no order it does nothing. */
    method Add(role: Role, r: OrderRef?)
      modifies this`orders, ({r} - {null})`o
      ensures orders == old(orders) + (if r == null then [] else [r])
      ensures r != null ==> r.o == old(r.o).(role := role)
    {
      if r == null {
        return;
      }
      r.o := r.o.(role := role);
      orders := orders + [r];
    }

    /** Appends an order in the given role, and a missing one as missing. */
    method AddRequired(role: Role, r: OrderRef?)
      modifies this`orders, ({r} - {null})`o
      ensures orders == old(orders) + [r]
      ensures r != null ==> r.o == old(r.o).(role := role)
    {
      if r == null {
        orders := orders + [null];
        return;
      }
      r.o := r.o.(role := role);
      orders := orders + [r];
    }

    method AddAll(role: Role, rs: seq<OrderRef?>)
      modifies this`orders, (set r | r in rs && r != null)`o
      ensures orders == old(orders) + rs
      ensures forall r: OrderRef :: r in rs ==> r.o == old(r.o).(role := role)
    {
      for i := 0 to |rs|
        invariant orders == old(orders) + rs[..i]
        invariant forall r: OrderRef :: r in rs ==> r.o == if r in rs[..i] then old(r.o).(role := role) else old(r.o)
      {
        AddRequired(role, rs[i]);
        assert rs[..i + 1] == rs[..i] + [rs[i]];
      }
      assert rs[..|rs|] == rs;
    }

    /** An order and its exits, of which those that are missing are left out. An object given
        twice keeps the later role. */
    constructor Bracket(master: OrderRef?, takeProfit: OrderRef?, stopLoss: OrderRef?)
      modifies ({master, takeProfit, stopLoss} - {null})`o
      ensures clientComboOrderID == ""
      ensures orders == (if master == null then [] else [master]) + (if takeProfit == null then [] else [takeProfit])
        + (if stopLoss == null then [] else [stopLoss])
      ensures forall r: OrderRef :: r in {master, takeProfit, stopLoss} ==> r.o == old(r.o).(role := r.o.role)
      ensures stopLoss != null ==> stopLoss.o == old(stopLoss.o).(role := RoleStopLoss)
      ensures takeProfit != null && takeProfit != stopLoss ==>
        takeProfit.o == old(takeProfit.o).(role := RoleStopProfit)
      ensures master != null && master !in {takeProfit, stopLoss} ==> master.o == old(master.o).(role := RoleMaster)
    {
      clientComboOrderID, orders := "", [];
      new;
      Add(RoleMaster, master);
      Add(RoleStopProfit, takeProfit);
      Add(RoleStopLoss, stopLoss);
    }

    /** A master and the orders it triggers. */
    constructor OTO(master: OrderRef?, triggered: seq<OrderRef?>)
      modifies (({master} + set r | r in triggered) - {null})`o
      ensures clientComboOrderID == "" && orders == [master] + triggered
      ensures forall r: OrderRef :: r in triggered ==> r.o == old(r.o).(role := RoleOTO)
      ensures master != null && master !in triggered ==> master.o == old(master.o).(role := RoleMaster)
    {
      clientComboOrderID, orders := "", [];
      new;
      AddRequired(RoleMaster, master);
      AddAll(RoleOTO, triggered);
    }

    /** Orders that cancel each other. */
    constructor OCO(rs: seq<OrderRef?>)
      modifies (set r | r in rs && r != null)`o
      ensures clientComboOrderID == "" && orders == rs
      ensures forall r: OrderRef :: r in rs ==> r.o == old(r.o).(role := RoleOCO)
    {
      clientComboOrderID, orders := "", [];
      new;
      AddAll(RoleOCO, rs);
    }

    /** A master and the orders it triggers, which cancel each other. */
    constructor OTOCO(master: OrderRef?, oco: seq<OrderRef?>)
      modifies (({master} + set r | r in oco) - {null})`o
      ensures clientComboOrderID == "" && orders == [master] + oco
      ensures forall r: OrderRef :: r in oco ==> r.o == old(r.o).(role := RoleOTOCO)
      ensures master != null && master !in oco ==> master.o == old(master.o).(role := RoleMaster)
    {
      clientComboOrderID, orders := "", [];
      new;
      AddRequired(RoleMaster, master);
      AddAll(RoleOTOCO, oco);
    }

    /** Prepares one member on the heap. */
    method PrepareOn(refs: seq<OrderRef>, i: nat, newId: string) returns (accepted: bool)
      requires AllValid(refs) && i < |refs| && IdOk(newId)
      modifies refs[i], refs[i].legs
      ensures AllValid(refs) && LegLists(refs) == old(LegLists(refs))
      ensures PreparesOne(refs, LegLists(refs), i, newId, old(Values(refs)), Values(refs))
      ensures accepted <==> Acceptable(Values(refs)[i])
    {
      hide Prepared, Acceptable, Bare, OneHeap;
      HeapIsOne(refs);
      accepted := refs[i].Prepare(newId);
      HeapIsOne(refs);
      assert LegLists(refs) == old(LegLists(refs));
      forall j | 0 <= j < |refs| && refs[j] != refs[i]
        ensures Bare(Values(refs)[j]) == Bare(old(Values(refs))[j])
      {
        assert refs[j].o == old(refs[j].o);
      }
    }

    /** Prepares the next member, which may be an object that was prepared before, and whose
        legs others may share. `now` and `now'` are the members' values. */
    method PrepareMember(refs: seq<OrderRef>, i: nat, newId: string, ghost now: seq<Order>, ghost olds: seq<Order>,
                         ghost ids: seq<string>, ghost ps: seq<Order>)
      returns (accepted: bool, ghost now': seq<Order>)
      requires AllValid(refs) && now == Values(refs) && i < |refs| == |ids| && newId == ids[i]
      requires Along(refs, i, now, olds, ps) && Alone(olds, ids, ps)
      modifies refs[i], refs[i].legs
      ensures AllValid(refs) && LegLists(refs) == old(LegLists(refs)) && now' == Values(refs)
      ensures accepted <==> StoodBefore(refs, i) || Acceptable(ps[i])
      ensures |now'| == |now| == |refs| && (NoRepeats(refs) ==> UpTo(now', olds, ps, i + 1))
      ensures accepted ==> Along(refs, i + 1, now', olds, ps) && SingleInGroup(Bare(now'[i]))
      ensures accepted ==> forall j :: 0 <= j < i ==> Bare(now'[j]) == Bare(now[j])
      ensures accepted && !StoodBefore(refs, i) && LegsAre(LegLists(refs), ps, i, now, olds) ==>
        LegsAre(LegLists(refs), ps, i + 1, now', olds)
    {
      hide Prepared, Acceptable, Along, Alone, LegsAre, PreparesOne, StoodBefore, Values, AllValid, Bare, UpTo;
      ghost var cells := LegLists(refs);
      AloneIds(olds, ids, ps, i);
      AlongLengths(refs, i, now, olds, ps);
      accepted := PrepareOn(refs, i, newId);
      now' := Values(refs);
      PreparedHere(refs, cells, i, newId, now, now');
      SameVerdict(refs, cells, i, now, olds, ids, ps);
      if NoRepeats(refs) {
        UpToOneMore(refs, cells, i, now, olds, ids, ps, now');
      }
      if accepted {
        AlongOneMore(refs, cells, i, now, olds, ids, ps, now');
        AcceptedMember(now'[i]);
        if LegsAre(cells, ps, i, now, olds) && !StoodBefore(refs, i) {
          LegsOneMore(refs, cells, i, newId, now, olds, ps, now');
        }
      }
    }

    /** Completes and checks the members and the group. `newId` and `ids` are the identifiers
        that are generated where there are none. The verdict is the one the members deserve
        when each is prepared on its own, even where they share legs; the legs they are left
        with are what one member after the other made of them. */
    method Prepare(newId: string, ids: seq<string>) returns (ok: bool)
      requires IdOk(newId) && |ids| == |orders| && forall i :: 0 <= i < |ids| ==> IdOk(ids[i])
      requires forall r: OrderRef :: r in orders ==> r.Valid()
      modifies this`clientComboOrderID, (set r: OrderRef? | r in orders && r != null), StorageOf(orders)
      ensures orders == old(orders) && forall r: OrderRef :: r in orders ==> r.Valid()
      ensures clientComboOrderID ==
        if old(clientComboOrderID) == "" && old(orders) != [] && null !in old(orders) then newId
        else old(clientComboOrderID)
      ensures old(null in orders) ==> !ok
      ensures null !in old(orders) ==>
        var refs: seq<OrderRef> := old(orders);
        && LegLists(refs) == old(LegLists(refs))
        && (ok <==> IdOk(clientComboOrderID) && GroupPasses(refs, old(Values(refs)), ids))
        && (ok ==> GroupBecomes(LegLists(refs), old(Values(refs)), ids, Values(refs)))
        && (NoRepeats(refs) ==> PartlyPrepared(old(Values(refs)), ids, Values(refs)))
    {
      hide PartlyPrepared, NoRepeats, GroupPasses, GroupBecomes, Values, StorageOf, OrderRef.Valid, Cells;
      if |orders| == 0 {
        EmptyFails(ids);
        NothingPrepared([], ids);
        return false;
      }
      for i := 0 to |orders|
        invariant null !in orders[..i]
      {
        if orders[i] == null {
          return false;
        }
      }
      assert orders[..|orders|] == orders;
      var refs: seq<OrderRef> := orders;
      InStorage(this, refs);
      ok := PrepareAll(refs, newId, ids, Values(refs), LegLists(refs), StorageOf(orders));
      StillValid(this, refs);
    }

    /** `Prepare` of a group in which no member is missing. */
    method PrepareAll(refs: seq<OrderRef>, newId: string, ids: seq<string>, ghost olds: seq<Order>,
                      ghost cells: seq<seq<LegRef>>, ghost storage: set<LegRef>)
      returns (ok: bool)
      requires IdOk(newId) && |ids| == |refs| && forall i :: 0 <= i < |ids| ==> IdOk(ids[i])
      requires AllValid(refs) && refs != [] && olds == Values(refs)
      requires cells == LegLists(refs) && forall i, c :: 0 <= i < |refs| && c in cells[i] ==> c in storage
      modifies this`clientComboOrderID, refs, storage
      ensures AllValid(refs) && LegLists(refs) == cells
      ensures clientComboOrderID == if old(clientComboOrderID) == "" then newId else old(clientComboOrderID)
      ensures ok <==> IdOk(clientComboOrderID) && GroupPasses(refs, olds, ids)
      ensures ok ==> GroupBecomes(cells, olds, ids, Values(refs))
      ensures NoRepeats(refs) ==> PartlyPrepared(olds, ids, Values(refs))
    {
      hide PreparedAll, PartlyPrepared, NoRepeats, AllValid, GroupPasses, GroupBecomes, Kind, Values, Bares;
      KindOfBares(refs, olds, ids);
      NothingPrepared(olds, ids);
      if clientComboOrderID == "" {
        clientComboOrderID := newId;
      }
      if |clientComboOrderID| < ID_MIN || |clientComboOrderID| > ID_MAX {
        assert Values(refs) == olds;
        return false;
      }
      var found := FindKind(Bares(refs));
      if found.None? {
        KindlessFails(refs, olds, ids);
        assert Values(refs) == olds;
        return false;
      }
      ok := CheckMembers(refs, found.value, ids, olds, cells, storage);
    }

    /** The rest of `Prepare`, once the kind of group is known. */
    method CheckMembers(refs: seq<OrderRef>, kind: Role, ids: seq<string>, ghost olds: seq<Order>,
                        ghost cells: seq<seq<LegRef>>, ghost storage: set<LegRef>)
      returns (ok: bool)
      requires AllValid(refs) && refs != [] && |ids| == |refs| && forall i :: 0 <= i < |ids| ==> IdOk(ids[i])
      requires olds == Values(refs) && Kind(PreparedAll(olds, ids)) == Some(kind)
      requires cells == LegLists(refs) && forall i, c :: 0 <= i < |refs| && c in cells[i] ==> c in storage
      modifies refs, storage
      ensures AllValid(refs) && LegLists(refs) == cells
      ensures ok <==> GroupPasses(refs, olds, ids)
      ensures ok ==> GroupBecomes(cells, olds, ids, Values(refs))
      ensures NoRepeats(refs) ==> PartlyPrepared(olds, ids, Values(refs))
    {
      hide UpTo, Along, Alone, LegsAre, Acceptable, Checked, GroupBecomes, GroupPasses, Values, Prepared, AllValid,
        Cells, OneHeap, CountsOk, ExitsOk, DistinctIds, AllMembersOk, TableOk, Kind, NoRepeats;
      ghost var ps := PreparedAll(olds, ids);
      PreparedAlone(olds, ids);
      KindIsDependent(ps);
      HeapIsOne(refs);
      var accepted, problems, counts, _, now := EachMember(refs, kind, ids, olds, ps, cells, storage);
      assert NoRepeats(refs) ==> PartlyPrepared(olds, ids, now);
      hide PartlyPrepared;
      if !accepted {
        MemberFails(refs, olds, ids);
        return false;
      }
      HeapIsOne(refs);
      CheckedMeans(kind, Bares(refs), problems, counts);
      var more := CheckGroup(kind, Bares(refs), counts);
      assert now == Values(refs);
      ok := problems + more == 0;
      GroupDecided(refs, kind, now, Bares(refs), olds, ids);
      if ok {
        GroupLeft(refs, cells, now, Bares(refs), olds, ids);
      }
    }

    /** One turn of the loop over the members. `vs` are the members checked so far. */
    method NextMember(refs: seq<OrderRef>, kind: Role, i: nat, newId: string, problems0: nat, counts0: map<Role, nat>,
                      seen0: set<string>, ghost now0: seq<Order>, ghost olds: seq<Order>, ghost ids: seq<string>,
                      ghost ps: seq<Order>, ghost vs: seq<Order>)
      returns (accepted: bool, problems: nat, counts: map<Role, nat>, seen: set<string>, ghost now: seq<Order>)
      requires AllValid(refs) && now0 == Values(refs) && i < |refs| == |ids| && newId == ids[i]
      requires Along(refs, i, now0, olds, ps) && Alone(olds, ids, ps) && Checked(kind, vs, problems0, counts0, seen0)
      requires kind in {RoleStopProfit, RoleOTO, RoleOCO, RoleOTOCO}
      requires |vs| == i <= |now0| && forall j :: 0 <= j < i ==> vs[j] == Bare(now0[j])
      requires NoRepeats(refs) ==> LegsAre(LegLists(refs), ps, i, now0, olds)
      modifies refs[i], refs[i].legs
      ensures AllValid(refs) && LegLists(refs) == old(LegLists(refs)) && now == Values(refs)
      ensures !accepted ==> i < |ps| && !Acceptable(ps[i])
      ensures NoRepeats(refs) ==> UpTo(now, olds, ps, i + 1)
      ensures accepted ==>
        && Along(refs, i + 1, now, olds, ps) && i < |now| && Checked(kind, vs + [Bare(now[i])], problems, counts, seen)
        && (forall j :: 0 <= j < i ==> vs[j] == Bare(now[j]))
        && (NoRepeats(refs) ==> LegsAre(LegLists(refs), ps, i + 1, now, olds))
    {
      hide Along, Alone, LegsAre, Acceptable, Checked, StoodBefore, NoRepeats, Values, AllValid, Bare, OneHeap, UpTo;
      problems, counts, seen := problems0, counts0, seen0;
      NoneStoodBefore(refs, i);
      AloneIds(olds, ids, ps, i);
      accepted, now := PrepareMember(refs, i, newId, now0, olds, ids, ps);
      if accepted {
        BareAt(refs, i);
        problems, counts, seen := NoteMember(kind, refs[i].o, problems0, counts0, seen0, vs);
      }
    }

    /** What is noted of a member that was accepted. */
    method NoteMember(kind: Role, o: Order, problems0: nat, counts0: map<Role, nat>, seen0: set<string>,
                      ghost vs: seq<Order>)
      returns (problems: nat, counts: map<Role, nat>, seen: set<string>)
      requires Checked(kind, vs, problems0, counts0, seen0) && SingleInGroup(o)
      requires kind in {RoleStopProfit, RoleOTO, RoleOCO, RoleOTOCO}
      ensures Checked(kind, vs + [o], problems, counts, seen)
    {
      hide MemberOk, Checked, ComboRules;
      problems, counts, seen := problems0, counts0, seen0;
      var repeated := if o.clientOrderID in seen then 1 else 0;
      var found := CheckMember(kind, o);
      CheckedOneMore(kind, vs, problems, counts, seen, o, repeated, found);
      problems := problems + repeated + found;
      seen := seen + {o.clientOrderID};
      if o.role in ComboRules(kind) {
        counts := counts[o.role := (if o.role in counts then counts[o.role] else 0) + 1];
      }
    }

    /** The loop over the members: each is prepared and checked, until one is refused. */
    method EachMember(refs: seq<OrderRef>, kind: Role, ids: seq<string>, ghost olds: seq<Order>, ghost ps: seq<Order>,
                      ghost cells: seq<seq<LegRef>>, ghost storage: set<LegRef>)
      returns (accepted: bool, problems: nat, counts: map<Role, nat>, seen: set<string>, ghost now: seq<Order>)
      requires AllValid(refs) && Alone(olds, ids, ps) && |ids| == |refs|
      requires olds == Values(refs) && kind in {RoleStopProfit, RoleOTO, RoleOCO, RoleOTOCO}
      requires cells == LegLists(refs) && forall i, c :: 0 <= i < |refs| && c in cells[i] ==> c in storage
      modifies refs, storage
      ensures AllValid(refs) && LegLists(refs) == cells && now == Values(refs)
      ensures !accepted ==> exists i :: 0 <= i < |ps| && !Acceptable(ps[i])
      ensures accepted ==> Along(refs, |refs|, now, olds, ps)
      ensures accepted ==> Checked(kind, Bares(refs), problems, counts, seen)
      ensures accepted && NoRepeats(refs) ==> LegsAre(cells, ps, |refs|, now, olds)
      ensures NoRepeats(refs) ==> exists k :: UpTo(now, olds, ps, k)
    {
      hide Along, Alone, LegsAre, Acceptable, Checked, NoRepeats, Values, AllValid, Bare, OneHeap, Cells, Kind, Bares,
        UpTo;
      accepted, problems, counts, seen := true, 0, map[], {};
      ghost var vs: seq<Order> := [];
      now := olds;
      HeapIsOne(refs);
      NoneYet(refs, kind, cells, olds, ids, ps);
      for i := 0 to |refs|
        invariant AllValid(refs) && LegLists(refs) == cells && now == Values(refs)
        invariant Along(refs, i, now, olds, ps)
        invariant |vs| == i && forall j :: 0 <= j < i ==> vs[j] == Bare(now[j])
        invariant Checked(kind, vs, problems, counts, seen)
        invariant NoRepeats(refs) ==> LegsAre(cells, ps, i, now, olds) && UpTo(now, olds, ps, i)
      {
        assert refs[i].legs == cells[i];
        accepted, problems, counts, seen, now :=
          NextMember(refs, kind, i, ids[i], problems, counts, seen, now, olds, ids, ps, vs);
        if !accepted {
          return;
        }
        vs := vs + [Bare(now[i])];
      }
      BaresAre(refs, now, vs);
    }
  }

  /** The verdict on a group: its members are different objects and would be a valid group if
      each were prepared on its own. */
  ghost predicate GroupPasses(refs: seq<OrderRef>, olds: seq<Order>, ids: seq<string>)
    requires |ids| >= |olds|
  {
    refs != [] && NoRepeats(refs) && ValidGroup(PreparedAll(olds, ids))
  }

  /** What an accepted group is left with: each member is, but for its legs, what it would be
      if it were prepared on its own; each leg is what the members that hold it made of it, one
      after the other; and that is what each alone would make exactly if they agree. */
  ghost predicate GroupBecomes(cells: seq<seq<LegRef>>, olds: seq<Order>, ids: seq<string>, now: seq<Order>)
    requires |ids| >= |olds|
  {
    var ps := PreparedAll(olds, ids);
    && |now| == |ps| && (forall i :: 0 <= i < |ps| ==> Bare(now[i]) == Bare(ps[i]))
    && LegsAre(cells, ps, |cells|, now, olds)
    && (now == ps <==> LegsAgree(cells, ps))
  }

  /** What any call leaves, also one that refuses the group: the members up to some point are, but
      for their legs, what each would be if it were prepared on its own, and the rest what they were. */
  ghost predicate PartlyPrepared(olds: seq<Order>, ids: seq<string>, now: seq<Order>)
    requires |ids| >= |olds|
  {
    exists k :: UpTo(now, olds, PreparedAll(olds, ids), k)
  }

  lemma NothingPrepared(olds: seq<Order>, ids: seq<string>)
    requires |ids| >= |olds|
    ensures PartlyPrepared(olds, ids, olds)
  {
    hide Prepared;
    assert UpTo(olds, olds, PreparedAll(olds, ids), 0);
  }

  lemma InStorage(c: Combo, refs: seq<OrderRef>)
    requires c.orders == refs && forall r: OrderRef :: r in c.orders ==> r.Valid()
    ensures AllValid(refs) && forall i :: 0 <= i < |refs| ==> refs[i] in c.orders
    ensures forall i, cell :: 0 <= i < |refs| && cell in LegLists(refs)[i] ==> cell in StorageOf(c.orders)
  {
  }

  lemma BareAt(refs: seq<OrderRef>, i: nat)
    requires AllValid(refs) && i < |refs|
    ensures refs[i].o == Bare(Values(refs)[i])
  {
  }

  lemma KindOfBares(refs: seq<OrderRef>, olds: seq<Order>, ids: seq<string>)
    requires AllValid(refs) && olds == Values(refs) && |ids| >= |olds|
    ensures Kind(Bares(refs)) == Kind(PreparedAll(olds, ids))
  {
    hide Prepared, Kind;
    HeapIsOne(refs);
    KindPrepared(olds, ids);
    BaresDecide(Bares(refs), olds);
  }

  lemma StillValid(c: Combo, refs: seq<OrderRef>)
    requires c.orders == refs && AllValid(refs)
    ensures forall r: OrderRef :: r in c.orders ==> r.Valid()
  {
  }

  lemma BaresAre(refs: seq<OrderRef>, now: seq<Order>, vs: seq<Order>)
    requires AllValid(refs) && now == Values(refs) && |vs| == |refs|
    requires forall j :: 0 <= j < |refs| ==> vs[j] == Bare(now[j])
    ensures vs == Bares(refs)
  {
    HeapIsOne(refs);
  }

  lemma AlongLengths(refs: seq<OrderRef>, i: nat, now: seq<Order>, olds: seq<Order>, ps: seq<Order>)
    requires Along(refs, i, now, olds, ps)
    ensures |refs| == |now| == |olds| == |ps|
  {
  }

  lemma EmptyFails(ids: seq<string>)
    ensures !GroupPasses([], [], ids)
  {
  }

  lemma KindlessFails(refs: seq<OrderRef>, olds: seq<Order>, ids: seq<string>)
    requires |ids| >= |olds| && Kind(PreparedAll(olds, ids)).None?
    ensures !GroupPasses(refs, olds, ids)
  {
    TableMeansFamilies(PreparedAll(olds, ids));
    hide IsBracket, IsOTO, IsOCO, IsOTOCO;
  }

  lemma MemberFails(refs: seq<OrderRef>, olds: seq<Order>, ids: seq<string>)
    requires |ids| >= |olds| && exists i :: 0 <= i < |olds| && !Acceptable(PreparedAll(olds, ids)[i])
    ensures !GroupPasses(refs, olds, ids)
  {
  }

  lemma KindIsDependent(os: seq<Order>)
    ensures Kind(os).Some? ==> Kind(os).value in {RoleStopProfit, RoleOTO, RoleOCO, RoleOTOCO}
  {
  }

  /** Once all members are accepted, what the checks find on the prepared objects decides. */
  lemma GroupDecided(refs: seq<OrderRef>, kind: Role, now: seq<Order>, bs: seq<Order>, olds: seq<Order>,
                     ids: seq<string>)
    requires |ids| >= |olds| == |refs| && refs != []
    requires Kind(PreparedAll(olds, ids)) == Some(kind) && Along(refs, |refs|, now, olds, PreparedAll(olds, ids))
    requires BaresOf(bs, now) && forall i, j :: 0 <= i < j < |refs| && refs[i] == refs[j] ==> now[i] == now[j]
    ensures GroupPasses(refs, olds, ids) <==>
      DistinctIds(bs) && AllMembersOk(kind, bs) && CountsOk(kind, bs) && (kind.RoleStopProfit? ==> ExitsOk(bs))
  {
    var ps := PreparedAll(olds, ids);
    SameWhenDistinct(refs, now, bs, olds, ps);
    TableMeansFamilies(ps);
    hide IsBracket, IsOTO, IsOCO, IsOTOCO, Along, Acceptable, Prepared;
    if NoRepeats(refs) {
      BaresDecide(bs, ps);
    }
  }

  lemma GroupLeft(refs: seq<OrderRef>, cells: seq<seq<LegRef>>, now: seq<Order>, bs: seq<Order>, olds: seq<Order>,
                  ids: seq<string>)
    requires |ids| == |olds| == |refs| && GroupPasses(refs, olds, ids) && forall i :: 0 <= i < |ids| ==> IdOk(ids[i])
    requires OneHeap(refs, cells, now) && OneHeap(refs, cells, olds) && BaresOf(bs, now)
    requires Along(refs, |refs|, now, olds, PreparedAll(olds, ids))
    requires NoRepeats(refs) ==> LegsAre(cells, PreparedAll(olds, ids), |refs|, now, olds)
    ensures GroupBecomes(cells, olds, ids, now)
  {
    var ps := PreparedAll(olds, ids);
    SameWhenDistinct(refs, now, bs, olds, ps);
    PreparedAlone(olds, ids);
    hide Along, Acceptable, Prepared, LegsAre, Alone, OneHeap;
    SameLengths(refs, cells, olds);
    SameLengths(refs, cells, now);
    AcceptedIds(olds, ids, ps, cells);
    AloneExactly(refs, cells, now, olds, ids, ps);
  }

  lemma SameLengths(refs: seq<OrderRef>, cells: seq<seq<LegRef>>, now: seq<Order>)
    requires OneHeap(refs, cells, now)
    ensures |refs| == |cells| == |now| && forall i :: 0 <= i < |cells| ==> |cells[i]| == |now[i].legs|
  {
  }

  lemma PreparedAlone(olds: seq<Order>, ids: seq<string>)
    requires |ids| == |olds| && forall i :: 0 <= i < |ids| ==> IdOk(ids[i])
    ensures Alone(olds, ids, PreparedAll(olds, ids))
  {
  }

  lemma AloneIds(olds: seq<Order>, ids: seq<string>, ps: seq<Order>, i: nat)
    requires Alone(olds, ids, ps) && i < |ids|
    ensures |ps| == |ids| && IdOk(ids[i])
  {
  }

  lemma AcceptedMember(o: Order)
    requires Acceptable(o)
    ensures SingleInGroup(Bare(o)) && IdOk(o.clientOrderID)
  {
  }

  lemma AcceptedIds(olds: seq<Order>, ids: seq<string>, ps: seq<Order>, cells: seq<seq<LegRef>>)
    requires Alone(olds, ids, ps) && |cells| == |olds| && forall i :: 0 <= i < |cells| ==> |cells[i]| == |olds[i].legs|
    requires forall i :: 0 <= i < |ps| ==> Acceptable(ps[i])
    ensures forall i :: 0 <= i < |ps| ==> IdOk(ps[i].clientOrderID) && |cells[i]| == |ps[i].legs|
  {
    hide Prepared;
    forall i | 0 <= i < |ps|
      ensures IdOk(ps[i].clientOrderID) && |cells[i]| == |ps[i].legs|
    {
      AcceptedMember(ps[i]);
      PreparedLegs(olds[i], ids[i]);
    }
  }

  lemma NoneStoodBefore(refs: seq<OrderRef>, i: nat)
    requires i < |refs|
    ensures NoRepeats(refs) ==> !StoodBefore(refs, i)
  {
  }

  lemma NoneYet(refs: seq<OrderRef>, kind: Role, cells: seq<seq<LegRef>>, olds: seq<Order>, ids: seq<string>,
                ps: seq<Order>)
    requires |refs| == |olds| == |cells| && Alone(olds, ids, ps)
    requires forall i :: 0 <= i < |refs| ==> |cells[i]| == |olds[i].legs|
    ensures Along(refs, 0, olds, olds, ps) && LegsAre(cells, ps, 0, olds, olds) && Checked(kind, [], 0, map[], {})
    ensures UpTo(olds, olds, ps, 0)
  {
    forall j | 0 <= j < |refs|
      ensures Like(olds[j], olds[j])
    {
    }
  }

  /** What the loop over the members has established about their values. */
  ghost predicate Checked(kind: Role, os: seq<Order>, problems: nat, counts: map<Role, nat>, seen: set<string>) {
    && (problems == 0 <==> DistinctIds(os) && AllMembersOk(kind, os))
    && CountsMatch(kind, os, counts) && IdsMatch(os, seen)
  }

  lemma CheckedMeans(kind: Role, os: seq<Order>, problems: nat, counts: map<Role, nat>)
    requires exists seen :: Checked(kind, os, problems, counts, seen)
    ensures problems == 0 <==> DistinctIds(os) && AllMembersOk(kind, os)
    ensures CountsMatch(kind, os, counts)
  {
  }

  lemma CheckedOneMore(kind: Role, os: seq<Order>, problems: nat, counts: map<Role, nat>, seen: set<string>,
                       o: Order, repeated: nat, found: nat)
    requires Checked(kind, os, problems, counts, seen)
    requires repeated == (if o.clientOrderID in seen then 1 else 0) && (found == 0 <==> MemberOk(kind, o))
    ensures Checked(kind, os + [o], problems + repeated + found, Counted(kind, counts, o), seen + {o.clientOrderID})
  {
    IdsOneMore(os, seen, o);
    CountsOneMore(kind, os, counts, o);
    MembersOneMore(kind, os, o);
  }

  /** Counts the problems of the group as a whole. */
  method CheckGroup(kind: Role, os: seq<Order>, counts: map<Role, nat>) returns (problems: nat)
    requires CountsMatch(kind, os, counts) && kind in {RoleStopProfit, RoleOTO, RoleOCO, RoleOTOCO}
    ensures problems == 0 <==> CountsOk(kind, os) && (kind.RoleStopProfit? ==> ExitsOk(os))
  {
    problems := CheckCounts(kind, counts, os);
    CountsOkMeans(kind, os);
    if kind.RoleStopProfit? {
      var profits := if RoleStopProfit in counts then counts[RoleStopProfit] else 0;
      var losses := if RoleStopLoss in counts then counts[RoleStopLoss] else 0;
      if profits + losses == 0 {
        problems := problems + 1;
      }
      var wrong := CheckExits(os);
      problems := problems + wrong;
    }
  }

  /** Members with distinct ids are different objects; and different objects that were all
      accepted are, but for their legs, what each would be if it were prepared on its own. */
  lemma SameWhenDistinct(refs: seq<OrderRef>, now: seq<Order>, bs: seq<Order>, olds: seq<Order>, ps: seq<Order>)
    requires Along(refs, |refs|, now, olds, ps) && BaresOf(bs, now)
    requires forall i, j :: 0 <= i < j < |refs| && refs[i] == refs[j] ==> now[i] == now[j]
    ensures DistinctIds(bs) ==> NoRepeats(refs)
    ensures NoRepeats(refs) ==> BaresOf(bs, ps) && forall i :: 0 <= i < |ps| ==> Acceptable(ps[i])
  {
    hide Acceptable;
    if NoRepeats(refs) {
      forall i | 0 <= i < |ps|
        ensures bs[i] == Bare(ps[i]) && Acceptable(ps[i])
      {
        NoneStoodBefore(refs, i);
        assert Like(now[i], ps[i]);
      }
    }
  }

  // ---------- the order of the members does not matter ----------

  /** A member as it is handed over: the object, its value, and the id it would be given. */
  datatype Member = Member(order: OrderRef, was: Order, newId: string)

  function Map<A, B>(s: seq<A>, f: A -> B): (t: seq<B>)
    ensures |t| == |s| && forall i :: 0 <= i < |s| ==> t[i] == f(s[i])
  {
    seq(|s|, i requires 0 <= i < |s| => f(s[i]))
  }

  lemma MapWithout<A, B>(s: seq<A>, j: nat, f: A -> B)
    requires j < |s|
    ensures multiset(s[..j] + s[j + 1..]) == multiset(s) - multiset{s[j]}
    ensures multiset(Map(s, f)) == multiset(Map(s[..j] + s[j + 1..], f)) + multiset{f(s[j])}
  {
    assert s == s[..j] + ([s[j]] + s[j + 1..]);
    assert Map(s, f) == Map(s[..j], f) + ([f(s[j])] + Map(s[j + 1..], f));
    assert Map(s[..j] + s[j + 1..], f) == Map(s[..j], f) + Map(s[j + 1..], f);
  }

  lemma {:induction false} MapPermuted<A, B>(a: seq<A>, b: seq<A>, f: A -> B)
    requires multiset(a) == multiset(b)
    ensures multiset(Map(a, f)) == multiset(Map(b, f))
    decreases |a|
  {
    if a == [] {
      assert |multiset(b)| == 0;
    } else {
      hide Map;
      var n := |a| - 1;
      assert a[n] in multiset(b);
      var j :| 0 <= j < |b| && b[j] == a[n];
      MapWithout(a, n, f);
      MapWithout(b, j, f);
      MapPermuted(a[..n] + a[n + 1..], b[..j] + b[j + 1..], f);
    }
  }

  lemma NoRepeatsMeans(refs: seq<OrderRef>)
    ensures NoRepeats(refs) <==> forall r :: r in multiset(refs) ==> multiset(refs)[r] == 1
  {
    forall r | r in multiset(refs) && NoRepeats(refs)
      ensures multiset(refs)[r] == 1
    {
      if multiset(refs)[r] >= 2 {
        RepeatedAt(refs, r);
      }
    }
    if (forall r :: r in multiset(refs) ==> multiset(refs)[r] == 1) && !NoRepeats(refs) {
      var i, j :| 0 <= i < j < |refs| && refs[i] == refs[j];
      RepeatedMember(refs, i, j);
      assert refs[i] in multiset(refs);
    }
  }

  ghost predicate MembersPass(ms: seq<Member>) {
    GroupPasses(Map(ms, (m: Member) => m.order), Map(ms, (m: Member) => m.was), Map(ms, (m: Member) => m.newId))
  }

  lemma MembersPassMeans(ms: seq<Member>)
    ensures var orders, alone := Map(ms, (m: Member) => m.order), Map(ms, (m: Member) => Prepared(m.was, m.newId));
      MembersPass(ms) <==> ms != [] && NoRepeats(orders) && ValidGroup(alone)
  {
    hide ValidGroup, NoRepeats, Prepared;
    assert PreparedAll(Map(ms, (m: Member) => m.was), Map(ms, (m: Member) => m.newId)) ==
      Map(ms, (m: Member) => Prepared(m.was, m.newId));
  }

  /** A group is accepted or refused alike in whatever order its members are listed. */
  lemma PassesInAnyOrder(a: seq<Member>, b: seq<Member>)
    requires multiset(a) == multiset(b)
    ensures MembersPass(a) <==> MembersPass(b)
  {
    hide ValidGroup, NoRepeats, Prepared, MembersPass;
    var order, alone := (m: Member) => m.order, (m: Member) => Prepared(m.was, m.newId);
    MembersPassMeans(a);
    MembersPassMeans(b);
    MapPermuted(a, b, order);
    MapPermuted(a, b, alone);
    NoRepeatsMeans(Map(a, order));
    NoRepeatsMeans(Map(b, order));
    assert |multiset(a)| == |a| && |multiset(b)| == |b|;
    if ValidGroup(Map(a, alone)) {
      OrderDoesNotMatter(Map(a, alone), Map(b, alone));
    }
    if ValidGroup(Map(b, alone)) {
      OrderDoesNotMatter(Map(b, alone), Map(a, alone));
    }
  }

  // ---------- a bracket that shares its legs ----------

  const ONE := NullDecimal(Decimal(1, 0), true)

  /** An order for one option contract. */
  function OptionOrder(id: string, role: Role, side: Side, leg: Leg): Order {
    Order(id, OptionContract, role, ByQuantity, "US", NoSession, "AAPL", side, Limit, Day, "",
          ONE, ABSENT, ONE, ABSENT, "", ABSENT, ABSENT, ABSENT, ABSENT, ABSENT, "", Single, [leg], [])
  }

  /** A leg as `LegFromSymbol` leaves it: side and quantity open. */
  const OPEN_LEG := Leg(NoSide, ABSENT, "", NoInstrument, "AAPL", ONE, "2026-12-18", "CALL")

  /** A master that buys and an exit that sells, given one slice with an open leg. The group is
      accepted, but not as if each had been prepared on its own: the master is prepared first
      and closes the leg, so the exit's leg buys as well. */
  lemma SharedLegBracket<C>(c: C)
    ensures var os :=
        [OptionOrder("0123456789", RoleMaster, Buy, OPEN_LEG),
         OptionOrder("9876543210", RoleStopProfit, Sell, OPEN_LEG)];
      var ps := PreparedAll(os, ["aaaaaaaaaa", "bbbbbbbbbb"]);
      && ValidGroup(ps) && |ps[0].legs| == |ps[1].legs| == 1 && !LegsAgree([[c], [c]], ps)
      && ps[1].legs[0].side == Sell && LegAfter([[c], [c]], ps, 2, c, OPEN_LEG).side == Buy
  {
    var os :=
      [OptionOrder("0123456789", RoleMaster, Buy, OPEN_LEG),
       OptionOrder("9876543210", RoleStopProfit, Sell, OPEN_LEG)];
    var ids := ["aaaaaaaaaa", "bbbbbbbbbb"];
    var ps := PreparedAll(os, ids);
    OptionPrepared("0123456789", RoleMaster, Buy, ids[0]);
    OptionPrepared("9876543210", RoleStopProfit, Sell, ids[1]);
    hide Prepared, Acceptable;
    assert ps[0].role.RoleMaster? && ps[1].role.RoleStopProfit?;
    assert ps[0].clientOrderID[0] != ps[1].clientOrderID[0];
    BuiltBracket(Some(ps[0]), Some(ps[1]), None);
    assert Listed(Some(ps[0])) + Listed(Some(ps[1])) + Listed(None) == ps;
    var cells := [[c], [c]];
    assert cells[0][0] == cells[1][0] && ps[0].legs[0] != ps[1].legs[0];
    assert c in cells[0] && c in cells[1];
    assert LegAfter(cells, ps, 1, c, OPEN_LEG) == OwnLeg(ps[0], LegAfter(cells, ps, 0, c, OPEN_LEG));
  }

  lemma OptionPrepared(id: string, role: Role, side: Side, newId: string)
    requires IdOk(id) && IdOk(newId) && role in {RoleMaster, RoleStopProfit} && side in {Buy, Sell}
    ensures var o := OptionOrder(id, role, side, OPEN_LEG);
      Prepared(o, newId) == o.(legs := [FilledLeg(o, OPEN_LEG)]) && Acceptable(Prepared(o, newId))
  {
  }
}
