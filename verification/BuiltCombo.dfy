/** Building a group with one of the constructors and then preparing it, as `PlaceCombo` does
    (trade/combos.go). */
module BuiltCombo {
  import opened Options
  import opened Orders
  import opened OrderObject
  import opened Groups
  import opened Combo

  /** The orders in the roles the constructor gives them. */
  function InRoles(os: seq<Order>, withMaster: bool, role: Role): (rs: seq<Order>)
    ensures |rs| == |os|
  {
    seq(|os|, i requires 0 <= i < |os| => os[i].(role := if withMaster && i == 0 then RoleMaster else role))
  }

  lemma PreparedInRoles(os: seq<Order>, withMaster: bool, role: Role, ids: seq<string>)
    requires |ids| >= |os| && role in {RoleOTO, RoleOCO, RoleOTOCO} && (withMaster ==> os != [])
    ensures BuiltAs(PreparedAll(InRoles(os, withMaster, role), ids), withMaster, role)
  {
    var rs := InRoles(os, withMaster, role);
    hide Prepared;
    forall i | 0 <= i < |os|
      ensures PreparedAll(rs, ids)[i].role == rs[i].role
    {
      PreparedRole(rs[i], ids[i]);
    }
  }

  /** Prepares the group `c` as it was built. If its members are different objects, their
      values are now `vs`. */
  method PrepareBuilt(c: Combo, refs: seq<OrderRef>, newId: string, ids: seq<string>, ghost vs: seq<Order>,
                      ghost members: set<OrderRef>, ghost storage: set<LegRef>)
    returns (ok: bool)
    requires IdOk(newId) && |ids| == |refs| == |vs| && forall i :: 0 <= i < |ids| ==> IdOk(ids[i])
    requires c.clientComboOrderID == "" && c.orders == refs && AllValid(refs)
    requires NoRepeats(refs) ==> Values(refs) == vs
    requires forall r :: r in refs ==> r in members && forall cell :: cell in r.legs ==> cell in storage
    modifies c`clientComboOrderID, members, storage
    ensures c.orders == refs
    ensures ok <==> refs != [] && NoRepeats(refs) && ValidGroup(PreparedAll(vs, ids))
  {
    hide ValidGroup, NoRepeats, Values;
    ok := c.Prepare(newId, ids);
  }

  lemma Within(rs: seq<OrderRef?>)
    ensures forall r: OrderRef, cell :: r in rs && cell in r.legs ==> cell in StorageOf(rs)
  {
  }

  /** Accepted exactly if its orders are all there, are different objects, and fit in their roles. */
  method PrepareOCO(rs: seq<OrderRef?>, newId: string, ids: seq<string>) returns (c: Combo, ok: bool)
    requires IdOk(newId) && |ids| == |rs| && forall i :: 0 <= i < |ids| ==> IdOk(ids[i])
    requires forall r: OrderRef :: r in rs ==> r.Valid()
    modifies (set r: OrderRef? | r in rs && r != null), StorageOf(rs)
    ensures fresh(c) && c.orders == rs
    ensures null in rs ==> !ok
    ensures null !in rs ==>
      var refs: seq<OrderRef> := rs;
      ok <==> NoRepeats(refs) && FitsOCO(PreparedAll(InRoles(old(Values(refs)), false, RoleOCO), ids))
  {
    hide ValidGroup, BuiltAs;
    ghost var members, storage := (set r: OrderRef | r in rs), StorageOf(rs);
    Within(rs);
    c := new Combo.OCO(rs);
    if null in rs {
      ok := c.Prepare(newId, ids);
      return;
    }
    var refs: seq<OrderRef> := rs;
    ghost var olds := old(Values(refs));
    ok := PrepareBuilt(c, refs, newId, ids, InRoles(olds, false, RoleOCO), members, storage);
    PreparedInRoles(olds, false, RoleOCO, ids);
    BuiltOCO(PreparedAll(InRoles(olds, false, RoleOCO), ids));
  }

  lemma MasterApart(master: OrderRef, others: seq<OrderRef?>, refs: seq<OrderRef>)
    requires refs == [master] + others
    ensures NoRepeats(refs) ==> master !in others
  {
    forall i | 0 <= i < |others| && NoRepeats(refs)
      ensures others[i] != master
    {
      assert refs[i + 1] == others[i] && refs[0] == master;
    }
  }

  /** The constructor alone: different objects get their roles. */
  method BuildOTO(master: OrderRef?, triggered: seq<OrderRef?>) returns (c: Combo)
    requires forall r: OrderRef :: r in [master] + triggered ==> r.Valid()
    modifies (set r: OrderRef? | r in [master] + triggered && r != null)`o
    ensures fresh(c) && c.clientComboOrderID == "" && c.orders == [master] + triggered
    ensures forall r: OrderRef :: r in [master] + triggered ==> r.Valid()
    ensures null !in [master] + triggered ==>
      var refs: seq<OrderRef> := [master] + triggered;
      NoRepeats(refs) ==> Values(refs) == InRoles(old(Values(refs)), true, RoleOTO)
  {
    hide NoRepeats;
    c := new Combo.OTO(master, triggered);
    if null !in [master] + triggered {
      MasterApart(master, triggered, [master] + triggered);
    }
  }

  /** Accepted exactly if its orders are all there, are different objects, and fit in their roles. */
  method PrepareOTO(master: OrderRef?, triggered: seq<OrderRef?>, newId: string, ids: seq<string>)
    returns (c: Combo, ok: bool)
    requires IdOk(newId) && |ids| == |triggered| + 1 && forall i :: 0 <= i < |ids| ==> IdOk(ids[i])
    requires forall r: OrderRef :: r in [master] + triggered ==> r.Valid()
    modifies (set r: OrderRef? | r in [master] + triggered && r != null), StorageOf([master] + triggered)
    ensures fresh(c) && c.orders == [master] + triggered
    ensures null in [master] + triggered ==> !ok
    ensures null !in [master] + triggered ==>
      var refs: seq<OrderRef> := [master] + triggered;
      ok <==> NoRepeats(refs) && FitsOTO(PreparedAll(InRoles(old(Values(refs)), true, RoleOTO), ids))
  {
    hide NoRepeats, ValidGroup, FitsOTO, BuiltAs, PreparedAll, InRoles, Values;
    var rs := [master] + triggered;
    ghost var members, storage := (set r: OrderRef | r in rs), StorageOf(rs);
    Within(rs);
    c := BuildOTO(master, triggered);
    if null in rs {
      ok := c.Prepare(newId, ids);
      return;
    }
    var refs: seq<OrderRef> := rs;
    ghost var vs := InRoles(old(Values(refs)), true, RoleOTO);
    ok := PrepareBuilt(c, refs, newId, ids, vs, members, storage);
    PreparedInRoles(old(Values(refs)), true, RoleOTO, ids);
    BuiltOTO(PreparedAll(vs, ids));
  }

  /** The constructor alone: different objects get their roles. */
  method BuildOTOCO(master: OrderRef?, oco: seq<OrderRef?>) returns (c: Combo)
    requires forall r: OrderRef :: r in [master] + oco ==> r.Valid()
    modifies (set r: OrderRef? | r in [master] + oco && r != null)`o
    ensures fresh(c) && c.clientComboOrderID == "" && c.orders == [master] + oco
    ensures forall r: OrderRef :: r in [master] + oco ==> r.Valid()
    ensures null !in [master] + oco ==>
      var refs: seq<OrderRef> := [master] + oco;
      NoRepeats(refs) ==> Values(refs) == InRoles(old(Values(refs)), true, RoleOTOCO)
  {
    hide NoRepeats;
    c := new Combo.OTOCO(master, oco);
    if null !in [master] + oco {
      MasterApart(master, oco, [master] + oco);
    }
  }

  /** Accepted exactly if its orders are all there, are different objects, and fit in their roles. */
  method PrepareOTOCO(master: OrderRef?, oco: seq<OrderRef?>, newId: string, ids: seq<string>)
    returns (c: Combo, ok: bool)
    requires IdOk(newId) && |ids| == |oco| + 1 && forall i :: 0 <= i < |ids| ==> IdOk(ids[i])
    requires forall r: OrderRef :: r in [master] + oco ==> r.Valid()
    modifies (set r: OrderRef? | r in [master] + oco && r != null), StorageOf([master] + oco)
    ensures fresh(c) && c.orders == [master] + oco
    ensures null in [master] + oco ==> !ok
    ensures null !in [master] + oco ==>
      var refs: seq<OrderRef> := [master] + oco;
      ok <==> NoRepeats(refs) && FitsOTOCO(PreparedAll(InRoles(old(Values(refs)), true, RoleOTOCO), ids))
  {
    hide NoRepeats, ValidGroup, FitsOTOCO, BuiltAs, PreparedAll, InRoles, Values;
    var rs := [master] + oco;
    ghost var members, storage := (set r: OrderRef | r in rs), StorageOf(rs);
    Within(rs);
    c := BuildOTOCO(master, oco);
    if null in rs {
      ok := c.Prepare(newId, ids);
      return;
    }
    var refs: seq<OrderRef> := rs;
    ghost var vs := InRoles(old(Values(refs)), true, RoleOTOCO);
    ok := PrepareBuilt(c, refs, newId, ids, vs, members, storage);
    PreparedInRoles(old(Values(refs)), true, RoleOTOCO, ids);
    BuiltOTOCO(PreparedAll(vs, ids));
  }

  function There(r: OrderRef?): (rs: seq<OrderRef>) {
    if r == null then [] else [r]
  }

  function IdFor(r: OrderRef?, id: string): seq<string> {
    if r == null then [] else [id]
  }

  /** The order in its place of a bracket, where there is one. */
  function InPlace(r: OrderRef?, role: Role): (o: Option<Order>)
    reads if r == null then {} else {r}
    reads if r == null then [] else r.legs
    ensures o.Some? <==> r != null
  {
    if r == null then None else Some(r.Value().(role := role))
  }

  function PreparedIn(o: Option<Order>, id: string): Option<Order> {
    if o.Some? then Some(Prepared(o.value, id)) else None
  }

  function IdList(o: Option<Order>, id: string): seq<string> {
    if o.Some? then [id] else []
  }

  lemma PreparedConcat(a: seq<Order>, b: seq<Order>, ia: seq<string>, ib: seq<string>)
    requires |ia| == |a| && |ib| == |b|
    ensures PreparedAll(a + b, ia + ib) == PreparedAll(a, ia) + PreparedAll(b, ib)
  {
    hide Prepared;
  }

  lemma PreparedPlace(o: Option<Order>, id: string)
    ensures PreparedAll(Listed(o), IdList(o, id)) == Listed(PreparedIn(o, id))
    ensures o.Some? && !o.value.role.NoRole? ==> PreparedIn(o, id).value.role == o.value.role
  {
    if o.Some? {
      PreparedRole(o.value, id);
    }
    hide Prepared;
  }

  /** The three places prepared on their own are the group prepared member by member. */
  lemma PlacesAreGroup(m: Option<Order>, t: Option<Order>, s: Option<Order>, idM: string, idT: string, idS: string)
    requires m.Some? ==> m.value.role.RoleMaster?
    requires t.Some? ==> t.value.role.RoleStopProfit?
    requires s.Some? ==> s.value.role.RoleStopLoss?
    ensures var ids := IdList(m, idM) + IdList(t, idT) + IdList(s, idS);
      ValidGroup(PreparedAll(Listed(m) + Listed(t) + Listed(s), ids)) <==>
        FitsBracket(PreparedIn(m, idM), PreparedIn(t, idT), PreparedIn(s, idS))
  {
    hide ValidGroup, FitsBracket, Prepared;
    PreparedPlace(m, idM);
    PreparedPlace(t, idT);
    PreparedPlace(s, idS);
    PreparedConcat(Listed(m) + Listed(t), Listed(s), IdList(m, idM) + IdList(t, idT), IdList(s, idS));
    PreparedConcat(Listed(m), Listed(t), IdList(m, idM), IdList(t, idT));
    BuiltBracket(PreparedIn(m, idM), PreparedIn(t, idT), PreparedIn(s, idS));
  }

  /** The constructor alone: it gives different objects their places' roles. */
  method BuildBracket(master: OrderRef?, takeProfit: OrderRef?, stopLoss: OrderRef?)
    returns (c: Combo, refs: seq<OrderRef>)
    requires forall r: OrderRef :: r in {master, takeProfit, stopLoss} ==> r.Valid()
    modifies ({master, takeProfit, stopLoss} - {null})`o
    ensures fresh(c) && c.clientComboOrderID == ""
    ensures c.orders == refs == There(master) + There(takeProfit) + There(stopLoss) && AllValid(refs)
    ensures NoRepeats(refs) ==>
      Values(refs) == Listed(old(InPlace(master, RoleMaster))) + Listed(old(InPlace(takeProfit, RoleStopProfit)))
                      + Listed(old(InPlace(stopLoss, RoleStopLoss)))
  {
    hide NoRepeats;
    refs := There(master) + There(takeProfit) + There(stopLoss);
    c := new Combo.Bracket(master, takeProfit, stopLoss);
    Apart(master, takeProfit, stopLoss);
    forall i | 0 <= i < |refs|
      ensures refs[i].Valid()
    {
      var r := refs[i];
      assert r in {master, takeProfit, stopLoss};
      assert old(r.Valid()) && r.o == old(r.o).(role := r.o.role);
    }
    if NoRepeats(refs) {
      assert master != null ==> master.Value() == old(InPlace(master, RoleMaster)).value;
      assert takeProfit != null ==> takeProfit.Value() == old(InPlace(takeProfit, RoleStopProfit)).value;
      assert stopLoss != null ==> stopLoss.Value() == old(InPlace(stopLoss, RoleStopLoss)).value;
    }
  }

  lemma Apart(a: OrderRef?, b: OrderRef?, c: OrderRef?)
    ensures NoRepeats(There(a) + There(b) + There(c)) <==>
      (a != null ==> a != b && a != c) && (b != null ==> b != c)
  {
    var refs := There(a) + There(b) + There(c);
    if NoRepeats(refs) {
      assert a != null ==> refs[0] == a;
      assert b != null ==> refs[|There(a)|] == b;
      assert c != null ==> refs[|refs| - 1] == c;
    }
  }

  /** A bracket is accepted exactly if its orders are different objects and fit their places. */
  method PrepareBracket(master: OrderRef?, takeProfit: OrderRef?, stopLoss: OrderRef?, newId: string,
                        idM: string, idT: string, idS: string)
    returns (c: Combo, ok: bool)
    requires IdOk(newId) && IdOk(idM) && IdOk(idT) && IdOk(idS)
    requires forall r: OrderRef :: r in {master, takeProfit, stopLoss} ==> r.Valid()
    modifies {master, takeProfit, stopLoss} - {null}, StorageOf([master, takeProfit, stopLoss])
    ensures fresh(c) && c.orders == There(master) + There(takeProfit) + There(stopLoss)
    ensures ok <==>
      && NoRepeats(There(master) + There(takeProfit) + There(stopLoss))
      && FitsBracket(PreparedIn(old(InPlace(master, RoleMaster)), idM),
                     PreparedIn(old(InPlace(takeProfit, RoleStopProfit)), idT),
                     PreparedIn(old(InPlace(stopLoss, RoleStopLoss)), idS))
  {
    hide ValidGroup, FitsBracket, PreparedIn, PreparedAll, NoRepeats, Values;
    ghost var m, t := InPlace(master, RoleMaster), InPlace(takeProfit, RoleStopProfit);
    ghost var s := InPlace(stopLoss, RoleStopLoss);
    ghost var rs := [master, takeProfit, stopLoss];
    ghost var members, storage := (set r: OrderRef | r in rs), StorageOf(rs);
    Within(rs);
    var refs;
    c, refs := BuildBracket(master, takeProfit, stopLoss);
    var ids := IdFor(master, idM) + IdFor(takeProfit, idT) + IdFor(stopLoss, idS);
    PlacesAreGroup(m, t, s, idM, idT, idS);
    assert ids == IdList(m, idM) + IdList(t, idT) + IdList(s, idS);
    assert forall r :: r in refs ==> r in rs;
    ok := PrepareBuilt(c, refs, newId, ids, Listed(m) + Listed(t) + Listed(s), members, storage);
    if refs == [] {
      NothingFits(m, t, s, idM, idT, idS);
    }
  }

  lemma NothingFits(m: Option<Order>, t: Option<Order>, s: Option<Order>, idM: string, idT: string, idS: string)
    requires m.None? && t.None? && s.None?
    ensures !FitsBracket(PreparedIn(m, idM), PreparedIn(t, idT), PreparedIn(s, idS))
  {
  }
}
