/** Cancelling a group (trade/combos.go). The server keeps a status for every order. An order
    that depends on a master is dormant until its master fills, and only then works; meanwhile
    anything may fill, be cancelled or expire, between the calls and during them. The server's
    two "nothing to cancel" codes mean that the order is not working when they are given. */
module CancelCombo {
  import opened Options
  import opened Orders
  import opened OrderObject
  import opened Groups

  const NOT_FOUND := "OPENAPI_ORDER_NOT_FOUND"
  const CAN_NOT_BE_CANCELLED := "OPENAPI_ORDER_CAN_NOT_BE_CANCEL"

  /** An error with the server's code, one without, or the refusal of an empty id, which is
      made without a call. */
  datatype CancelError = Coded(code: string) | Uncoded | EmptyId

  datatype Attempt = Attempt(id: string, err: Option<CancelError>)

  predicate AlreadyDone(err: CancelError) {
    err.Coded? && (err.code == NOT_FOUND || err.code == CAN_NOT_BE_CANCELLED)
  }

  predicate Failed(a: Attempt) {
    a.err.Some? && !AlreadyDone(a.err.value)
  }

  /** The attempts that failed, in order. */
  function Failures(attempts: seq<Attempt>): seq<Attempt> {
    if attempts == [] then []
    else
      var rest := Failures(attempts[..|attempts| - 1]);
      if Failed(attempts[|attempts| - 1]) then rest + [attempts[|attempts| - 1]] else rest
  }

  /** The attempts that reached the server, in order. */
  function Calls(attempts: seq<Attempt>): seq<Attempt> {
    if attempts == [] then []
    else
      var rest := Calls(attempts[..|attempts| - 1]);
      if attempts[|attempts| - 1].id != "" then rest + [attempts[|attempts| - 1]] else rest
  }

  /** The ids of the members that are there, in order. */
  function MemberIds(refs: seq<OrderRef?>): seq<string>
    reads set r: OrderRef? | r in refs && r != null
  {
    if refs == [] then []
    else
      assert forall r :: r in refs[..|refs| - 1] ==> r in refs;
      var rest := MemberIds(refs[..|refs| - 1]);
      if refs[|refs| - 1] == null then rest else rest + [refs[|refs| - 1].o.clientOrderID]
  }

  // ---------- the server ----------

  datatype Status = Dormant | Working | Gone

  type Book = map<string, Status>

  /** The master of every dependent order. */
  type Masters = map<string, string>

  function At(book: Book, id: string): Status {
    if id in book then book[id] else Gone
  }

  /** A master depends on nothing itself. */
  predicate Structured(masters: Masters) {
    forall d :: d in masters ==> masters[d] !in masters
  }

  /** Dormant is only what waits for a master that may still fill. */
  ghost predicate Consistent(masters: Masters, book: Book) {
    forall id :: At(book, id).Dormant? ==> id in masters && !At(book, masters[id]).Gone?
  }

  /** What may happen by itself: what is gone stays gone, what works stays or goes, and what is
      dormant may start to work, but only when its master goes. */
  ghost predicate Evolves(masters: Masters, before: Book, after: Book) {
    && Consistent(masters, before) && Consistent(masters, after)
    && (forall id :: At(before, id).Gone? ==> At(after, id).Gone?)
    && (forall id :: At(before, id).Working? ==> !At(after, id).Dormant?)
    && (forall id :: At(before, id).Dormant? && At(after, id).Working? ==> At(after, masters[id]).Gone?)
  }

  /** A fill starts the orders that wait for it; any other end takes them along. */
  function AfterFill(masters: Masters, book: Book, id: string): Book {
    map k | k in book :: if k == id then Gone else if Waits(masters, book, k, id) then Working else book[k]
  }

  function AfterEnd(masters: Masters, book: Book, id: string): Book {
    map k | k in book :: if k == id || Waits(masters, book, k, id) then Gone else book[k]
  }

  predicate Waits(masters: Masters, book: Book, k: string, id: string) {
    At(book, k).Dormant? && k in masters && masters[k] == id
  }

  lemma FillEvolves(masters: Masters, book: Book, id: string)
    requires Structured(masters) && Consistent(masters, book) && At(book, id).Working?
    ensures Evolves(masters, book, AfterFill(masters, book, id))
  {
    var book' := AfterFill(masters, book, id);
    forall k | At(book', k).Dormant?
      ensures k in masters && !At(book', masters[k]).Gone?
    {
      assert At(book, k).Dormant?;
    }
  }

  lemma EndEvolves(masters: Masters, book: Book, id: string)
    requires Structured(masters) && Consistent(masters, book)
    ensures Evolves(masters, book, AfterEnd(masters, book, id))
  {
    var book' := AfterEnd(masters, book, id);
    forall k | At(book', k).Dormant?
      ensures k in masters && !At(book', masters[k]).Gone?
    {
      assert At(book, k).Dormant?;
    }
  }

  lemma NothingHappens(masters: Masters, book: Book)
    requires Consistent(masters, book)
    ensures Evolves(masters, book, book)
  {
  }

  lemma EvolvesThrough(masters: Masters, a: Book, b: Book, c: Book)
    requires Evolves(masters, a, b) && Evolves(masters, b, c)
    ensures Evolves(masters, a, c)
  {
    forall id | At(a, id).Dormant? && At(c, id).Working?
      ensures At(c, masters[id]).Gone?
    {
      assert At(b, id).Working? ==> At(b, masters[id]).Gone?;
    }
  }

  /** The answer to a cancel, given the status at the moment it is handled. */
  predicate Answers(a: Attempt, status: Status) {
    && (a.err == Some(EmptyId) <==> a.id == "")
    && (a.err.None? ==> status.Gone?)
    && (a.err.Some? && AlreadyDone(a.err.value) ==> !status.Working?)
  }

  class Server {
    const masters: Masters
    var book: Book
    var calls: seq<Attempt>

    ghost predicate Valid()
      reads this
    {
      Structured(masters) && Consistent(masters, book)
    }

    /** Any number of orders fill or end in some other way. */
    method Meanwhile()
      requires Valid()
      modifies this`book
      ensures Valid() && Evolves(masters, old(book), book)
    {
      hide Evolves, Consistent;
      NothingHappens(masters, book);
      var n: nat :| n >= 0;
      for k := 0 to n
        invariant Valid() && Evolves(masters, old(book), book)
      {
        var id: string, fills: bool := *, *;
        ghost var before := book;
        if At(book, id).Working? && fills {
          FillEvolves(masters, book, id);
          book := AfterFill(masters, book, id);
        } else {
          EndEvolves(masters, book, id);
          book := AfterEnd(masters, book, id);
        }
        EvolvesThrough(masters, old(book), before, book);
        EvolvesMeans(masters, before, book);
      }
    }

    /** Handles a cancel, at `at`. It may end the order even if the answer does not say so. */
    method Cancel(id: string) returns (err: Option<CancelError>, ghost at: Book)
      requires Valid() && id != ""
      modifies this
      ensures Valid() && Evolves(masters, old(book), at) && Evolves(masters, at, book)
      ensures Answers(Attempt(id, err), At(at, id))
      ensures calls == old(calls) + [Attempt(id, err)]
    {
      hide Evolves, Consistent;
      Meanwhile();
      ghost var before := book;
      NothingHappens(masters, book);
      if * {
        EndEvolves(masters, book, id);
        book := AfterEnd(masters, book, id);
      }
      EvolvesThrough(masters, old(book), before, book);
      EvolvesMeans(masters, before, book);
      at := book;
      assert Answers(Attempt(id, Some(Uncoded)), At(book, id));
      err :| Answers(Attempt(id, err), At(book, id));
      Meanwhile();
      calls := calls + [Attempt(id, err)];
    }
  }

  lemma EvolvesMeans(masters: Masters, a: Book, b: Book)
    requires Evolves(masters, a, b)
    ensures Consistent(masters, a) && Consistent(masters, b)
  {
  }

  method CancelOrder(server: Server, id: string) returns (err: Option<CancelError>, ghost at: Book)
    requires server.Valid()
    modifies server
    ensures server.Valid() && Evolves(server.masters, old(server.book), at) && Evolves(server.masters, at, server.book)
    ensures Answers(Attempt(id, err), At(at, id))
    ensures id == "" ==> err == Some(EmptyId) && server.calls == old(server.calls)
    ensures id != "" ==> server.calls == old(server.calls) + [Attempt(id, err)]
  {
    if id == "" {
      NothingHappens(server.masters, server.book);
      return Some(EmptyId), server.book;
    }
    err, at := server.Cancel(id);
  }

  // ---------- what a run of cancels leaves ----------

  /** The books at the start, at each attempt, and at the end. */
  ghost predicate Runs(masters: Masters, books: seq<Book>, attempts: seq<Attempt>) {
    && |books| == |attempts| + 2
    && (forall i :: 0 <= i < |books| - 1 ==> Evolves(masters, books[i], books[i + 1]))
    && (forall i :: 0 <= i < |attempts| ==> Answers(attempts[i], At(books[i + 1], attempts[i].id)))
  }

  predicate NoneWorking(book: Book, attempts: seq<Attempt>) {
    forall i :: 0 <= i < |attempts| ==> !At(book, attempts[i].id).Working?
  }

  /** Every dependent order is attempted, also, after its master. */
  predicate MastersFirst(masters: Masters, ids: seq<string>) {
    forall i :: 0 <= i < |ids| && ids[i] in masters ==> Precedes(ids, masters[ids[i]], ids[i])
  }

  predicate Precedes(ids: seq<string>, a: string, b: string) {
    exists j, k :: 0 <= j < k < |ids| && ids[j] == a && ids[k] == b
  }

  predicate For(attempts: seq<Attempt>, ids: seq<string>) {
    |attempts| == |ids| && forall i :: 0 <= i < |ids| ==> attempts[i].id == ids[i]
  }

  lemma {:induction false} GoneStays(masters: Masters, books: seq<Book>, attempts: seq<Attempt>, i: nat, j: nat,
                                     id: string)
    requires Runs(masters, books, attempts) && i <= j < |books| && At(books[i], id).Gone?
    ensures At(books[j], id).Gone?
    decreases j
  {
    if i < j {
      GoneStays(masters, books, attempts, i, j - 1, id);
      assert Evolves(masters, books[j - 1], books[j - 1 + 1]);
    }
  }

  lemma {:induction false} NoFailure(attempts: seq<Attempt>, i: nat)
    requires Failures(attempts) == [] && i < |attempts|
    ensures !Failed(attempts[i])
    decreases |attempts|
  {
    if i < |attempts| - 1 {
      NoFailure(attempts[..|attempts| - 1], i);
    }
  }

  lemma {:induction false} NoFailures(attempts: seq<Attempt>)
    requires forall i :: 0 <= i < |attempts| ==> !Failed(attempts[i])
    ensures Failures(attempts) == []
    decreases |attempts|
  {
    if attempts != [] {
      NoFailures(attempts[..|attempts| - 1]);
    }
  }

  /** An order without a master, or whose master is gone, is gone once its cancel did not fail. */
  lemma GoneOnceCancelled(masters: Masters, books: seq<Book>, attempts: seq<Attempt>, k: nat)
    requires Runs(masters, books, attempts) && k < |attempts| && !Failed(attempts[k])
    requires attempts[k].id in masters ==> At(books[k + 1], masters[attempts[k].id]).Gone?
    ensures At(books[|books| - 1], attempts[k].id).Gone?
  {
    assert Evolves(masters, books[k], books[k + 1]);
    GoneStays(masters, books, attempts, k + 1, |books| - 1, attempts[k].id);
  }

  /** With the masters first, no failures mean that nothing is left working. */
  lemma MastersFirstReaches(masters: Masters, ids: seq<string>, books: seq<Book>, attempts: seq<Attempt>)
    requires Structured(masters) && MastersFirst(masters, ids)
    requires Runs(masters, books, attempts) && For(attempts, ids) && Failures(attempts) == []
    ensures NoneWorking(books[|books| - 1], attempts)
  {
    hide Runs, Evolves, Failures;
    RunLength(masters, books, attempts);
    forall i | 0 <= i < |attempts|
      ensures At(books[|books| - 1], ids[i]).Gone?
    {
      NoFailure(attempts, i);
      if ids[i] in masters {
        var j, k :| 0 <= j < k < |ids| && ids[j] == masters[ids[i]] && ids[k] == ids[i];
        NoFailure(attempts, j);
        NoFailure(attempts, k);
        GoneAtOnce(masters, books, attempts, j);
        GoneStays(masters, books, attempts, j + 1, k + 1, ids[j]);
        GoneOnceCancelled(masters, books, attempts, k);
      } else {
        GoneOnceCancelled(masters, books, attempts, i);
      }
    }
  }

  lemma RunLength(masters: Masters, books: seq<Book>, attempts: seq<Attempt>)
    requires Runs(masters, books, attempts)
    ensures |books| == |attempts| + 2
  {
  }

  lemma GoneAtOnce(masters: Masters, books: seq<Book>, attempts: seq<Attempt>, j: nat)
    requires Runs(masters, books, attempts) && j < |attempts| && !Failed(attempts[j]) && attempts[j].id !in masters
    ensures At(books[j + 1], attempts[j].id).Gone?
  {
    assert Evolves(masters, books[j], books[j + 1]);
  }

  lemma NotBefore(ids: seq<string>, a: string, b: string)
    requires !Precedes(ids, a, b)
    ensures forall j, k :: 0 <= j < k < |ids| ==> !(ids[j] == a && ids[k] == b)
  {
  }

  /** While the master of d is working, and when it has filled. */
  function Early(masters: Masters, d: string): Book
    requires d in masters
  {
    map[d := Dormant, masters[d] := Working]
  }

  function Late(d: string): Book {
    map[d := Working]
  }

  lemma EarlyThenLate(masters: Masters, d: string)
    requires Structured(masters) && d in masters
    ensures Evolves(masters, Early(masters, d), Early(masters, d))
    ensures Evolves(masters, Early(masters, d), Late(d)) && Evolves(masters, Late(d), Late(d))
  {
    assert masters[d] != d;
  }

  /** The master fills just before it is first attempted, or else at the very end. */
  function BookBefore(masters: Masters, ids: seq<string>, d: string, p: nat): Book
    requires d in masters && p <= |ids| + 1
  {
    if p <= |ids| && masters[d] !in ids[..p] then Early(masters, d) else Late(d)
  }

  lemma AnsweredNotFound(masters: Masters, ids: seq<string>, d: string, p: nat)
    requires Structured(masters) && "" !in ids && d in masters && p < |ids| && !Precedes(ids, masters[d], d)
    ensures Answers(Attempt(ids[p], Some(Coded(NOT_FOUND))), At(BookBefore(masters, ids, d, p + 1), ids[p]))
  {
    assert ids[p] in ids;
    NotBefore(ids, masters[d], d);
    assert forall j :: 0 <= j < p ==> !(ids[j] == masters[d] && ids[p] == d);
    assert ids[..p + 1] == ids[..p] + [ids[p]];
    assert ids[p] == d ==> masters[d] !in ids[..p + 1];
  }

  /** The run that goes wrong: d is answered "not found" while dormant; then its master fills,
      which starts d, and is answered in the same way. */
  lemma DependentLeftWorking(masters: Masters, ids: seq<string>, i: nat)
    returns (books: seq<Book>, attempts: seq<Attempt>)
    requires Structured(masters) && "" !in ids && i < |ids| && ids[i] in masters
    requires !Precedes(ids, masters[ids[i]], ids[i])
    ensures Runs(masters, books, attempts) && For(attempts, ids) && Failures(attempts) == []
    ensures At(books[|books| - 1], ids[i]).Working?
  {
    hide Precedes, Evolves, Structured, Failures, Answers;
    var d, n := ids[i], |ids|;
    attempts := seq(n, p requires 0 <= p < n => Attempt(ids[p], Some(Coded(NOT_FOUND))));
    books := seq(n + 2, p requires 0 <= p < n + 2 => BookBefore(masters, ids, d, p));
    EarlyThenLate(masters, d);
    forall p | 0 <= p < n + 1
      ensures Evolves(masters, books[p], books[p + 1])
    {
      assert p < n ==> ids[..p + 1] == ids[..p] + [ids[p]];
    }
    forall p | 0 <= p < n
      ensures Answers(attempts[p], At(books[p + 1], attempts[p].id))
    {
      AnsweredNotFound(masters, ids, d, p);
    }
    NoFailures(attempts);
  }

  /** Whatever happens meanwhile, no failures mean that nothing is left working. */
  ghost predicate AlwaysReaches(masters: Masters, ids: seq<string>) {
    forall books: seq<Book>, attempts: seq<Attempt> ::
      Runs(masters, books, attempts) && For(attempts, ids) && Failures(attempts) == [] ==>
        NoneWorking(books[|books| - 1], attempts)
  }

  /** The goal is reached exactly when every dependent order is attempted after its master. (A
      member without an id always fails.) */
  lemma ReachesExactly(masters: Masters, ids: seq<string>)
    requires Structured(masters)
    ensures AlwaysReaches(masters, ids) <==> "" in ids || MastersFirst(masters, ids)
  {
    forall books: seq<Book>, attempts: seq<Attempt> |
      Runs(masters, books, attempts) && For(attempts, ids) && Failures(attempts) == []
      ensures "" !in ids
      ensures MastersFirst(masters, ids) ==> NoneWorking(books[|books| - 1], attempts)
    {
      forall i | 0 <= i < |ids|
        ensures ids[i] != ""
      {
        NoFailure(attempts, i);
        assert Answers(attempts[i], At(books[i + 1], attempts[i].id));
      }
      if MastersFirst(masters, ids) {
        MastersFirstReaches(masters, ids, books, attempts);
      }
    }
    if "" !in ids && !MastersFirst(masters, ids) {
      var i :| 0 <= i < |ids| && ids[i] in masters && !Precedes(ids, masters[ids[i]], ids[i]);
      var books, attempts := DependentLeftWorking(masters, ids, i);
      assert attempts[i].id == ids[i];
      assert !NoneWorking(books[|books| - 1], attempts);
    }
  }

  // ---------- groups ----------

  function Ids(os: seq<Order>): (ids: seq<string>)
    ensures |ids| == |os| && forall i :: 0 <= i < |os| ==> ids[i] == os[i].clientOrderID
  {
    seq(|os|, i requires 0 <= i < |os| => os[i].clientOrderID)
  }

  /** What depends on what in a group whose master stands at position m: everything else on it. */
  function GroupMasters(os: seq<Order>, m: nat): Masters
    requires m < |os|
  {
    map i | 0 <= i < |os| && i != m :: os[i].clientOrderID := os[m].clientOrderID
  }

  predicate HasMasterAt(os: seq<Order>, m: nat) {
    m < |os| && os[m].role.RoleMaster?
  }

  lemma MasterAtFront(os: seq<Order>, m: nat)
    requires ValidGroup(os) && HasMasterAt(os, m)
    ensures Structured(GroupMasters(os, m))
    ensures AlwaysReaches(GroupMasters(os, m), Ids(os)) <==> m == 0
  {
    hide Runs, Acceptable, IsBracket, IsOTO, IsOCO, IsOTOCO;
    var masters, ids := GroupMasters(os, m), Ids(os);
    GroupIds(os);
    assert Structured(masters) by {
      OneMaster(os, m);
    }
    ReachesExactly(masters, ids);
    if m == 0 {
      forall i | 0 <= i < |ids| && ids[i] in masters
        ensures Precedes(ids, masters[ids[i]], ids[i])
      {
        assert ids[0] == masters[ids[i]] && i > 0;
      }
    } else {
      assert ids[0] in masters && masters[ids[0]] == ids[m];
      forall j, k | 0 <= j < k < |ids|
        ensures !(ids[j] == ids[m] && ids[k] == ids[0])
      {
        assert ids[0] != ids[k];
      }
      assert !Precedes(ids, masters[ids[0]], ids[0]);
    }
  }

  lemma GroupIds(os: seq<Order>)
    requires ValidGroup(os)
    ensures "" !in Ids(os) && forall i, j :: 0 <= i < j < |os| ==> Ids(os)[i] != Ids(os)[j]
  {
    hide IsBracket, IsOTO, IsOCO, IsOTOCO;
    forall i | 0 <= i < |os|
      ensures Ids(os)[i] != ""
    {
      assert Acceptable(os[i]);
    }
  }

  lemma OneMaster(os: seq<Order>, m: nat)
    requires m < |os| && forall i, j :: 0 <= i < j < |os| ==> Ids(os)[i] != Ids(os)[j]
    ensures Structured(GroupMasters(os, m))
  {
    var masters := GroupMasters(os, m);
    forall d | d in masters
      ensures masters[d] !in masters
    {
      assert masters[d] == Ids(os)[m];
      assert forall i :: 0 <= i < |os| && i != m ==> Ids(os)[i] != Ids(os)[m];
    }
  }

  /** What depends on what in a group: everything on its master, if it has one. */
  ghost function MastersOf(os: seq<Order>): Masters {
    if m :| HasMasterAt(os, m) then GroupMasters(os, m) else map[]
  }

  lemma TheMaster(os: seq<Order>, m: nat)
    requires ValidGroup(os) && HasMasterAt(os, m)
    ensures MastersOf(os) == GroupMasters(os, m)
  {
    MastersOnce(os);
    hide ValidGroup, GroupMasters;
    forall k: nat | HasMasterAt(os, k)
      ensures k == m
    {
      if k < m {
        CountTwice(os, k, m);
      } else if m < k {
        CountTwice(os, m, k);
      }
    }
  }

  lemma MastersOnce(os: seq<Order>)
    requires ValidGroup(os)
    ensures Count(os, RoleMaster) <= 1
  {
    hide Count;
    CountPositive(os, RoleMaster);
  }

  /** Cancelling an acceptable group reaches the goal, whatever happens, exactly if the group has
      no master or lists it in front, as the constructors do. */
  lemma GroupReachesExactly(os: seq<Order>)
    requires ValidGroup(os)
    ensures Structured(MastersOf(os))
    ensures AlwaysReaches(MastersOf(os), Ids(os)) <==> !HasRole(os, RoleMaster) || HasMasterAt(os, 0)
  {
    hide ValidGroup, GroupMasters, AlwaysReaches;
    if m: nat :| HasMasterAt(os, m) {
      TheMaster(os, m);
      MasterAtFront(os, m);
      if HasMasterAt(os, 0) {
        TheMaster(os, 0);
        MasterAtFront(os, 0);
      }
    } else {
      forall i | 0 <= i < |os|
        ensures os[i].role != RoleMaster
      {
        assert !HasMasterAt(os, i);
      }
      assert MastersFirst(map[], Ids(os));
      assert MastersOf(os) == map[];
      ReachesExactly(map[], Ids(os));
    }
  }

  /** Where the master stands makes no difference to whether the group is placed: at the end it is
      as acceptable, and then does not always reach the goal. */
  lemma MasterLast(os: seq<Order>)
    requires ValidGroup(os) && HasMasterAt(os, 0)
    ensures var turned := os[1..] + [os[0]];
      ValidGroup(turned) && HasMasterAt(turned, |os| - 1) && !AlwaysReaches(MastersOf(turned), Ids(turned))
  {
    var turned, last := os[1..] + [os[0]], |os| - 1;
    NotAlone(os);
    hide ValidGroup, GroupMasters, AlwaysReaches, MastersOf;
    assert os == [os[0]] + os[1..];
    OrderDoesNotMatter(os, turned);
    TheMaster(turned, last);
    MasterAtFront(turned, last);
  }

  lemma NotAlone(os: seq<Order>)
    requires ValidGroup(os) && HasMasterAt(os, 0)
    ensures |os| > 1
  {
    if |os| == 1 {
      assert os[..0] == [];
      assert forall role :: Count(os, role) == if role.RoleMaster? then 1 else 0;
    }
  }

  // ---------- which errors count ----------

  /** Reported are exactly the attempts with an error that carries neither of the two codes, each
      as often as it was made; so a run in which every attempt succeeded or was answered with
      one of the codes reports nothing. */
  lemma {:induction false} FailuresExactly(attempts: seq<Attempt>, a: Attempt)
    ensures multiset(Failures(attempts))[a] ==
      if a.err.Some? && a.err.value != Coded("OPENAPI_ORDER_NOT_FOUND") &&
         a.err.value != Coded("OPENAPI_ORDER_CAN_NOT_BE_CANCEL")
      then multiset(attempts)[a] else 0
    decreases |attempts|
  {
    if attempts != [] {
      var n := |attempts| - 1;
      FailuresExactly(attempts[..n], a);
      assert attempts == attempts[..n] + [attempts[n]];
    }
  }

  /** They are reported in the order in which they were made. */
  lemma {:induction false} FailuresInOrder(attempts: seq<Attempt>, k: nat)
    requires k <= |attempts|
    ensures Failures(attempts[..k]) <= Failures(attempts)
    decreases |attempts|
  {
    if k == |attempts| {
      assert attempts[..k] == attempts;
    } else {
      var n := |attempts| - 1;
      assert attempts[..n][..k] == attempts[..k];
      FailuresInOrder(attempts[..n], k);
    }
  }

  lemma NothingReported(attempts: seq<Attempt>)
    ensures Failures(attempts) == [] <==>
      forall i :: 0 <= i < |attempts| ==>
        attempts[i].err == None || attempts[i].err == Some(Coded("OPENAPI_ORDER_NOT_FOUND")) ||
        attempts[i].err == Some(Coded("OPENAPI_ORDER_CAN_NOT_BE_CANCEL"))
  {
    if Failures(attempts) == [] {
      forall i | 0 <= i < |attempts|
        ensures !Failed(attempts[i])
      {
        NoFailure(attempts, i);
      }
    } else if forall i :: 0 <= i < |attempts| ==> !Failed(attempts[i]) {
      NoFailures(attempts);
    }
  }

  // ---------- the loop ----------

  lemma OneMore(attempts: seq<Attempt>, a: Attempt)
    ensures Failures(attempts + [a]) == if Failed(a) then Failures(attempts) + [a] else Failures(attempts)
    ensures Calls(attempts + [a]) == if a.id != "" then Calls(attempts) + [a] else Calls(attempts)
  {
    assert (attempts + [a])[..|attempts|] == attempts;
  }

  lemma RunsOneMore(masters: Masters, books: seq<Book>, now: Book, attempts: seq<Attempt>, a: Attempt, at: Book,
                    later: Book)
    requires Runs(masters, books + [now], attempts) && Answers(a, At(at, a.id))
    requires Evolves(masters, now, at) && Evolves(masters, at, later)
    ensures Runs(masters, books + [at] + [later], attempts + [a])
  {
    assert (books + [now])[|books| - 1] == books[|books| - 1] && (books + [now])[|books|] == now;
    assert Evolves(masters, (books + [now])[|books| - 1], (books + [now])[|books| - 1 + 1]);
    EvolvesThrough(masters, books[|books| - 1], now, at);
    var books' := books + [at] + [later];
    forall i | 0 <= i < |books'| - 1
      ensures Evolves(masters, books'[i], books'[i + 1])
    {
      if i < |books| - 1 {
        assert Evolves(masters, (books + [now])[i], (books + [now])[i + 1]);
      }
    }
    forall i | 0 <= i < |attempts|
      ensures Answers((attempts + [a])[i], At(books'[i + 1], (attempts + [a])[i].id))
    {
      assert (books + [now])[i + 1] == books'[i + 1];
    }
  }

  lemma NoRunYet(masters: Masters, book: Book)
    requires Consistent(masters, book)
    ensures Runs(masters, [book] + [book], []) && Failures([]) == Calls([]) == []
  {
  }

  lemma NoMemberIds(orders: seq<OrderRef?>)
    ensures MemberIds(orders[..0]) == []
  {
  }

  lemma MemberIdsOneMore(orders: seq<OrderRef?>, i: nat)
    requires i < |orders|
    ensures MemberIds(orders[..i + 1]) ==
      MemberIds(orders[..i]) + if orders[i] == null then [] else [orders[i].o.clientOrderID]
  {
    assert orders[..i + 1][..i] == orders[..i];
  }

  /** One turn of the loop. */
  method CancelMember(server: Server, id: string, ghost past: seq<Book>, ghost attempts: seq<Attempt>)
    returns (err: Option<CancelError>, ghost at: Book)
    requires server.Valid() && Runs(server.masters, past + [server.book], attempts)
    modifies server
    ensures server.Valid() && Runs(server.masters, past + [at] + [server.book], attempts + [Attempt(id, err)])
    ensures server.calls == old(server.calls) + (if id != "" then [Attempt(id, err)] else [])
  {
    hide Evolves, Answers, Consistent, Runs;
    ghost var now := server.book;
    err, at := CancelOrder(server, id);
    RunsOneMore(server.masters, past, now, attempts, Attempt(id, err), at, server.book);
  }

  /** Refuses an empty group. Otherwise attempts every member once, in order, whatever
      happens to the others and to the orders meanwhile, and returns exactly the failures.
      When there are none and every dependent order stands behind its master, no member is
      working any more. */
  method CancelAll(server: Server, orders: seq<OrderRef?>)
    returns (invalid: bool, errs: seq<Attempt>, attempts: seq<Attempt>, ghost books: seq<Book>)
    requires server.Valid()
    modifies server
    ensures server.Valid() && (invalid <==> orders == [])
    ensures For(attempts, MemberIds(orders)) && server.calls == old(server.calls) + Calls(attempts)
    ensures Runs(server.masters, books, attempts) && books[0] == old(server.book) && books[|books| - 1] == server.book
    ensures errs == Failures(attempts)
    ensures errs == [] <==>
      forall i :: 0 <= i < |attempts| ==>
        attempts[i].err == None || attempts[i].err == Some(Coded("OPENAPI_ORDER_NOT_FOUND")) ||
        attempts[i].err == Some(Coded("OPENAPI_ORDER_CAN_NOT_BE_CANCEL"))
    ensures errs == [] && MastersFirst(server.masters, MemberIds(orders)) ==> NoneWorking(server.book, attempts)
  {
    hide Runs, Consistent, Failures, Calls, Structured, MastersFirst, NoneWorking, Evolves, MemberIds;
    invalid, errs, attempts := |orders| == 0, [], [];
    ghost var past := [server.book];
    NoRunYet(server.masters, server.book);
    NoMemberIds(orders);
    for i := 0 to |orders|
      invariant server.Valid() && For(attempts, MemberIds(orders[..i]))
      invariant server.calls == old(server.calls) + Calls(attempts)
      invariant |past| >= 1 && past[0] == old(server.book) && Runs(server.masters, past + [server.book], attempts)
      invariant errs == Failures(attempts)
    {
      MemberIdsOneMore(orders, i);
      var r := orders[i];
      if r == null {
        continue;
      }
      var id := r.o.clientOrderID;
      var err: Option<CancelError>;
      ghost var at;
      err, at := CancelMember(server, id, past, attempts);
      OneMore(attempts, Attempt(id, err));
      past := past + [at];
      attempts := attempts + [Attempt(id, err)];
      if err.Some? && !AlreadyDone(err.value) {
        errs := errs + [Attempt(id, err)];
      }
    }
    assert orders[..|orders|] == orders;
    books := past + [server.book];
    RunLength(server.masters, books, attempts);
    NothingReported(attempts);
    if errs == [] && MastersFirst(server.masters, MemberIds(orders)) {
      MastersFirstReaches(server.masters, MemberIds(orders), books, attempts);
    }
  }
}
