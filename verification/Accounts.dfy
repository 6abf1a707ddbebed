/** The chart of accounts: a company's accounts form a forest, and re-parenting keeps it one. */
module Accounts {
  import opened Wrappers
  import opened Sets
  import opened Errors

  datatype AccountType = Asset | Liability | Equity | Revenue | Expense

  datatype Account = Account(
    companyId: nat,
    code: string,
    name: string,
    accountType: AccountType,
    parentId: Option<nat>,
    isActive: bool)

  /** The accounts table; an account's id is its row number. */
  type Table = seq<Account>

  predicate InCompany(t: Table, id: nat, companyId: nat) {
    id < |t| && t[id].companyId == companyId
  }

  function ParentOf(t: Table, id: nat): Option<nat> {
    if id < |t| then t[id].parentId else None
  }

  /** The account n steps above start. */
  function Ancestor(t: Table, start: nat, n: nat): Option<nat> {
    if n == 0 then Some(start)
    else
      match Ancestor(t, start, n - 1)
      case Some(a) => ParentOf(t, a)
      case None => None
  }

  /** above is id itself or one of its ancestors. */
  ghost predicate IsAtOrAbove(t: Table, above: nat, id: nat) {
    exists n: nat :: Ancestor(t, id, n) == Some(above)
  }

  /** No account is its own proper ancestor. */
  ghost predicate Acyclic(t: Table) {
    forall id: nat, n: nat :: n > 0 ==> Ancestor(t, id, n) != Some(id)
  }

  predicate ParentsInCompany(t: Table) {
    forall id :: 0 <= id < |t| && t[id].parentId.Some? ==> InCompany(t, t[id].parentId.value, t[id].companyId)
  }

  ghost predicate Forest(t: Table) {
    ParentsInCompany(t) && Acyclic(t)
  }

  function CompanyIds(t: Table, companyId: nat): set<nat> {
    set id: nat | 0 <= id < |t| && t[id].companyId == companyId
  }

  /** `count({ where: { companyId } })`. */
  function Count(t: Table, companyId: nat): nat {
    |CompanyIds(t, companyId)|
  }

  // ---- Ancestor chains ----

  ghost predicate Ends(t: Table, id: nat) {
    exists k: nat :: Ancestor(t, id, k) == None
  }

  lemma {:induction false} AncestorAdds(t: Table, id: nat, m: nat, n: nat)
    requires Ancestor(t, id, m).Some?
    ensures Ancestor(t, id, m + n) == Ancestor(t, Ancestor(t, id, m).value, n)
  {
    if n > 0 {
      AncestorAdds(t, id, m, n - 1);
    }
  }

  lemma {:induction false} ChainStaysEnded(t: Table, id: nat, m: nat, n: nat)
    requires m <= n && Ancestor(t, id, m) == None
    ensures Ancestor(t, id, n) == None
  {
    if m < n {
      ChainStaysEnded(t, id, m, n - 1);
    }
  }

  lemma {:induction false} ChainInCompany(t: Table, id: nat, n: nat, companyId: nat)
    requires ParentsInCompany(t) && InCompany(t, id, companyId)
    requires Ancestor(t, id, n).Some?
    ensures InCompany(t, Ancestor(t, id, n).value, companyId)
  {
    if n > 0 {
      ChainInCompany(t, id, n - 1, companyId);
    }
  }

  /** The first n accounts of the chain above id. */
  ghost function ChainSet(t: Table, id: nat, n: nat): set<nat> {
    if n == 0 then {}
    else
      match Ancestor(t, id, n - 1)
      case Some(a) => ChainSet(t, id, n - 1) + {a}
      case None => ChainSet(t, id, n - 1)
  }

  lemma {:induction false} PlaceInChain(t: Table, id: nat, n: nat, a: nat) returns (k: nat)
    requires a in ChainSet(t, id, n)
    ensures k < n && Ancestor(t, id, k) == Some(a)
  {
    if Ancestor(t, id, n - 1) == Some(a) {
      k := n - 1;
    } else {
      k := PlaceInChain(t, id, n - 1, a);
    }
  }

  lemma NoRepeats(t: Table, id: nat, i: nat, j: nat)
    requires Acyclic(t) && i < j && Ancestor(t, id, j).Some?
    ensures Ancestor(t, id, i) != Ancestor(t, id, j)
  {
    if Ancestor(t, id, i) == None {
      ChainStaysEnded(t, id, i, j);
    } else {
      AncestorAdds(t, id, i, j - i);
    }
  }

  lemma {:induction false} ChainSetSize(t: Table, id: nat, n: nat, companyId: nat)
    requires Forest(t) && InCompany(t, id, companyId)
    requires n > 0 ==> Ancestor(t, id, n - 1).Some?
    ensures |ChainSet(t, id, n)| == n
    ensures ChainSet(t, id, n) <= CompanyIds(t, companyId)
  {
    if n > 0 {
      ChainSetSize(t, id, n - 1, companyId);
      ChainInCompany(t, id, n - 1, companyId);
      var a := Ancestor(t, id, n - 1).value;
      if a in ChainSet(t, id, n - 1) {
        var k := PlaceInChain(t, id, n - 1, a);
        NoRepeats(t, id, k, n - 1);
      }
    }
  }

  /** In a forest a chain is no longer than the number of accounts of its company. */
  lemma ChainEnds(t: Table, id: nat, companyId: nat)
    requires Forest(t) && InCompany(t, id, companyId)
    ensures Ancestor(t, id, Count(t, companyId)) == None
  {
    var n := Count(t, companyId);
    if Ancestor(t, id, n).Some? {
      ChainSetSize(t, id, n + 1, companyId);
      SubsetSize(ChainSet(t, id, n + 1), CompanyIds(t, companyId));
    }
  }

  /** A table in which every chain ends has no cycle. */
  lemma EndingChainsAreAcyclic(t: Table)
    requires forall id: nat :: Ends(t, id)
    ensures Acyclic(t)
  {
    forall id: nat, n: nat | n > 0 ensures Ancestor(t, id, n) != Some(id) {
      if Ancestor(t, id, n) == Some(id) {
        assert Ends(t, id);
        var k: nat :| Ancestor(t, id, k) == None;
        GoesAround(t, id, n, k);
        ChainStaysEnded(t, id, k, k * n);
      }
    }
  }

  lemma {:induction false} GoesAround(t: Table, id: nat, n: nat, k: nat)
    requires n > 0 && Ancestor(t, id, n) == Some(id)
    ensures k * n >= k && Ancestor(t, id, k * n) == Some(id)
  {
    if k > 0 {
      GoesAround(t, id, n, k - 1);
      AncestorAdds(t, id, (k - 1) * n, n);
      assert (k - 1) * n + n == k * n;
    }
  }

  // ---- The bounded walk of assertNoCycle ----

  /** The walk from current with this many steps left: accepted when the chain ends before the
      account is met and before the steps run out. */
  function WalkAccepts(t: Table, accountId: nat, current: Option<nat>, budget: nat): bool
    decreases budget
  {
    match current
    case None => true
    case Some(c) => c != accountId && budget > 0 && WalkAccepts(t, accountId, ParentOf(t, c), budget - 1)
  }

  lemma {:induction false} WalkMeaning(t: Table, accountId: nat, id: nat, k: nat, budget: nat)
    requires forall j: nat :: j < k ==> Ancestor(t, id, j) != Some(accountId)
    ensures WalkAccepts(t, accountId, Ancestor(t, id, k), budget) <==>
            !IsAtOrAbove(t, accountId, id) && Ancestor(t, id, k + budget) == None
    decreases budget
  {
    match Ancestor(t, id, k)
    case None =>
      forall j: nat ensures Ancestor(t, id, j) != Some(accountId) {
        if j >= k {
          ChainStaysEnded(t, id, k, j);
        }
      }
      ChainStaysEnded(t, id, k, k + budget);
    case Some(c) =>
      if c != accountId && budget > 0 {
        assert Ancestor(t, id, k + 1) == ParentOf(t, c);
        WalkMeaning(t, accountId, id, k + 1, budget - 1);
      }
  }

  /** On a forest the walk rejects exactly the accounts below the one being moved; running out of
      steps never decides. */
  lemma WalkIsExact(t: Table, accountId: nat, newParentId: nat, companyId: nat)
    requires Forest(t) && InCompany(t, newParentId, companyId)
    ensures WalkAccepts(t, accountId, Some(newParentId), Count(t, companyId)) <==>
            !IsAtOrAbove(t, accountId, newParentId)
  {
    assert Ancestor(t, newParentId, 0) == Some(newParentId);
    WalkMeaning(t, accountId, newParentId, 0, Count(t, companyId));
    ChainEnds(t, newParentId, companyId);
  }

  // ---- Operations ----

  datatype NewAccount = NewAccount(code: string, name: string, accountType: AccountType, parentId: Option<nat>)

  /** The parentId of an update request: absent, null, or an id. */
  datatype ParentPatch = Keep | Clear | SetTo(id: nat)

  datatype Patch = Patch(parentId: ParentPatch, name: Option<string>, isActive: Option<bool>)

  predicate CodeTaken(t: Table, companyId: nat, code: string) {
    exists id :: 0 <= id < |t| && t[id].companyId == companyId && t[id].code == code
  }

  function CreateAccount(t: Table, companyActive: bool, companyId: nat, dto: NewAccount): Result<Table, Error> {
    if !companyActive then Err(CompanyNotActive)
    else if dto.parentId.Some? && !InCompany(t, dto.parentId.value, companyId) then Err(ParentNotInCompany)
    else if CodeTaken(t, companyId, dto.code) then Err(CodeExists)
    else Ok(t + [Account(companyId, dto.code, dto.name, dto.accountType, dto.parentId, true)])
  }

  function ParentError(t: Table, id: nat, companyId: nat, p: ParentPatch): Option<Error> {
    if !p.SetTo? then None
    else if p.id == id then Some(OwnParent)
    else if !InCompany(t, p.id, companyId) then Some(ParentNotInCompany)
    else if !WalkAccepts(t, id, Some(p.id), Count(t, companyId)) then Some(CircularHierarchy)
    else None
  }

  function Patched(a: Account, dto: Patch): Account {
    a.(parentId := match dto.parentId case Keep => a.parentId case Clear => None case SetTo(p) => Some(p),
       name := if dto.name.Some? then dto.name.value else a.name,
       isActive := if dto.isActive.Some? then dto.isActive.value else a.isActive)
  }

  function UpdateAccount(t: Table, id: nat, companyId: nat, dto: Patch): Result<Table, Error> {
    if !InCompany(t, id, companyId) then Err(NotFound)
    else
      match ParentError(t, id, companyId, dto.parentId)
      case Some(e) => Err(e)
      case None => Ok(t[id := Patched(t[id], dto)])
  }

  /** `update` accepts a re-parent exactly when the new parent is an account of the company that
      is neither the account itself nor below it. */
  lemma UpdateAccepts(t: Table, id: nat, companyId: nat, dto: Patch)
    requires Forest(t)
    ensures UpdateAccount(t, id, companyId, dto).Ok? <==>
            && InCompany(t, id, companyId)
            && (dto.parentId.SetTo? ==>
                  && InCompany(t, dto.parentId.id, companyId)
                  && !IsAtOrAbove(t, id, dto.parentId.id))
  {
    if dto.parentId.SetTo? {
      var p := dto.parentId.id;
      assert Ancestor(t, p, 0) == Some(p);
      if InCompany(t, p, companyId) {
        WalkIsExact(t, id, p, companyId);
      }
    }
  }

  /** A chain that does not meet the changed account is the same in both tables. */
  lemma {:induction false} ChainUnchanged(t: Table, u: Table, id: nat, start: nat, n: nat)
    requires |t| == |u| && id < |t|
    requires forall i :: 0 <= i < |t| && i != id ==> u[i].parentId == t[i].parentId
    requires forall j: nat :: j < n ==> Ancestor(t, start, j) != Some(id)
    ensures Ancestor(u, start, n) == Ancestor(t, start, n)
  {
    if n > 0 {
      ChainUnchanged(t, u, id, start, n - 1);
    }
  }

  /** The first place where the chain above start meets id. */
  lemma {:induction false} FirstMeeting(t: Table, start: nat, id: nat, n: nat) returns (m: nat)
    requires Ancestor(t, start, n) == Some(id)
    ensures m <= n && Ancestor(t, start, m) == Some(id)
    ensures forall j: nat :: j < m ==> Ancestor(t, start, j) != Some(id)
  {
    if j: nat :| j < n && Ancestor(t, start, j) == Some(id) {
      m := FirstMeeting(t, start, id, j);
    } else {
      m := n;
    }
  }

  lemma AllChainsEnd(t: Table, id: nat) returns (k: nat)
    requires Forest(t)
    ensures Ancestor(t, id, k) == None
  {
    if id < |t| {
      k := Count(t, t[id].companyId);
      ChainEnds(t, id, t[id].companyId);
    } else {
      assert Ancestor(t, id, 0) == Some(id);
      k := 1;
    }
  }

  /** Hanging an account below a place that is not under it leaves every chain finite. */
  lemma ReparentedChainEnds(t: Table, u: Table, id: nat, start: nat) returns (k: nat)
    requires Forest(t) && |t| == |u| && id < |t|
    requires forall i :: 0 <= i < |t| && i != id ==> u[i].parentId == t[i].parentId
    requires u[id].parentId.Some? && !IsAtOrAbove(t, id, u[id].parentId.value)
    ensures Ancestor(u, start, k) == None
  {
    if n: nat :| Ancestor(t, start, n) == Some(id) {
      var m := FirstMeeting(t, start, id, n);
      ChainUnchanged(t, u, id, start, m);
      var p := u[id].parentId.value;
      assert Ancestor(u, start, m + 1) == Some(p);
      var l := AllChainsEnd(t, p);
      ChainUnchanged(t, u, id, p, l);
      AncestorAdds(u, start, m + 1, l);
      k := m + 1 + l;
    } else {
      k := AllChainsEnd(t, start);
      ChainUnchanged(t, u, id, start, k);
    }
  }

  /** Dropping a parent link leaves every chain finite. */
  lemma DetachedChainEnds(t: Table, u: Table, id: nat, start: nat) returns (k: nat)
    requires Forest(t) && |t| == |u| && id < |t|
    requires forall i :: 0 <= i < |t| && i != id ==> u[i].parentId == t[i].parentId
    requires u[id].parentId == None || u[id].parentId == t[id].parentId
    ensures Ancestor(u, start, k) == None
  {
    if u[id].parentId == t[id].parentId {
      k := AllChainsEnd(t, start);
      SameParentsSameChain(t, u, start, k);
    } else if n: nat :| Ancestor(t, start, n) == Some(id) {
      var m := FirstMeeting(t, start, id, n);
      ChainUnchanged(t, u, id, start, m);
      k := m + 1;
    } else {
      k := AllChainsEnd(t, start);
      ChainUnchanged(t, u, id, start, k);
    }
  }

  lemma {:induction false} SameParentsSameChain(t: Table, u: Table, start: nat, n: nat)
    requires |t| <= |u|
    requires forall i: nat :: i < |t| ==> u[i].parentId == t[i].parentId
    requires |t| < |u| ==> start < |t| && forall i :: 0 <= i < |t| && t[i].parentId.Some? ==> t[i].parentId.value < |t|
    ensures Ancestor(u, start, n) == Ancestor(t, start, n)
    ensures |t| < |u| && Ancestor(t, start, n).Some? ==> Ancestor(t, start, n).value < |t|
  {
    if n > 0 {
      SameParentsSameChain(t, u, start, n - 1);
    }
  }

  /** Every accepted update leaves a forest, touching only the account itself. */
  lemma UpdateKeepsForest(t: Table, id: nat, companyId: nat, dto: Patch)
    requires Forest(t) && UpdateAccount(t, id, companyId, dto).Ok?
    ensures var u := UpdateAccount(t, id, companyId, dto).value;
      && Forest(u) && |u| == |t|
      && (forall i :: 0 <= i < |t| && i != id ==> u[i] == t[i])
      && u[id].companyId == t[id].companyId && u[id].code == t[id].code && u[id].accountType == t[id].accountType
  {
    UpdateAccepts(t, id, companyId, dto);
    var u := UpdateAccount(t, id, companyId, dto).value;
    forall start: nat ensures Ends(u, start) {
      if dto.parentId.SetTo? {
        var k := ReparentedChainEnds(t, u, id, start);
      } else {
        var k := DetachedChainEnds(t, u, id, start);
      }
    }
    EndingChainsAreAcyclic(u);
  }

  /** A new account hangs below an existing one or is a root; either way a forest stays one. */
  lemma CreateKeepsForest(t: Table, companyActive: bool, companyId: nat, dto: NewAccount)
    requires Forest(t) && CreateAccount(t, companyActive, companyId, dto).Ok?
    ensures Forest(CreateAccount(t, companyActive, companyId, dto).value)
  {
    var u := CreateAccount(t, companyActive, companyId, dto).value;
    var n := |t|;
    forall start: nat ensures Ends(u, start) {
      if start < n {
        var k := AllChainsEnd(t, start);
        SameParentsSameChain(t, u, start, k);
      } else if start == n && dto.parentId.Some? {
        var p := dto.parentId.value;
        var k := AllChainsEnd(t, p);
        SameParentsSameChain(t, u, p, k);
        assert Ancestor(u, start, 0) == Some(start);
        assert Ancestor(u, start, 1) == Some(p);
        AncestorAdds(u, start, 1, k);
        assert Ancestor(u, start, 1 + k) == None;
      } else {
        assert Ancestor(u, start, 0) == Some(start);
        assert Ancestor(u, start, 1) == None;
      }
    }
    EndingChainsAreAcyclic(u);
  }
}
