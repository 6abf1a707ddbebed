/** What creating and updating an account write, when they are refused, and what moving an account does
    to the tree. */
module AccountEffects {
  import opened Wrappers
  import opened Errors
  import opened Accounts
  import opened LedgerModel
  import opened LedgerInvariant
  import opened LedgerEffects
  import opened PaymentEffects

  // ---- Creating ----

  predicate CodeInUse(t: Table, companyId: nat, code: string) {
    exists a :: a in t && a.companyId == companyId && a.code == code
  }

  /** An account is created exactly for an active company, below an account of it or as a root, with a
      code the company does not use; the first of these that fails is the error. */
  lemma CreateSucceedsIff(t: Table, companyActive: bool, companyId: nat, dto: NewAccount)
    ensures var r := CreateAccount(t, companyActive, companyId, dto);
      var parentOk := dto.parentId.Some? ==>
        dto.parentId.value < |t| && t[dto.parentId.value].companyId == companyId;
      && (r.Ok? <==> companyActive && parentOk && !CodeInUse(t, companyId, dto.code))
      && (r == Err(CompanyNotActive) <==> !companyActive)
      && (r == Err(ParentNotInCompany) <==> companyActive && !parentOk)
      && (r == Err(CodeExists) <==> companyActive && parentOk && CodeInUse(t, companyId, dto.code))
  {
    assert CodeTaken(t, companyId, dto.code) <==> CodeInUse(t, companyId, dto.code) by {
      if CodeInUse(t, companyId, dto.code) {
        var a :| a in t && a.companyId == companyId && a.code == dto.code;
        var i :| 0 <= i < |t| && t[i] == a;
      }
    }
  }

  /** The new account is active, has the fields of the request, and is the only change. */
  lemma CreateWrites(t: Table, companyActive: bool, companyId: nat, dto: NewAccount)
    requires CreateAccount(t, companyActive, companyId, dto).Ok?
    ensures var u := CreateAccount(t, companyActive, companyId, dto).value;
      && |u| == |t| + 1 && u[..|t|] == t
      && var a := u[|t|];
         && a.companyId == companyId && a.code == dto.code && a.name == dto.name
         && a.accountType == dto.accountType && a.parentId == dto.parentId && a.isActive
  {
  }

  // ---- Updating ----

  /** An update is refused for an account that is not the company's, and for a new parent that is the
      account itself, is not the company's, or is below the account, in this order. */
  lemma UpdateRefusals(t: Table, id: nat, companyId: nat, dto: Patch)
    requires Forest(t)
    ensures var r := UpdateAccount(t, id, companyId, dto);
      var found := id < |t| && t[id].companyId == companyId;
      && (r == Err(NotFound) <==> !found)
      && (dto.parentId.SetTo? ==>
            var p := dto.parentId.id;
            var parentFound := p < |t| && t[p].companyId == companyId;
            && (r == Err(OwnParent) <==> found && p == id)
            && (r == Err(ParentNotInCompany) <==> found && p != id && !parentFound)
            && (r == Err(CircularHierarchy) <==> found && p != id && parentFound && IsAtOrAbove(t, id, p)))
      && (!dto.parentId.SetTo? && found ==> r.Ok?)
  {
    if dto.parentId.SetTo? && Accounts.InCompany(t, dto.parentId.id, companyId) {
      WalkIsExact(t, id, dto.parentId.id, companyId);
    }
  }

  /** An accepted update sets the parent as asked, keeps it or removes it, sets name and activity where
      they are given, and changes nothing else. */
  lemma UpdateWrites(t: Table, id: nat, companyId: nat, dto: Patch)
    requires UpdateAccount(t, id, companyId, dto).Ok?
    ensures var u := UpdateAccount(t, id, companyId, dto).value;
      && id < |t| == |u|
      && (forall i :: 0 <= i < |t| && i != id ==> u[i] == t[i])
      && (dto.parentId.SetTo? ==> ParentOf(u, id) == Some(dto.parentId.id))
      && (dto.parentId.Clear? ==> ParentOf(u, id) == None)
      && (dto.parentId.Keep? ==> ParentOf(u, id) == ParentOf(t, id))
      && u[id].name == (match dto.name case Some(name) => name case None => t[id].name)
      && u[id].isActive == (match dto.isActive case Some(active) => active case None => t[id].isActive)
      && u[id].companyId == t[id].companyId && u[id].code == t[id].code && u[id].accountType == t[id].accountType
  {
  }

  // ---- Moving a subtree ----

  /** The chain of an account that is not below the updated one, and is not it, stays as it was. */
  lemma OtherChainsStay(t: Table, id: nat, companyId: nat, dto: Patch, start: nat, n: nat)
    requires UpdateAccount(t, id, companyId, dto).Ok? && !IsAtOrAbove(t, id, start)
    ensures Ancestor(UpdateAccount(t, id, companyId, dto).value, start, n) == Ancestor(t, start, n)
  {
    UpdateWrites(t, id, companyId, dto);
    ChainUnchanged(t, UpdateAccount(t, id, companyId, dto).value, id, start, n);
  }

  /** The chain of the updated account, and of one below it, is the same up to the updated account and
      goes on with that of its new parent, or ends there if it has none any more. */
  lemma MovedChains(t: Table, id: nat, companyId: nat, dto: Patch, start: nat, m: nat)
    requires Forest(t) && UpdateAccount(t, id, companyId, dto).Ok? && Ancestor(t, start, m) == Some(id)
    ensures var u := UpdateAccount(t, id, companyId, dto).value;
      && (forall n: nat :: n <= m ==> Ancestor(u, start, n) == Ancestor(t, start, n))
      && (dto.parentId.SetTo? ==>
            forall n: nat :: Ancestor(u, start, m + 1 + n) == Ancestor(t, dto.parentId.id, n))
      && (dto.parentId.Clear? ==> Ancestor(u, start, m + 1) == None)
      && (dto.parentId.Keep? ==> forall n: nat :: Ancestor(u, start, n) == Ancestor(t, start, n))
  {
    var u := UpdateAccount(t, id, companyId, dto).value;
    UpdateWrites(t, id, companyId, dto);
    MetOnce(t, start, id, m);
    forall n: nat | n <= m ensures Ancestor(u, start, n) == Ancestor(t, start, n) {
      ChainUnchanged(t, u, id, start, n);
    }
    assert Ancestor(u, start, m + 1) == ParentOf(u, id);
    if dto.parentId.SetTo? {
      UpdateAccepts(t, id, companyId, dto);
      forall n: nat ensures Ancestor(u, start, m + 1 + n) == Ancestor(t, dto.parentId.id, n) {
        AncestorAdds(u, start, m + 1, n);
        OtherChainsStay(t, id, companyId, dto, dto.parentId.id, n);
      }
    } else if dto.parentId.Keep? {
      forall n: nat ensures Ancestor(u, start, n) == Ancestor(t, start, n) {
        SameParentsSameChain(t, u, start, n);
      }
    }
  }

  lemma MetOnce(t: Table, start: nat, id: nat, m: nat)
    requires Acyclic(t) && Ancestor(t, start, m) == Some(id)
    ensures forall j: nat :: j < m ==> Ancestor(t, start, j) != Some(id)
  {
    forall j: nat | j < m ensures Ancestor(t, start, j) != Some(id) {
      NoRepeats(t, start, j, m);
    }
  }

  /** Which accounts are below the updated one does not change, and after a move exactly they, with it,
      have come below the new parent. */
  lemma SubtreeMoves(t: Table, id: nat, companyId: nat, dto: Patch, start: nat)
    requires Forest(t) && UpdateAccount(t, id, companyId, dto).Ok?
    ensures var u := UpdateAccount(t, id, companyId, dto).value;
      && (IsAtOrAbove(u, id, start) <==> IsAtOrAbove(t, id, start))
      && (dto.parentId.SetTo? ==>
            (IsAtOrAbove(u, dto.parentId.id, start)
             <==> IsAtOrAbove(t, dto.parentId.id, start) || IsAtOrAbove(t, id, start)))
  {
    var u := UpdateAccount(t, id, companyId, dto).value;
    if m: nat :| Ancestor(t, start, m) == Some(id) {
      MovedChains(t, id, companyId, dto, start, m);
      assert Ancestor(u, start, m) == Some(id);
      if dto.parentId.SetTo? {
        assert Ancestor(t, dto.parentId.id, 0) == Some(dto.parentId.id);
        assert Ancestor(u, start, m + 1 + 0) == Some(dto.parentId.id);
      }
    } else {
      forall n: nat ensures Ancestor(u, start, n) == Ancestor(t, start, n) {
        OtherChainsStay(t, id, companyId, dto, start, n);
      }
    }
  }

  // ---- Codes ----

  /** No company has two accounts of one code. */
  predicate CodesDistinct(t: Table) {
    forall i, j :: 0 <= i < j < |t| && t[i].companyId == t[j].companyId ==> t[i].code != t[j].code
  }

  lemma CreateKeepsCodes(t: Table, companyActive: bool, companyId: nat, dto: NewAccount)
    requires CodesDistinct(t) && CreateAccount(t, companyActive, companyId, dto).Ok?
    ensures CodesDistinct(CreateAccount(t, companyActive, companyId, dto).value)
  {
    CreateSucceedsIff(t, companyActive, companyId, dto);
    forall i | 0 <= i < |t| && t[i].companyId == companyId ensures t[i].code != dto.code {
      assert t[i] in t;
    }
  }

  lemma UpdateKeepsCodes(t: Table, id: nat, companyId: nat, dto: Patch)
    requires CodesDistinct(t) && UpdateAccount(t, id, companyId, dto).Ok?
    ensures CodesDistinct(UpdateAccount(t, id, companyId, dto).value)
  {
    UpdateWrites(t, id, companyId, dto);
  }

  lemma PostingKeepsAccounts(db: Db, p: PaymentRow, parties: Parties, userId: nat, now: int)
    requires Inv(db)
    ensures PostPayment(db, p, parties, userId, now).db.accounts == db.accounts
  {
    PostPaymentWrites(db, p, parties, userId, now);
  }

  lemma ReversalKeepsAccounts(db: Db, p: PaymentRow, userId: nat, now: int, uuid: nat)
    requires Inv(db)
    ensures ReversePayment(db, p, userId, now, uuid).db.accounts == db.accounts
  {
    if HasSource(db, p.companyId, Payment, p.id) {
      var i: nat :| i < |db.entries| && MadeFor(db, i, p.companyId, Payment, p.id);
      ReversePaymentWrites(db, i, p, userId, now, uuid);
    } else {
      NoReversal(db, p, userId, now, uuid);
    }
  }

  /** Only account changes change accounts. */
  lemma OtherStepsKeepAccounts(db: Db, s: Step)
    requires Inv(db) && !s.CreateAccountStep? && !s.UpdateAccountStep?
    ensures Apply(db, s).accounts == db.accounts
  {
    match s
    case CreateStep(c, u, dto, now) => LedgerEffects.CreateWrites(db, c, u, dto, now);
    case PostStep(id, c, u, now) => PostWrites(db, id, c, u, now);
    case CancelStep(id, c) => CancelWrites(db, id, c);
    case PostPaymentStep(p, parties, u, now) => PostingKeepsAccounts(db, p, parties, u, now);
    case ReversePaymentStep(p, u, now, uuid) => ReversalKeepsAccounts(db, p, u, now, uuid);
    case _ =>
  }

  lemma StepKeepsCodes(db: Db, s: Step)
    requires Inv(db) && CodesDistinct(db.accounts)
    ensures CodesDistinct(Apply(db, s).accounts)
  {
    match s
    case CreateAccountStep(c, a) =>
      if CreateAccount(db.accounts, c in db.companies, c, a).Ok? {
        CreateKeepsCodes(db.accounts, c in db.companies, c, a);
      }
    case UpdateAccountStep(id, c, patch) =>
      if UpdateAccount(db.accounts, id, c, patch).Ok? {
        UpdateKeepsCodes(db.accounts, id, c, patch);
      }
    case _ => OtherStepsKeepAccounts(db, s);
  }

  /** In every state reachable from empty tables a company has at most one account of a code. */
  lemma {:induction false} CodesAlwaysDistinct(steps: seq<Step>)
    ensures CodesDistinct(Run(Empty(), steps).accounts)
  {
    if steps != [] {
      var before := steps[..|steps| - 1];
      CodesAlwaysDistinct(before);
      EmptyInv();
      RunKeepsInv(Empty(), before);
      StepKeepsCodes(Run(Empty(), before), steps[|steps| - 1]);
    }
  }
}
