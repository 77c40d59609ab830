/** The in-memory billing book: maps that admissions, transitions and settlements overwrite. */
module BillingRepository {
  import opened Base
  import opened Sums
  import opened BillingHolds
  import opened BillingEffects

  class BillingBook {
    var operations: Operations
    var holds: Holds
    var ledger: Ledger
    var records: map<string, string>

    constructor ()
      ensures Contents() == EMPTY && Valid(Contents())
    {
      operations, holds, ledger, records := map[], map[], map[], map[];
    }

    function Contents(): Book
      reads this
    {
      Book(operations, holds, ledger, records)
    }

    method FindHold(operationId: string) returns (found: Option<Hold>)
      requires Valid(Contents())
      ensures found == HoldOf(holds, operationId)
    {
      HoldOfKnown(Contents(), operationId);
      var rest := holds;
      while rest.Keys != {}
        invariant rest.Keys <= holds.Keys
        invariant forall id :: id in holds && id !in rest ==> holds[id].operationId != operationId
        decreases |rest.Keys|
      {
        var id :| id in rest.Keys;
        if holds[id].operationId == operationId {
          return Some(holds[id]);
        }
        assert (rest - {id}).Keys == rest.Keys - {id};
        rest := rest - {id};
      }
      return None;
    }

    /** Charges of the account in the month, added up in any order. */
    method ChargeTotal(account: Account, month: nat) returns (total: int)
      ensures total == Sum(Values(ledger, operations, account, month))
    {
      hide Value;
      total := 0;
      var rest := ledger;
      while rest.Keys != {}
        invariant rest.Keys <= ledger.Keys && forall id :: id in rest ==> rest[id] == ledger[id]
        invariant total + Sum(Values(rest, operations, account, month)) ==
                  Sum(Values(ledger, operations, account, month))
        decreases |rest.Keys|
      {
        var id :| id in rest.Keys;
        var charge := ledger[id];
        SumWithout(Values(rest, operations, account, month), id);
        assert Values(rest, operations, account, month) - {id} == Values(rest - {id}, operations, account, month);
        total := total + ChargeValue(charge, account, month);
        assert (rest - {id}).Keys == rest.Keys - {id};
        rest := rest - {id};
      }
      assert Values(rest, operations, account, month) == map[];
    }

    function ChargeValue(charge: Charge, account: Account, month: nat): (v: int)
      reads this
      ensures v == Value(charge, operations, account, month)
    {
      if charge.purpose != USAGE_COST || charge.month != month then 0
      else if charge.operationId in operations && operations[charge.operationId].account == account && charge.amount > 0
          then charge.amount
      else 0
    }

    /** Open reservations of the account in the month. */
    method ReservedTotal(account: Account, month: nat) returns (total: int)
      ensures total == Sum(Weights(holds, account, month))
    {
      hide Weight;
      total := 0;
      var rest := holds;
      while rest.Keys != {}
        invariant rest.Keys <= holds.Keys && forall id :: id in rest ==> rest[id] == holds[id]
        invariant total + Sum(Weights(rest, account, month)) == Sum(Weights(holds, account, month))
        decreases |rest.Keys|
      {
        var id :| id in rest.Keys;
        SumWithout(Weights(rest, account, month), id);
        assert Weights(rest, account, month) - {id} == Weights(rest - {id}, account, month);
        total := total + Weight(holds[id], account, month);
        assert (rest - {id}).Keys == rest.Keys - {id};
        rest := rest - {id};
      }
      assert Weights(rest, account, month) == map[];
    }

    /** Refuse a reservation that would take the month's exposure over the budget. */
    method EnforceBudget(a: Admission) returns (error: Option<Error>)
      ensures error == if a.budget > 0 &&
                Exposure(Contents(), a.request.account, a.hold.month) + a.hold.reserved > a.budget
                    then Some(BudgetExceeded) else None
    {
      if a.budget <= 0 {
        return None;
      }
      var exposure := ChargeTotal(a.request.account, a.hold.month);
      var active := ReservedTotal(a.request.account, a.hold.month);
      if exposure + active + a.hold.reserved > a.budget {
        return Some(BudgetExceeded);
      }
      return None;
    }

    method FindRepeat(request: Request) returns (found: Option<string>)
      ensures found.Some? ==> found.value in operations && SameRequest(operations[found.value], request)
      ensures found.None? <==> !Repeats(operations, request)
    {
      if request.idempotencyKey == "" {
        return None;
      }
      var rest := operations.Keys;
      while rest != {}
        invariant rest <= operations.Keys
        invariant forall o :: o in operations && o !in rest ==> !SameRequest(operations[o], request)
        decreases |rest|
      {
        var o :| o in rest;
        if SameRequest(operations[o], request) {
          return Some(o);
        }
        rest := rest - {o};
      }
      return None;
    }

    /**
     Admit an operation with its hold, or answer a repeat with the operation of its scope; a repeat or refusal
     changes nothing.
     */
    method CreateWithHold(a: Admission) returns (operationId: string, created: bool, error: Option<Error>)
      requires Valid(Contents())
      modifies this
      ensures Valid(Contents()) && Contents() == Apply(old(Contents()), AdmitStep(a))
      ensures created == Admit(old(Contents()), a).Success?
      ensures error == (if created || Admit(old(Contents()), a).error == Replayed then None
                else Some(Admit(old(Contents()), a).error))
      ensures created ==> operationId == a.operationId
      ensures AdmissionLaw(old(Contents()), a, operationId, created, error, Contents())
    {
      hide Valid, Exposure, WellFormed, Unused, Affordable;
      AdmitExactly(Contents(), a);
      StepValid(Contents(), AdmitStep(a));
      operationId, created, error := "", false, None;
      if !ValidAdmission(a) {
        error := Some(InvalidAdmission);
        return;
      }
      var repeat := FindRepeat(a.request);
      if repeat.Some? {
        operationId := repeat.value;
        return;
      }
      if a.operationId in operations || a.hold.id in holds {
        error := Some(AlreadyExists);
        return;
      }
      var existing := FindHold(a.operationId);
      if existing.Some? {
        error := Some(AlreadyExists);
        return;
      }
      error := EnforceBudget(a);
      if error.None? {
        operations := operations[a.operationId := a.request];
        holds := holds[a.hold.id := a.hold];
        operationId, created := a.operationId, true;
      }
    }

    method TransitionHold(operationId: string, version: int, to: HoldStatus, amount: int, reason: string, at: Time)
      returns (updated: bool, error: Option<Error>)
      requires Valid(Contents())
      modifies this`holds
      ensures Valid(Contents())
      ensures Contents() == Apply(old(Contents()), MoveStep(operationId, version, to, amount, reason, at))
      ensures var r := Transition(old(Contents()), operationId, version, to, amount, reason, at);
              updated == (r.Success? && r.value.Some?) && error == (if r.Failure? then Some(r.error) else None)
      ensures TransitionLaw(old(Contents()), operationId, version, to, amount, reason, at, updated, error, Contents())
    {
      hide Valid, TransitionLaw;
      TransitionLawHolds(Contents(), operationId, version, to, amount, reason, at);
      StepValid(Contents(), MoveStep(operationId, version, to, amount, reason, at));
      var hold := FindHold(operationId);
      if hold.None? || hold.value.version != version {
        return false, None;
      }
      var next := PrepareTransition(hold.value, to, amount, reason, at);
      if next.Failure? {
        return false, Some(next.error);
      }
      if next.value.version == hold.value.version {
        return false, None;
      }
      PreparedAdvances(hold.value, to, amount, reason, at);
      holds := holds[hold.value.id := next.value];
      return true, None;
    }

    /** Commit, dispute or release by operation; a hold that is already past that point is left alone. */
    method MoveHold(operationId: string, to: HoldStatus, reason: string, at: Time)
      returns (conflict: bool, error: Option<Error>)
      requires Valid(Contents())
      modifies this`holds
      ensures Valid(Contents())
      ensures var h := HoldOf(old(holds), operationId);
              Contents() ==
              if h.None? || h.value.status == to || !Open(h.value) || (h.value.status == Disputed && to == Committed)
                  then old(Contents())
              else Apply(old(Contents()), MoveStep(operationId, h.value.version, to, 0, reason, at))
      ensures !conflict
      ensures var h := HoldOf(old(holds), operationId);
              error ==
              if h.None? || h.value.status == to || !Open(h.value) || (h.value.status == Disputed && to == Committed) ||
                  TransitionAllowed(h.value.status, to)
              then None else Some(InvalidTransition)
      ensures MoveLaw(old(Contents()), operationId, to, reason, at, error, Contents())
    {
      hide Valid, Apply, HoldMoved;
      HoldOfIn(Contents(), operationId);
      var hold := FindHold(operationId);
      if hold.None? {
        return false, None;
      }
      OneHold(Contents(), hold.value.id, operationId);
      if hold.value.status == to || !Open(hold.value) || (hold.value.status == Disputed && to == Committed) {
        return false, None;
      }
      ghost var before := Contents();
      assert Movable(before, hold.value.id, operationId, to, 0) <==> (hold.value.status, to) in HOLD_MOVES;
      assert Illegal(before, hold.value.id, operationId, hold.value.version, to, 0) <==>
          (hold.value.status, to) !in HOLD_MOVES;
      var updated;
      updated, error := TransitionHold(operationId, hold.value.version, to, 0, reason, at);
      conflict := error.None? && !updated;
    }

    /** Release on cancellation before dispatch; committed and finished holds stay. */
    method ReleaseForOperation(operationId: string, reason: string, at: Time) returns (error: Option<Error>)
      requires Valid(Contents())
      modifies this`holds
      ensures Valid(Contents()) && Contents() == Apply(old(Contents()), ReleaseStep(operationId, reason, at))
      ensures error == None && ReleaseLaw(old(Contents()), operationId, reason, at, Contents())
    {
      hide Valid, ReleaseLaw;
      ReleaseLawHolds(Contents(), operationId, reason, at);
      StepValid(Contents(), ReleaseStep(operationId, reason, at));
      var hold := FindHold(operationId);
      if hold.None? || !Open(hold.value) || hold.value.status == Committed {
        return None;
      }
      var next := PrepareTransition(hold.value, Released, 0, reason, at);
      if next.Failure? {
        return Some(InvalidTransition);
      }
      holds := holds[hold.value.id := next.value];
      return None;
    }

    /** The operation's posted cost plus the new charge, unless that leaves the supported range. */
    method CumulativeAmount(charge: Charge) returns (total: Option<int>)
      requires Valid(Contents()) && 0 <= charge.amount <= MAX_AMOUNT
      ensures var sum := charge.amount + TotalCost(ledger, charge.operationId);
              total == if sum > MAX_AMOUNT then None else Some(sum)
    {
      hide Cost, TotalCost, HoldsValid, LedgerValid;
      var running, rest := charge.amount, ledger;
      while rest.Keys != {}
        invariant rest.Keys <= ledger.Keys && forall id :: id in rest ==> rest[id] == ledger[id]
        invariant 0 <= running <= MAX_AMOUNT
        invariant running + TotalCost(rest, charge.operationId) == charge.amount + TotalCost(ledger, charge.operationId)
        decreases |rest.Keys|
      {
        var id :| id in rest.Keys;
        CostStep(Contents(), rest, id, charge.operationId);
        var amount := Cost(ledger[id], charge.operationId);
        if amount > MAX_AMOUNT - running {
          return None;
        }
        running := running + amount;
        rest := rest - {id};
      }
      NoCost(rest, charge.operationId);
      return Some(running);
    }

    /**
     Apply one usage record: settle or dispute the hold, then post the charge; a replay or a refusal changes
     nothing.
     */
    method ApplySettlement(s: Settlement) returns (applied: bool, error: Option<Error>)
      requires Valid(Contents())
      modifies this
      ensures Valid(Contents()) && Contents() == Apply(old(Contents()), SettleStep(s))
      ensures applied == Settle(old(Contents()), s).Success?
      ensures error == (if applied || Settle(old(Contents()), s).error == Replayed then None
                else Some(Settle(old(Contents()), s).error))
      ensures SettlementLaw(old(Contents()), s, applied, error, Contents())
    {
      hide Valid, Resolved, TotalCost, SettlementLaw;
      SettlementLawHolds(Contents(), s);
      StepValid(Contents(), SettleStep(s));
      if !ValidSettlement(s) {
        return false, Some(LedgerConflict);
      }
      if s.operationId !in operations {
        return false, Some(UnknownOperation);
      }
      if !s.attemptKnown {
        return false, Some(UnknownAttempt);
      }
      var sameRecord := s.recordId in records && records[s.recordId] == s.record;
      if s.charge.Some? && s.charge.value.id in ledger {
        return false, if ledger[s.charge.value.id] == s.charge.value && sameRecord then None else Some(LedgerConflict);
      }
      if s.recordId in records {
        return false, if s.charge.Some? then Some(AlreadyExists) else if sameRecord then None else Some(LedgerConflict);
      }
      var hold := FindHold(s.operationId);
      HoldOfInBook(Contents(), s.operationId);
      if hold.Some? {
        var total := 0;
        if s.final && PostsCost(s) && Open(hold.value) {
          var sum := CumulativeAmount(s.charge.value);
          if sum.None? {
            return false, Some(OutOfRange);
          }
          total := sum.value;
        }
        var resolved := Resolve(hold.value, s, total);
        ResolvedTotal(hold.value, s, total, SettledTotal(Contents(), s));
        holds := holds[hold.value.id := resolved];
      }
      if s.charge.Some? {
        ledger := ledger[s.charge.value.id := s.charge.value];
      }
      records := records[s.recordId := s.record];
      return true, None;
    }

    /** The three consecutive updates a final record may make to its hold. */
    method Resolve(hold: Hold, s: Settlement, total: int) returns (resolved: Hold)
      ensures resolved == Resolved(hold, s, total)
    {
      resolved := hold;
      if !s.final {
        return;
      }
      if PostsCost(s) && Open(resolved) {
        resolved := MovedTo(resolved, Settled, total, "usage_ledger_applied", s.at);
      }
      if s.disputed && Open(resolved) && resolved.status != Disputed {
        resolved := MovedTo(resolved, Disputed, 0, "pricing_evaluation_failed", s.at);
      }
      if s.unpriced && Open(resolved) {
        resolved := MovedTo(resolved, Settled, 0, "usage_unpriced", s.at);
      }
    }
  }

  lemma NoCost(rest: Ledger, operationId: string)
    requires rest.Keys == {}
    ensures TotalCost(rest, operationId) == 0
  {
    assert Costs(rest, operationId) == map[];
  }

  lemma CostStep(b: Book, rest: Ledger, id: string, operationId: string)
    requires LedgerValid(b) && id in rest && rest.Keys <= b.ledger.Keys && forall k :: k in rest ==>
              rest[k] == b.ledger[k]
    ensures TotalCost(rest, operationId) == Cost(b.ledger[id], operationId) + TotalCost(rest - {id}, operationId)
    ensures Cost(b.ledger[id], operationId) >= 0 && TotalCost(rest - {id}, operationId) >= 0
    ensures (rest - {id}).Keys == rest.Keys - {id}
  {
    SumWithout(Costs(rest, operationId), id);
    assert Costs(rest, operationId) - {id} == Costs(rest - {id}, operationId);
    SumNonNegative(Costs(rest - {id}, operationId));
  }

  lemma HoldOfInBook(b: Book, operationId: string)
    requires Valid(b)
    ensures HoldOf(b.holds, operationId).Some? ==> HoldOf(b.holds, operationId).value.id in b.holds
  {
    HoldOfKnown(b, operationId);
  }

  /** The total matters only where a posted cost settles an open hold. */
  lemma ResolvedTotal(hold: Hold, s: Settlement, a: int, b: int)
    requires s.final && PostsCost(s) && Open(hold) ==> a == b
    ensures Resolved(hold, s, a) == Resolved(hold, s, b)
  {
  }

  /** No update of a hold fails once the cumulative amount is in range, so a settlement is never half applied. */
  lemma ResolveNeverFails(hold: Hold, s: Settlement, total: int)
    requires total >= 0
    ensures PostsCost(s) && Open(hold) ==>
              PrepareTransition(hold, Settled, total, "usage_ledger_applied", s.at).Success?
    ensures Open(hold) && hold.status != Disputed ==>
              PrepareTransition(hold, Disputed, 0, "pricing_evaluation_failed", s.at).Success?
    ensures Open(hold) ==> PrepareTransition(hold, Settled, 0, "usage_unpriced", s.at).Success?
  {
  }
}
