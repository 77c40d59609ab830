/**
 What billing calls mean, said in columns: which moves a hold can make, what each call writes, what
 counts against a budget, and where a committed reservation can go over a whole run.
 */
module BillingEffects {
  import opened Base
  import opened Sums
  import opened BillingHolds

  /** Every move between two hold statuses. */
  const HOLD_MOVES: set<(HoldStatus, HoldStatus)> := {
    (Reserved, Committed), (Reserved, Settled), (Reserved, Released), (Reserved, Disputed),
    (Committed, Settled), (Committed, Disputed),
    (Disputed, Settled), (Disputed, Released)}

  lemma LegalHoldMoves(from: HoldStatus, to: HoldStatus)
    ensures TransitionAllowed(from, to) <==> (from, to) in HOLD_MOVES
  {
  }

  /** One version later in the new status, with the columns that go with it. */
  predicate HoldMoved(a: Hold, b: Hold, to: HoldStatus, amount: int, reason: string, at: Time)
  {
    && b.id == a.id && b.operationId == a.operationId && b.account == a.account && b.month == a.month
    && b.reserved == a.reserved && b.status == to && b.version == a.version + 1 && b.reason == reason
    && b.updatedAt == at && b.settled == (if to == Settled then amount else a.settled)
    && b.settledAt == (if to == Settled then Some(at) else a.settledAt)
    && b.releasedAt == (if to == Released then Some(at) else a.releasedAt)
  }

  predicate SameOtherHolds(a: Holds, b: Holds, id: string)
  {
    b.Keys == a.Keys && forall i :: i in a && i != id ==> b[i] == a[i]
  }

  /** Nothing but one hold differs. */
  predicate OnlyHold(b: Book, t: Book, id: string)
  {
    t.operations == b.operations && t.ledger == b.ledger && t.records == b.records &&
        SameOtherHolds(b.holds, t.holds, id)
  }

  predicate HoldFor(b: Book, id: string, operationId: string)
  {
    id in b.holds && b.holds[id].operationId == operationId
  }

  // ---- Direct moves ----

  /** The move is one the operation's hold can make from where it is. */
  predicate Movable(b: Book, id: string, operationId: string, to: HoldStatus, amount: int)
  {
    HoldFor(b, id, operationId) && (b.holds[id].status, to) in HOLD_MOVES && amount >= 0
  }

  /** The version fits but the move does not. */
  predicate Illegal(b: Book, id: string, operationId: string, version: int, to: HoldStatus, amount: int)
  {
    HoldFor(b, id, operationId) && b.holds[id].version == version && b.holds[id].status != to &&
        !Movable(b, id, operationId, to, amount)
  }

  /** A compare-and-swap happens exactly when version and move fit, and says so. */
  ghost predicate TransitionLaw(b: Book, operationId: string, version: int, to: HoldStatus, amount: int, reason: string,
      at: Time, updated: bool, error: Option<Error>, t: Book)
  {
    && (updated <==> exists id :: Movable(b, id, operationId, to, amount) && b.holds[id].version == version)
    && (forall id | Movable(b, id, operationId, to, amount) && b.holds[id].version == version ::
          OnlyHold(b, t, id) && HoldMoved(b.holds[id], t.holds[id], to, amount, reason, at))
    && (!updated ==> t == b)
    && (error == None || error == Some(InvalidTransition))
    && (error.Some? <==> exists id :: Illegal(b, id, operationId, version, to, amount))
  }

  lemma PreparedMove(hold: Hold, to: HoldStatus, amount: int, reason: string, at: Time)
    ensures var r := PrepareTransition(hold, to, amount, reason, at);
            && (hold.status == to ==> r == Success(hold))
            && (hold.status != to && ((hold.status, to) !in HOLD_MOVES || amount < 0) ==>
                  r == Failure(InvalidTransition))
            && ((hold.status, to) in HOLD_MOVES && amount >= 0 ==>
                  r.Success? && HoldMoved(hold, r.value, to, amount, reason, at) && hold.status != to)
  {
    LegalHoldMoves(hold.status, to);
  }

  /** The law for an operation with one hold, without quantifiers. */
  lemma TransitionLawOne(b: Book, id: string, operationId: string, version: int, to: HoldStatus, amount: int,
      reason: string, at: Time, updated: bool, error: Option<Error>, t: Book)
    requires HoldFor(b, id, operationId) && forall i :: HoldFor(b, i, operationId) ==> i == id
    requires updated <==> Movable(b, id, operationId, to, amount) && b.holds[id].version == version
    requires updated ==> OnlyHold(b, t, id) && HoldMoved(b.holds[id], t.holds[id], to, amount, reason, at)
    requires !updated ==> t == b
    requires error == if Illegal(b, id, operationId, version, to, amount) then Some(InvalidTransition) else None
    ensures TransitionLaw(b, operationId, version, to, amount, reason, at, updated, error, t)
  {
    hide OnlyHold, HoldMoved, HOLD_MOVES;
  }

  lemma TransitionLawHolds(b: Book, operationId: string, version: int, to: HoldStatus, amount: int, reason: string,
      at: Time)
    requires Valid(b)
    ensures var r := Transition(b, operationId, version, to, amount, reason, at);
            TransitionLaw(b, operationId, version, to, amount, reason, at, r.Success? && r.value.Some?,
                if r.Failure? then Some(r.error) else None,
                Apply(b, MoveStep(operationId, version, to, amount, reason, at)))
  {
    hide Valid, PrepareTransition, HoldMoved, HOLD_MOVES, TransitionLaw;
    HoldOfIn(b, operationId);
    var h := HoldOf(b.holds, operationId);
    var r := Transition(b, operationId, version, to, amount, reason, at);
    var t := Apply(b, MoveStep(operationId, version, to, amount, reason, at));
    var error := if r.Failure? then Some(r.error) else None;
    if h.Some? {
      OneHold(b, h.value.id, operationId);
      PreparedMove(h.value, to, amount, reason, at);
      if Movable(b, h.value.id, operationId, to, amount) {
        MovedColumns(h.value, PrepareTransition(h.value, to, amount, reason, at).value, to, amount, reason, at);
      }
      TransitionLawOne(b, h.value.id, operationId, version, to, amount, reason, at, r.Success? && r.value.Some?, error,
          t);
    } else {
      TransitionLawNone(b, operationId, version, to, amount, reason, at);
    }
  }

  lemma TransitionLawNone(b: Book, operationId: string, version: int, to: HoldStatus, amount: int, reason: string,
      at: Time)
    requires forall i :: !HoldFor(b, i, operationId)
    ensures TransitionLaw(b, operationId, version, to, amount, reason, at, false, None, b)
  {
    hide HOLD_MOVES;
  }

  lemma HoldOfIn(b: Book, operationId: string)
    requires Valid(b)
    ensures var h := HoldOf(b.holds, operationId);
            && (h.Some? ==> HoldFor(b, h.value.id, operationId) && b.holds[h.value.id] == h.value)
            && (h.None? ==> forall id :: !HoldFor(b, id, operationId))
  {
    HoldOfKnown(b, operationId);
  }

  lemma MovedColumns(a: Hold, b: Hold, to: HoldStatus, amount: int, reason: string, at: Time)
    requires HoldMoved(a, b, to, amount, reason, at)
    ensures b.id == a.id && b.version == a.version + 1
  {
  }

  /** Commit, dispute or release by operation: made when legal, ignored when out of date, otherwise an error. */
  ghost predicate MoveLaw(b: Book, operationId: string, to: HoldStatus, reason: string, at: Time, error: Option<Error>,
      t: Book)
  {
    && ((forall id :: !HoldFor(b, id, operationId)) ==> t == b && error == None)
    && (forall id | HoldFor(b, id, operationId) ::
          var was := b.holds[id].status;
          if (was, to) in HOLD_MOVES then
            error == None && OnlyHold(b, t, id) && HoldMoved(b.holds[id], t.holds[id], to, 0, reason, at)
          else
            t == b && error == (if was == to || was in {Settled, Released} || (was, to) == (Disputed, Committed)
                then None else Some(InvalidTransition)))
  }

  /** A release takes a reserved or disputed hold and no other. */
  ghost predicate ReleaseLaw(b: Book, operationId: string, reason: string, at: Time, t: Book)
  {
    && (forall id | HoldFor(b, id, operationId) && b.holds[id].status in {Reserved, Disputed} ::
          OnlyHold(b, t, id) && HoldMoved(b.holds[id], t.holds[id], Released, 0, reason, at))
    && ((forall id :: HoldFor(b, id, operationId) ==> b.holds[id].status !in {Reserved, Disputed}) ==> t == b)
  }

  lemma ReleaseLawHolds(b: Book, operationId: string, reason: string, at: Time)
    requires Valid(b)
    ensures ReleaseLaw(b, operationId, reason, at, Apply(b, ReleaseStep(operationId, reason, at)))
  {
    hide LedgerValid;
    HoldOfKnown(b, operationId);
    var h := HoldOf(b.holds, operationId);
    if h.Some? {
      assert HoldFor(b, h.value.id, operationId);
    }
  }

  // ---- What counts against a budget ----

  /** Usage charges of the account posted in the month. */
  ghost function Charged(b: Book, account: Account, month: nat): int
  {
    Sum(map id | id in b.ledger && b.ledger[id].purpose == "usage_cost" && b.ledger[id].month == month &&
          b.ledger[id].operationId in b.operations && b.operations[b.ledger[id].operationId].account == account
        :: b.ledger[id].amount)
  }

  /** Reservations of the account for the month that are neither settled nor released. */
  ghost function Outstanding(b: Book, account: Account, month: nat): int
  {
    Sum(map id | id in b.holds && b.holds[id].status !in {Settled, Released} && b.holds[id].account == account &&
          b.holds[id].month == month
        :: b.holds[id].reserved)
  }

  /** Usage charges posted for one operation. */
  ghost function Spent(ledger: Ledger, operationId: string): int
  {
    Sum(map id | id in ledger && ledger[id].purpose == "usage_cost" && ledger[id].operationId == operationId
        :: ledger[id].amount)
  }

  lemma ExposureIs(b: Book, account: Account, month: nat)
    requires Valid(b)
    ensures Exposure(b, account, month) == Charged(b, account, month) + Outstanding(b, account, month)
  {
    var posted := map id | id in b.ledger && b.ledger[id].purpose == "usage_cost" && b.ledger[id].month == month &&
        b.ledger[id].operationId in b.operations && b.operations[b.ledger[id].operationId].account == account
        :: b.ledger[id].amount;
    SumPadded(Values(b.ledger, b.operations, account, month), posted);
    var open := map id | id in b.holds && b.holds[id].status !in {Settled, Released} &&
        b.holds[id].account == account && b.holds[id].month == month
        :: b.holds[id].reserved;
    SumPadded(Weights(b.holds, account, month), open);
  }

  lemma SpentIs(ledger: Ledger, operationId: string)
    ensures TotalCost(ledger, operationId) == Spent(ledger, operationId)
  {
    var posted := map id | id in ledger && ledger[id].purpose == "usage_cost" && ledger[id].operationId == operationId
        :: ledger[id].amount;
    SumPadded(Costs(ledger, operationId), posted);
  }

  /**
   From an empty book, when no charge exceeds its reservation, what an account has been charged and
   still has reserved in a month never exceeds its budget.
   */
  lemma SpendingWithinBudget(steps: seq<Step>, account: Account, month: nat, budget: int)
    requires budget > 0 && (forall i :: 0 <= i < |steps| ==> FixedBudget(steps[i], account, month, budget))
    requires AllCovered(EMPTY, steps, account, month)
    ensures Charged(Run(EMPTY, steps), account, month) + Outstanding(Run(EMPTY, steps), account, month) <= budget
  {
    hide Run, AllCovered, FixedBudget, Exposure, Charged, Outstanding;
    BudgetNeverExceeded(steps, account, month, budget);
    RunValid(EMPTY, steps);
    ExposureIs(Run(EMPTY, steps), account, month);
  }

  lemma {:induction false} RunValid(b: Book, steps: seq<Step>)
    requires Valid(b)
    ensures Valid(Run(b, steps))
    decreases |steps|
  {
    hide Valid, Apply;
    if steps != [] {
      StepValid(b, steps[0]);
      RunValid(Apply(b, steps[0]), steps[1..]);
    }
  }

  // ---- Admissions ----

  predicate WellFormed(a: Admission)
  {
    && a.hold.id != "" && a.hold.operationId == a.operationId
    && a.hold.account.applicationId == a.request.account.applicationId
    && a.hold.account.credentialId == a.request.account.credentialId
    && a.hold.status == Reserved && a.hold.version == 1 && a.hold.reserved >= 0 && a.hold.settled == 0
    && a.budget >= 0
  }

  /** The operation was asked for by the same request under the same idempotency key. */
  predicate Repeated(b: Book, a: Admission, o: string)
  {
    o in b.operations && a.request.idempotencyKey != "" && b.operations[o] == a.request
  }

  /** Neither the operation nor the hold is known. */
  ghost predicate Unused(b: Book, a: Admission)
  {
    a.operationId !in b.operations && a.hold.id !in b.holds && forall id :: !HoldFor(b, id, a.operationId)
  }

  ghost predicate Affordable(b: Book, a: Admission)
  {
    a.budget == 0 ||
    Charged(b, a.request.account, a.hold.month) + Outstanding(b, a.request.account, a.hold.month) + a.hold.reserved
      <= a.budget
  }

  /** Created exactly when well-formed, new and affordable; a repeat names the earlier operation. */
  ghost predicate AdmissionLaw(b: Book, a: Admission, operationId: string, created: bool, error: Option<Error>, t: Book)
  {
    && (created <==> WellFormed(a) && (forall o :: !Repeated(b, a, o)) && Unused(b, a) && Affordable(b, a))
    && (created ==>
          && operationId == a.operationId && error == None && t.ledger == b.ledger && t.records == b.records
          && t.operations == b.operations[a.operationId := a.request] && t.holds == b.holds[a.hold.id := a.hold])
    && (!created ==> t == b)
    && (!created && error == None ==> Repeated(b, a, operationId))
    && (error == Some(InvalidAdmission) <==> !WellFormed(a))
    && (WellFormed(a) && (exists o :: Repeated(b, a, o)) ==> error == None)
    && (error == Some(BudgetExceeded) ==> !Affordable(b, a))
    && (error == Some(AlreadyExists) ==> !Unused(b, a))
    && (error.None? || error.value in {InvalidAdmission, AlreadyExists, BudgetExceeded})
  }

  lemma AdmitExactly(b: Book, a: Admission)
    requires Valid(b)
    ensures Admit(b, a).Success? <==>
              WellFormed(a) && (forall o :: !Repeated(b, a, o)) && Unused(b, a) && Affordable(b, a)
    ensures ValidAdmission(a) <==> WellFormed(a)
    ensures Repeats(b.operations, a.request) <==> exists o :: Repeated(b, a, o)
    ensures Admit(b, a) == Failure(AlreadyExists) ==> !Unused(b, a)
    ensures Admit(b, a) == Failure(BudgetExceeded) ==> !Affordable(b, a)
  {
    hide Exposure, Charged, Outstanding;
    ExposureIs(b, a.request.account, a.hold.month);
    HoldOfKnown(b, a.operationId);
    assert Repeats(b.operations, a.request) <==> exists o :: Repeated(b, a, o) by {
      if Repeats(b.operations, a.request) {
        var o :| o in b.operations && SameRequest(b.operations[o], a.request);
        assert Repeated(b, a, o);
      }
    }
    assert HoldOf(b.holds, a.operationId).Some? <==> exists id :: HoldFor(b, id, a.operationId) by {
      if HoldOf(b.holds, a.operationId).Some? {
        assert HoldFor(b, HoldOf(b.holds, a.operationId).value.id, a.operationId);
      }
    }
  }

  // ---- Settlements ----

  /** The record and its charge are new and the operation can take them. */
  ghost predicate Applicable(b: Book, s: Settlement)
  {
    && s.recordId != "" && s.recordId !in b.records && s.operationId in b.operations && s.attemptKnown
    && (s.charge.Some? ==>
          && s.charge.value.id !in b.ledger && s.charge.value.operationId == s.operationId
          && 0 <= s.charge.value.amount <= MAX_AMOUNT)
    && !(s.final && Charges(s) && Spent(b.ledger, s.operationId) + s.charge.value.amount > MAX_AMOUNT &&
         exists id :: HoldFor(b, id, s.operationId) && b.holds[id].status in {Reserved, Committed, Disputed})
  }

  predicate Charges(s: Settlement) { s.charge.Some? && s.charge.value.purpose == "usage_cost" }

  /** A hold after a usage record of its operation. */
  ghost predicate HoldAfter(b: Book, s: Settlement, before: Hold, after: Hold)
  {
    if !s.final || before.status in {Settled, Released} then after == before
    else if Charges(s) then
      HoldMoved(before, after, Settled, Spent(b.ledger, s.operationId) + s.charge.value.amount, "usage_ledger_applied",
          s.at)
    else if s.unpriced then
      exists mid :: (mid == before || HoldMoved(before, mid, Disputed, 0, "pricing_evaluation_failed", s.at)) &&
            (mid != before <==> s.disputed && before.status != Disputed) &&
            HoldMoved(mid, after, Settled, 0, "usage_unpriced", s.at)
    else if s.disputed && before.status != Disputed then
      HoldMoved(before, after, Disputed, 0, "pricing_evaluation_failed", s.at)
    else after == before
  }

  /** A usage record is applied exactly when applicable, as a whole; an exact repeat is no error. */
  ghost predicate SettlementLaw(b: Book, s: Settlement, applied: bool, error: Option<Error>, t: Book)
  {
    && (applied <==> Applicable(b, s)) && (!applied ==> t == b)
    && (applied ==>
          && error == None && t.operations == b.operations && t.records == b.records[s.recordId := s.record]
          && t.ledger == (if s.charge.Some? then b.ledger[s.charge.value.id := s.charge.value] else b.ledger)
          && t.holds.Keys == b.holds.Keys
          && (forall id | id in b.holds ::
                if b.holds[id].operationId == s.operationId then HoldAfter(b, s, b.holds[id], t.holds[id])
                else t.holds[id] == b.holds[id]))
    && (!applied && error == None ==>
          && s.recordId in b.records && b.records[s.recordId] == s.record
          && (s.charge.Some? ==> s.charge.value in b.ledger.Values))
  }

  lemma ResolvedAfter(b: Book, s: Settlement, hold: Hold)
    requires Valid(b) && ValidSettlement(s)
    ensures HoldAfter(b, s, hold, Resolved(hold, s, SettledTotal(b, s)))
  {
    hide Valid, TotalCost, Spent, ValidSettlement;
    SpentIs(b.ledger, s.operationId);
    AmountsKnown(b, s);
    if s.final && Open(hold) && !Charges(s) && s.unpriced {
      var mid := if s.disputed && hold.status != Disputed
          then MovedTo(hold, Disputed, 0, "pricing_evaluation_failed", s.at) else hold;
      assert HoldMoved(mid, Resolved(hold, s, SettledTotal(b, s)), Settled, 0, "usage_unpriced", s.at);
    }
  }

  lemma AmountsKnown(b: Book, s: Settlement)
    requires Valid(b) && ValidSettlement(s)
    ensures SettledTotal(b, s) >= 0
  {
    TotalCostNonNegative(b, s.operationId);
  }

  lemma SettleExactly(b: Book, s: Settlement)
    requires Valid(b)
    ensures Settle(b, s).Success? <==> Applicable(b, s)
  {
    hide TotalCost, Spent, Resolved;
    SpentIs(b.ledger, s.operationId);
    HoldOfKnown(b, s.operationId);
    var h := HoldOf(b.holds, s.operationId);
    if h.Some? {
      assert HoldFor(b, h.value.id, s.operationId);
    }
  }

  lemma SettlementLawHolds(b: Book, s: Settlement)
    requires Valid(b)
    ensures var r := Settle(b, s);
            SettlementLaw(b, s, r.Success?,
                if r.Success? || r.error == Replayed then None else Some(r.error), Apply(b, SettleStep(s)))
  {
    hide TotalCost, Spent, Resolved, Overflows, Applicable, HoldAfter, LedgerValid;
    SettleExactly(b, s);
    if Settle(b, s).Success? {
      HoldOfKnown(b, s.operationId);
      var h := HoldOf(b.holds, s.operationId);
      if h.Some? {
        ResolvedAfter(b, s, h.value);
      }
    }
  }

  // ---- Committed reservations ----

  /** The step can end or dispute the operation's hold. */
  predicate Closes(step: Step, operationId: string)
  {
    || (step.SettleStep? && step.settlement.operationId == operationId && step.settlement.final &&
        (Charges(step.settlement) || step.settlement.unpriced || step.settlement.disputed))
    || (step.MoveStep? && step.operationId == operationId && (step.to == Settled || step.to == Disputed))
  }

  lemma StepKeepsCommitted(b: Book, step: Step, id: string)
    requires Valid(b) && id in b.holds && b.holds[id].status == Committed && !Closes(step, b.holds[id].operationId)
    ensures id in Apply(b, step).holds && Apply(b, step).holds[id] == b.holds[id]
  {
    hide Valid, Updated, NewCharge, HoldAdvances, Settle, Admit, Transition, Release, Exposure, Spent;
    match step
    case AdmitStep(a) =>
      StepHoldStays(b, a, id);
    case MoveStep(operationId, version, to, amount, reason, at) =>
      TransitionLawHolds(b, operationId, version, to, amount, reason, at);
    case ReleaseStep(operationId, reason, at) =>
      ReleaseLawHolds(b, operationId, reason, at);
      if HoldFor(b, id, operationId) {
        OneHold(b, id, operationId);
      }
    case SettleStep(s) =>
      SettlementLawHolds(b, s);
  }

  lemma StepHoldStays(b: Book, a: Admission, id: string)
    requires Valid(b) && id in b.holds
    ensures id in Apply(b, AdmitStep(a)).holds && Apply(b, AdmitStep(a)).holds[id] == b.holds[id]
  {
    hide Exposure;
  }

  lemma OneHold(b: Book, id: string, operationId: string)
    requires Valid(b) && HoldFor(b, id, operationId)
    ensures forall i :: HoldFor(b, i, operationId) ==> i == id
  {
  }

  /**
   Whatever else happens, a committed hold stays exactly as it is, and in the exposure of its
   account, until its operation is settled or disputed.
   */
  lemma {:induction false} CommittedKept(b: Book, steps: seq<Step>, id: string)
    requires Valid(b) && id in b.holds && b.holds[id].status == Committed
    requires forall i :: 0 <= i < |steps| ==> !Closes(steps[i], b.holds[id].operationId)
    ensures id in Run(b, steps).holds && Run(b, steps).holds[id] == b.holds[id]
    decreases |steps|
  {
    hide Valid, Apply, Closes;
    if steps != [] {
      StepKeepsCommitted(b, steps[0], id);
      StepValid(b, steps[0]);
      CommittedKept(Apply(b, steps[0]), steps[1..], id);
    }
  }
}
