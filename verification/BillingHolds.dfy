/**
 Budget reservations. A hold is admitted against the monthly budget of a credential and later
 committed, disputed, settled by usage or released; charges are posted to a ledger.
 */
module BillingHolds {
  import opened Base
  import opened Sums

  datatype Account = Account(applicationId: string, credentialId: string)

  datatype HoldStatus = Reserved | Committed | Disputed | Settled | Released

  /** Budget periods start on the first of a month, so periods and posting dates are month numbers. */
  datatype Hold = Hold(
    id: string, operationId: string, account: Account, status: HoldStatus, version: int,
    reserved: int, settled: int, month: nat, reason: string,
    updatedAt: Time, settledAt: Option<Time>, releasedAt: Option<Time>)

  const USAGE_COST := "usage_cost"

  datatype Charge = Charge(id: string, operationId: string, purpose: string, amount: int, month: nat)

  type Holds = map<string, Hold>
  type Ledger = map<string, Charge>

  /** The columns of an operation that decide whose budget it uses and which requests are repeats of it. */
  datatype Request = Request(
    account: Account, credentialSource: string, integrationId: string, principalType: string, principalId: string,
    externalSubject: string, operation: string, idempotencyKey: string)

  type Operations = map<string, Request>

  /** Usage records are kept by identifier with what a repeat is compared on. */
  datatype Book = Book(operations: Operations, holds: Holds, ledger: Ledger, records: map<string, string>)

  datatype Admission = Admission(operationId: string, request: Request, hold: Hold, budget: int)

  /** A usage record with the ledger row it posts, if any. */
  datatype Settlement = Settlement(
    recordId: string, record: string, operationId: string, attemptKnown: bool, final: bool, unpriced: bool,
        disputed: bool, charge: Option<Charge>, at: Time)

  datatype Error =
    | InvalidAdmission | AlreadyExists | BudgetExceeded | InvalidTransition
    | LedgerConflict | UnknownOperation | UnknownAttempt | OutOfRange | Replayed

  const MAX_AMOUNT: int := 0x7fff_ffff_ffff_ffff

  predicate CountsAgainstBudget(status: HoldStatus) { status == Reserved || status == Committed || status == Disputed }

  predicate TransitionAllowed(from: HoldStatus, to: HoldStatus)
  {
    match from
    case Reserved => to != Reserved
    case Committed => to == Settled || to == Disputed
    case Disputed => to == Settled || to == Released
    case _ => false
  }

  function PrepareTransition(hold: Hold, to: HoldStatus, amount: int, reason: string, at: Time): Result<Hold, Error>
  {
    if hold.status == to then Success(hold)
    else if !TransitionAllowed(hold.status, to) || amount < 0 then Failure(InvalidTransition)
    else
      var moved := hold.(status := to, version := hold.version + 1, reason := reason, updatedAt := at);
      Success(
        if to == Settled then moved.(settled := amount, settledAt := Some(at))
        else if to == Released then moved.(releasedAt := Some(at))
        else moved)
  }

  // ---- Exposure ----

  /** What a hold takes from the budget of an account and month. */
  function Weight(hold: Hold, account: Account, month: nat): int
  {
    if CountsAgainstBudget(hold.status) && hold.account == account && hold.month == month then Max(0, hold.reserved)
        else 0
  }

  /** What a charge takes from the budget of an account and month. */
  function Value(charge: Charge, operations: Operations, account: Account, month: nat): int
  {
    if charge.purpose == USAGE_COST && charge.month == month && charge.operationId in operations &&
       operations[charge.operationId].account == account
    then Max(0, charge.amount) else 0
  }

  ghost function Weights(holds: Holds, account: Account, month: nat): map<string, int>
  {
    map id | id in holds :: Weight(holds[id], account, month)
  }

  ghost function Values(ledger: Ledger, operations: Operations, account: Account, month: nat): map<string, int>
  {
    map id | id in ledger :: Value(ledger[id], operations, account, month)
  }

  ghost function Exposure(b: Book, account: Account, month: nat): int
  {
    Sum(Values(b.ledger, b.operations, account, month)) + Sum(Weights(b.holds, account, month))
  }

  /** What a charge adds to the usage cost of one operation. */
  function Cost(charge: Charge, operationId: string): int
  {
    if charge.operationId == operationId && charge.purpose == USAGE_COST then charge.amount else 0
  }

  ghost function Costs(ledger: Ledger, operationId: string): map<string, int>
  {
    map id | id in ledger :: Cost(ledger[id], operationId)
  }

  ghost function TotalCost(ledger: Ledger, operationId: string): int { Sum(Costs(ledger, operationId)) }

  // ---- Steps ----

  ghost function HoldOf(holds: Holds, operationId: string): (r: Option<Hold>)
    ensures r.Some? ==> exists id :: id in holds && holds[id] == r.value && r.value.operationId == operationId
    ensures r.None? ==> forall id :: id in holds ==> holds[id].operationId != operationId
  {
    if exists id :: id in holds && holds[id].operationId == operationId
    then var id :| id in holds && holds[id].operationId == operationId; Some(holds[id])
    else None
  }

  predicate ValidAdmission(a: Admission)
  {
    && a.hold.id != "" && a.hold.operationId == a.operationId && a.hold.account == a.request.account
    && a.hold.status == Reserved && a.hold.version == 1 && a.hold.reserved >= 0 && a.hold.settled == 0 && a.budget >= 0
  }

  predicate SameRequest(left: Request, right: Request) { left.idempotencyKey != "" && left == right }

  /** The idempotency scope of the request already owns an operation. */
  ghost predicate Repeats(operations: Operations, request: Request)
  {
    exists o :: o in operations && SameRequest(operations[o], request)
  }

  /** A repeated request is answered with its operation; the result then says so and changes nothing. */
  ghost function Admit(b: Book, a: Admission): Result<Book, Error>
  {
    if !ValidAdmission(a) then Failure(InvalidAdmission)
    else if Repeats(b.operations, a.request) then Failure(Replayed)
    else if a.operationId in b.operations || a.hold.id in b.holds || HoldOf(b.holds, a.operationId).Some?
        then Failure(AlreadyExists)
    else if a.budget > 0 && Exposure(b, a.request.account, a.hold.month) + a.hold.reserved > a.budget
        then Failure(BudgetExceeded)
    else Success(Book(b.operations[a.operationId := a.request], b.holds[a.hold.id := a.hold], b.ledger, b.records))
  }

  function PutHold(b: Book, hold: Hold): Book { b.(holds := b.holds[hold.id := hold]) }

  /** A compare-and-swap of a hold's status; None when there was nothing to update. */
  ghost function Transition(b: Book, operationId: string, version: int, to: HoldStatus, amount: int, reason: string,
      at: Time): Result<Option<Book>, Error>
  {
    match HoldOf(b.holds, operationId)
    case None => Success(None)
    case Some(hold) =>
      if hold.version != version then Success(None)
      else
        match PrepareTransition(hold, to, amount, reason, at)
        case Failure(e) => Failure(e)
        case Success(updated) => Success(if updated.version == hold.version then None else Some(PutHold(b, updated)))
  }

  ghost function Release(b: Book, operationId: string, reason: string, at: Time): Result<Book, Error>
  {
    match HoldOf(b.holds, operationId)
    case None => Success(b)
    case Some(hold) =>
      if hold.status == Settled || hold.status == Released || hold.status == Committed then Success(b)
      else
        match PrepareTransition(hold, Released, 0, reason, at)
        case Failure(e) => Failure(e)
        case Success(updated) => Success(PutHold(b, updated))
  }

  predicate ValidSettlement(s: Settlement)
  {
    s.recordId != "" &&
        (s.charge.Some? ==> s.charge.value.operationId == s.operationId && 0 <= s.charge.value.amount <= MAX_AMOUNT)
  }

  predicate Open(hold: Hold) { hold.status != Settled && hold.status != Released }

  predicate PostsCost(s: Settlement) { s.charge.Some? && s.charge.value.purpose == USAGE_COST }

  function MovedTo(hold: Hold, to: HoldStatus, amount: int, reason: string, at: Time): Hold
  {
    var r := PrepareTransition(hold, to, amount, reason, at);
    if r.Success? then r.value else hold
  }

  /**
   A hold after a usage record: settled by a posted cost, disputed by a failed price, settled at zero when
   unpriced.
   */
  function Resolved(hold: Hold, s: Settlement, total: int): Hold
  {
    if !s.final then hold
    else
      var charged := if PostsCost(s) && Open(hold) then MovedTo(hold, Settled, total, "usage_ledger_applied", s.at)
          else hold;
      var disputed := if s.disputed && Open(charged) && charged.status != Disputed
          then MovedTo(charged, Disputed, 0, "pricing_evaluation_failed", s.at) else charged;
      if s.unpriced && Open(disputed) then MovedTo(disputed, Settled, 0, "usage_unpriced", s.at) else disputed
  }

  ghost function SettledTotal(b: Book, s: Settlement): int
  {
    TotalCost(b.ledger, s.operationId) + (if s.charge.Some? then s.charge.value.amount else 0)
  }

  ghost predicate Overflows(b: Book, s: Settlement)
  {
    && s.final && PostsCost(s) && SettledTotal(b, s) > MAX_AMOUNT
    && HoldOf(b.holds, s.operationId).Some? && Open(HoldOf(b.holds, s.operationId).value)
  }

  function Posted(ledger: Ledger, charge: Option<Charge>): Ledger
  {
    if charge.Some? then ledger[charge.value.id := charge.value] else ledger
  }

  predicate SameRecord(b: Book, s: Settlement) { s.recordId in b.records && b.records[s.recordId] == s.record }

  ghost function Settle(b: Book, s: Settlement): Result<Book, Error>
  {
    if !ValidSettlement(s) then Failure(LedgerConflict)
    else if s.operationId !in b.operations then Failure(UnknownOperation)
    else if !s.attemptKnown then Failure(UnknownAttempt)
    else if s.charge.Some? && s.charge.value.id in b.ledger then
      Failure(if b.ledger[s.charge.value.id] == s.charge.value && SameRecord(b, s) then Replayed else LedgerConflict)
    else if s.recordId in b.records then
      Failure(if s.charge.Some? then AlreadyExists else if SameRecord(b, s) then Replayed else LedgerConflict)
    else if Overflows(b, s) then Failure(OutOfRange)
    else
      var hold := HoldOf(b.holds, s.operationId);
      Success(Book(
        b.operations,
        if hold.Some? then b.holds[hold.value.id := Resolved(hold.value, s, SettledTotal(b, s))] else b.holds,
        Posted(b.ledger, s.charge),
        b.records[s.recordId := s.record]))
  }

  datatype Step =
    | AdmitStep(admission: Admission)
    | MoveStep(operationId: string, version: int, to: HoldStatus, amount: int, reason: string, at: Time)
    | ReleaseStep(operationId: string, reason: string, at: Time)
    | SettleStep(settlement: Settlement)

  ghost function Apply(b: Book, step: Step): Book
  {
    match step
    case AdmitStep(admission) => var r := Admit(b, admission); if r.Success? then r.value else b
    case MoveStep(operationId, version, to, amount, reason, at) =>
      var r := Transition(b, operationId, version, to, amount, reason, at);
      if r.Success? && r.value.Some? then r.value.value else b
    case ReleaseStep(operationId, reason, at) =>
      var r := Release(b, operationId, reason, at);
      if r.Success? then r.value else b
    case SettleStep(settlement) => var r := Settle(b, settlement); if r.Success? then r.value else b
  }

  // ---- The book invariant ----

  ghost predicate HoldsValid(b: Book)
  {
    && (forall id :: id in b.holds ==>
          && b.holds[id].id == id && b.holds[id].reserved >= 0
          && b.holds[id].operationId in b.operations &&
               b.operations[b.holds[id].operationId].account == b.holds[id].account)
    && (forall i, j :: i in b.holds && j in b.holds && b.holds[i].operationId == b.holds[j].operationId ==> i == j)
  }

  ghost predicate LedgerValid(b: Book)
  {
    forall id :: id in b.ledger ==>
      b.ledger[id].id == id && 0 <= b.ledger[id].amount <= MAX_AMOUNT && b.ledger[id].operationId in b.operations
  }

  ghost predicate Valid(b: Book) { HoldsValid(b) && LedgerValid(b) }

  lemma HoldOfKnown(b: Book, operationId: string)
    requires HoldsValid(b)
    ensures var r := HoldOf(b.holds, operationId);
            && (r.Some? ==>
                  r.value.id in b.holds && b.holds[r.value.id] == r.value && r.value.operationId == operationId)
            && (forall id :: id in b.holds && b.holds[id].operationId == operationId ==> r == Some(b.holds[id]))
  {
  }

  /** How a hold may change: identity and reservation stay; settled and released are final. */
  predicate HoldAdvances(a: Hold, b: Hold)
  {
    && b.id == a.id && b.operationId == a.operationId && b.account == a.account && b.month == a.month &&
         b.reserved == a.reserved
    && b.version >= a.version && (b.version == a.version ==> b == a)
    && (a.status == Settled || a.status == Released ==> b == a)
  }

  lemma PreparedAdvances(hold: Hold, to: HoldStatus, amount: int, reason: string, at: Time)
    ensures var r := PrepareTransition(hold, to, amount, reason, at); r.Success? ==> HoldAdvances(hold, r.value)
  {
  }

  lemma ResolvedAdvances(hold: Hold, s: Settlement, total: int)
    ensures HoldAdvances(hold, Resolved(hold, s, total))
  {
  }

  /** A hold's weight never grows as it advances. */
  lemma WeightFalls(a: Hold, b: Hold, account: Account, month: nat)
    requires HoldAdvances(a, b)
    ensures Weight(b, account, month) <= Weight(a, account, month)
  {
  }

  /** The hold a step updates and what it becomes, if the step updates one. */
  ghost function Updated(b: Book, step: Step): Option<Hold>
  {
    match step
    case AdmitStep(_) => None
    case MoveStep(operationId, version, to, amount, reason, at) =>
      var r := Transition(b, operationId, version, to, amount, reason, at);
      if r.Success? && r.value.Some? then Some(MovedTo(HoldOf(b.holds, operationId).value, to, amount, reason, at))
          else None
    case ReleaseStep(operationId, reason, at) =>
      var h := HoldOf(b.holds, operationId);
      if h.Some? && h.value.status != Committed && Open(h.value) then Some(MovedTo(h.value, Released, 0, reason, at))
          else None
    case SettleStep(s) =>
      var h := HoldOf(b.holds, s.operationId);
      if Settle(b, s).Success? && h.Some? then Some(Resolved(h.value, s, SettledTotal(b, s))) else None
  }

  /** The charge a step posts, if it posts one. */
  ghost function NewCharge(b: Book, step: Step): Option<Charge>
  {
    if step.SettleStep? && Settle(b, step.settlement).Success? then step.settlement.charge else None
  }

  predicate Postable(b: Book, charge: Charge)
  {
    charge.id !in b.ledger && 0 <= charge.amount <= MAX_AMOUNT && charge.operationId in b.operations
  }

  /** Every step but an admission advances at most one hold and posts at most one charge. */
  lemma StepShape(b: Book, step: Step)
    requires Valid(b) && !step.AdmitStep?
    ensures var t, h := Apply(b, step), Updated(b, step);
            && t.operations == b.operations && t.ledger == Posted(b.ledger, NewCharge(b, step))
            && (h.Some? ==> h.value.id in b.holds && HoldAdvances(b.holds[h.value.id], h.value))
            && t.holds == (if h.Some? then b.holds[h.value.id := h.value] else b.holds)
            && (NewCharge(b, step).Some? ==> Postable(b, NewCharge(b, step).value))
  {
    hide HoldsValid, LedgerValid, HoldAdvances, Resolved, Overflows;
    match step
    case MoveStep(operationId, version, to, amount, reason, at) =>
      HoldOfKnown(b, operationId);
      if HoldOf(b.holds, operationId).Some? {
        PreparedAdvances(HoldOf(b.holds, operationId).value, to, amount, reason, at);
        SameIdentity(HoldOf(b.holds, operationId).value,
            MovedTo(HoldOf(b.holds, operationId).value, to, amount, reason, at));
      }
    case ReleaseStep(operationId, reason, at) =>
      HoldOfKnown(b, operationId);
      if HoldOf(b.holds, operationId).Some? {
        PreparedAdvances(HoldOf(b.holds, operationId).value, Released, 0, reason, at);
      }
    case SettleStep(s) =>
      HoldOfKnown(b, s.operationId);
      if HoldOf(b.holds, s.operationId).Some? {
        ResolvedAdvances(HoldOf(b.holds, s.operationId).value, s, SettledTotal(b, s));
        AdvancesId(HoldOf(b.holds, s.operationId).value,
            Resolved(HoldOf(b.holds, s.operationId).value, s, SettledTotal(b, s)));
      }
  }

  lemma AdvancesId(a: Hold, b: Hold)
    requires HoldAdvances(a, b)
    ensures b.id == a.id
  {
  }

  lemma SameIdentity(a: Hold, b: Hold)
    ensures HoldAdvances(a, b) ==> b.id == a.id
  {
  }

  lemma AdmitShape(b: Book, a: Admission)
    requires Valid(b) && Admit(b, a).Success?
    ensures var t := Admit(b, a).value;
            && a.hold.id !in b.holds && t.holds == b.holds[a.hold.id := a.hold] && t.ledger == b.ledger
            && a.operationId !in b.operations && t.operations == b.operations[a.operationId := a.request]
  {
  }

  lemma StepValid(b: Book, step: Step)
    requires Valid(b)
    ensures Valid(Apply(b, step))
  {
    hide Apply, Updated, NewCharge, Admit;
    if step.AdmitStep? {
      AdmitValid(b, step.admission);
    } else {
      StepShape(b, step);
    }
  }

  lemma AdmitValid(b: Book, a: Admission)
    requires Valid(b)
    ensures Valid(Apply(b, AdmitStep(a)))
  {
    hide Exposure;
  }

  // ---- Conservation ----

  /** Exactly how a step other than an admission changes the exposure of an account and month. */
  ghost function Delta(b: Book, step: Step, account: Account, month: nat): int
  {
    (if NewCharge(b, step).Some? then Value(NewCharge(b, step).value, b.operations, account, month) else 0) -
    (if Updated(b, step).Some? && Updated(b, step).value.id in b.holds
     then Weight(b.holds[Updated(b, step).value.id], account, month) - Weight(Updated(b, step).value, account, month)
         else 0)
  }

  lemma WeightsPut(holds: Holds, hold: Hold, account: Account, month: nat)
    ensures Sum(Weights(holds[hold.id := hold], account, month)) ==
            Sum(Weights(holds, account, month)) - (if hold.id in holds then Weight(holds[hold.id], account, month)
                else 0) + Weight(hold, account, month)
  {
    hide Weight;
    SumInsert(Weights(holds, account, month), hold.id, Weight(hold, account, month));
    assert Weights(holds[hold.id := hold], account, month) ==
        Weights(holds, account, month)[hold.id := Weight(hold, account, month)];
  }

  lemma ValuesPosted(ledger: Ledger, operations: Operations, charge: Charge, account: Account, month: nat)
    requires charge.id !in ledger
    ensures Sum(Values(ledger[charge.id := charge], operations, account, month)) ==
            Sum(Values(ledger, operations, account, month)) + Value(charge, operations, account, month)
  {
    hide Value;
    SumInsert(Values(ledger, operations, account, month), charge.id, Value(charge, operations, account, month));
    assert Values(ledger[charge.id := charge], operations, account, month) ==
           Values(ledger, operations, account, month)[charge.id := Value(charge, operations, account, month)];
  }

  /** Conservation: what leaves the reservations and what enters the ledger account for every change of exposure. */
  lemma ExposureChange(b: Book, step: Step, account: Account, month: nat)
    requires Valid(b) && !step.AdmitStep?
    ensures Exposure(Apply(b, step), account, month) == Exposure(b, account, month) + Delta(b, step, account, month)
  {
    hide Apply, Updated, NewCharge, Weight, Value, Weights, Values, Valid, HoldAdvances;
    StepShape(b, step);
    if Updated(b, step).Some? {
      WeightsPut(b.holds, Updated(b, step).value, account, month);
    }
    if NewCharge(b, step).Some? {
      ValuesPosted(b.ledger, b.operations, NewCharge(b, step).value, account, month);
    }
  }

  /** An admission adds its reservation to its own account and month, and nothing anywhere else. */
  lemma AdmitExposure(b: Book, a: Admission, account: Account, month: nat)
    requires Valid(b) && Admit(b, a).Success?
    ensures Exposure(Admit(b, a).value, account, month) ==
            Exposure(b, account, month) + (if a.request.account == account && a.hold.month == month then a.hold.reserved
                else 0)
    ensures a.budget > 0 && a.request.account == account && a.hold.month == month ==>
              Exposure(Admit(b, a).value, account, month) <= a.budget
  {
    hide Exposure;
    AdmitShape(b, a);
    var t := Admit(b, a).value;
    KnownCharges(b, t, account, month);
    WeightsPut(b.holds, a.hold, account, month);
    ExposureParts(b, account, month);
    ExposureParts(t, account, month);
  }

  lemma ExposureParts(b: Book, account: Account, month: nat)
    ensures Exposure(b, account, month) ==
              Sum(Values(b.ledger, b.operations, account, month)) + Sum(Weights(b.holds, account, month))
  {
  }

  lemma KnownCharges(b: Book, t: Book, account: Account, month: nat)
    requires LedgerValid(b) && t.ledger == b.ledger
    requires forall o :: o in b.operations ==> o in t.operations && t.operations[o] == b.operations[o]
    ensures Values(t.ledger, t.operations, account, month) == Values(b.ledger, b.operations, account, month)
  {
    forall id | id in b.ledger
      ensures Value(b.ledger[id], t.operations, account, month) == Value(b.ledger[id], b.operations, account, month)
    {
      assert b.ledger[id].operationId in b.operations;
    }
  }

  /** The part of a charge that its hold's reservation does not cover. */
  ghost function Overrun(b: Book, step: Step, account: Account, month: nat): int
  {
    if step.AdmitStep? then 0 else Max(0, Delta(b, step, account, month))
  }

  /** The settlement posts nothing to this account and month, or at most what its own open hold there reserves. */
  ghost predicate Covered(b: Book, s: Settlement, account: Account, month: nat)
  {
    || !PostsCost(s) || s.charge.value.amount == 0 || s.charge.value.month != month || s.operationId !in b.operations
    || b.operations[s.operationId].account != account
    || (var h := HoldOf(b.holds, s.operationId);
        s.final && h.Some? && Open(h.value) && h.value.month == month && s.charge.value.amount <= h.value.reserved)
  }

  /** A settlement raises the exposure exactly when its charge is not covered. */
  lemma OverrunExactly(b: Book, s: Settlement, account: Account, month: nat)
    requires Valid(b) && Settle(b, s).Success?
    ensures Overrun(b, SettleStep(s), account, month) == 0 <==> Covered(b, s, account, month)
  {
    hide TotalCost, Overflows;
    HoldOfKnown(b, s.operationId);
    TotalCostNonNegative(b, s.operationId);
    var h := HoldOf(b.holds, s.operationId);
    if h.Some? {
      ResolvedWeight(h.value, s, SettledTotal(b, s), account, month);
      ResolvedAdvances(h.value, s, SettledTotal(b, s));
    }
    hide Resolved;
  }

  lemma TotalCostNonNegative(b: Book, operationId: string)
    requires LedgerValid(b)
    ensures TotalCost(b.ledger, operationId) >= 0
  {
    SumNonNegative(Costs(b.ledger, operationId));
  }

  lemma ResolvedWeight(hold: Hold, s: Settlement, total: int, account: Account, month: nat)
    requires hold.reserved >= 0
    ensures Weight(Resolved(hold, s, total), account, month) <= Weight(hold, account, month)
    ensures !PostsCost(s) || !s.final || !Open(hold) || total >= 0 ==>
              (s.final && PostsCost(s) ==> Weight(Resolved(hold, s, total), account, month) == 0)
    ensures !s.final ==> Resolved(hold, s, total) == hold
  {
  }

  // ---- Runs ----

  ghost function Run(b: Book, steps: seq<Step>): Book
    decreases |steps|
  {
    if steps == [] then b else Run(Apply(b, steps[0]), steps[1..])
  }

  ghost function Overruns(b: Book, steps: seq<Step>, account: Account, month: nat): int
    decreases |steps|
  {
    if steps == [] then 0
    else Overrun(b, steps[0], account, month) + Overruns(Apply(b, steps[0]), steps[1..], account, month)
  }

  /** Admissions for this account and month all carry the same budget. */
  predicate FixedBudget(step: Step, account: Account, month: nat, budget: int)
  {
    step.AdmitStep? && step.admission.request.account == account && step.admission.hold.month == month ==>
        step.admission.budget == budget
  }

  lemma StepBudget(b: Book, step: Step, account: Account, month: nat, budget: int, over: int)
    requires Valid(b) && budget > 0 && over >= 0 && FixedBudget(step, account, month, budget)
    requires Exposure(b, account, month) <= budget + over
    ensures Exposure(Apply(b, step), account, month) <= budget + over + Overrun(b, step, account, month)
  {
    hide Exposure, Delta, Valid;
    if step.AdmitStep? {
      if Admit(b, step.admission).Success? {
        AdmitExposure(b, step.admission, account, month);
      }
    } else {
      ExposureChange(b, step, account, month);
    }
  }

  /**
   Over any interleaving, charges plus open reservations of an account and month never exceed the
   budget by more than the uncovered parts of the charges posted so far.
   */
  lemma {:induction false} BudgetKept(b: Book, steps: seq<Step>, account: Account, month: nat, budget: int, over: int)
    requires Valid(b) && budget > 0 && over >= 0
    requires forall i :: 0 <= i < |steps| ==> FixedBudget(steps[i], account, month, budget)
    requires Exposure(b, account, month) <= budget + over
    ensures Exposure(Run(b, steps), account, month) <= budget + over + Overruns(b, steps, account, month)
    ensures Valid(Run(b, steps))
    decreases |steps|
  {
    hide Valid, Exposure, Apply, Delta, FixedBudget;
    if steps != [] {
      var o := Overrun(b, steps[0], account, month);
      StepBudget(b, steps[0], account, month, budget, over);
      StepValid(b, steps[0]);
      BudgetKept(Apply(b, steps[0]), steps[1..], account, month, budget, over + o);
    }
  }

  /** Every settlement of the run is covered when it happens. */
  ghost predicate AllCovered(b: Book, steps: seq<Step>, account: Account, month: nat)
    decreases |steps|
  {
    steps == [] ||
    (&& (steps[0].SettleStep? ==> Covered(b, steps[0].settlement, account, month))
     && AllCovered(Apply(b, steps[0]), steps[1..], account, month))
  }

  lemma {:induction false} CoveredNoOverrun(b: Book, steps: seq<Step>, account: Account, month: nat)
    requires Valid(b) && AllCovered(b, steps, account, month)
    ensures Overruns(b, steps, account, month) == 0
    decreases |steps|
  {
    hide Valid, Apply, Covered;
    if steps != [] {
      StepNoOverrun(b, steps[0], account, month);
      StepValid(b, steps[0]);
      CoveredNoOverrun(Apply(b, steps[0]), steps[1..], account, month);
    }
  }

  lemma StepNoOverrun(b: Book, step: Step, account: Account, month: nat)
    requires Valid(b) && (step.SettleStep? ==> Covered(b, step.settlement, account, month))
    ensures Overrun(b, step, account, month) == 0
  {
    hide Valid, Covered, HoldAdvances, Weight, Settle;
    if step.SettleStep? && Settle(b, step.settlement).Success? {
      OverrunExactly(b, step.settlement, account, month);
    } else if !step.AdmitStep? {
      StepShape(b, step);
      if Updated(b, step).Some? {
        WeightFalls(b.holds[Updated(b, step).value.id], Updated(b, step).value, account, month);
      }
    }
  }

  const EMPTY := Book(map[], map[], map[], map[])

  /** From an empty book, when no charge exceeds its reservation, the budget is never exceeded. */
  lemma BudgetNeverExceeded(steps: seq<Step>, account: Account, month: nat, budget: int)
    requires budget > 0 && (forall i :: 0 <= i < |steps| ==> FixedBudget(steps[i], account, month, budget))
    requires AllCovered(EMPTY, steps, account, month)
    ensures Exposure(Run(EMPTY, steps), account, month) <= budget
  {
    hide Run, AllCovered, FixedBudget;
    assert Exposure(EMPTY, account, month) == 0;
    BudgetKept(EMPTY, steps, account, month, budget, 0);
    CoveredNoOverrun(EMPTY, steps, account, month);
  }

  /** Settled and released holds never change again; no hold changes its reservation, account or period. */
  lemma {:induction false} HoldsAbsorbed(b: Book, steps: seq<Step>, id: string)
    requires Valid(b) && id in b.holds
    ensures id in Run(b, steps).holds && HoldAdvances(b.holds[id], Run(b, steps).holds[id])
    decreases |steps|
  {
    hide Valid, Apply, HoldAdvances;
    AdvancesSame(b.holds[id]);
    if steps != [] {
      var t := Apply(b, steps[0]);
      StepHolds(b, steps[0], id);
      StepValid(b, steps[0]);
      HoldsAbsorbed(t, steps[1..], id);
      AdvancesOn(b.holds[id], t.holds[id], Run(b, steps).holds[id]);
    }
  }

  lemma AdvancesSame(h: Hold)
    ensures HoldAdvances(h, h)
  {
  }

  lemma AdvancesOn(a: Hold, b: Hold, c: Hold)
    requires HoldAdvances(a, b) && HoldAdvances(b, c)
    ensures HoldAdvances(a, c)
  {
  }

  lemma StepHolds(b: Book, step: Step, id: string)
    requires Valid(b) && id in b.holds
    ensures id in Apply(b, step).holds && HoldAdvances(b.holds[id], Apply(b, step).holds[id])
  {
    hide Valid, HoldAdvances, Updated, NewCharge;
    AdvancesSame(b.holds[id]);
    if step.AdmitStep? {
      if Admit(b, step.admission).Success? {
        AdmitShape(b, step.admission);
      }
    } else {
      StepShape(b, step);
    }
  }

  // ---- Repeated requests ----

  ghost predicate OperationsUnique(operations: Operations)
  {
    forall o, p :: o in operations && p in operations && SameRequest(operations[o], operations[p]) ==> o == p
  }

  lemma StepOperations(b: Book, step: Step)
    requires Valid(b) && OperationsUnique(b.operations)
    ensures OperationsUnique(Apply(b, step).operations)
  {
    hide Valid, Exposure, Updated, NewCharge, HoldAdvances;
    if !step.AdmitStep? {
      StepShape(b, step);
    }
  }

  /** Over any run every idempotency scope owns at most one operation, so a repeat has one answer. */
  lemma {:induction false} RequestsUnique(b: Book, steps: seq<Step>)
    requires Valid(b) && OperationsUnique(b.operations)
    ensures OperationsUnique(Run(b, steps).operations)
    decreases |steps|
  {
    hide Valid, OperationsUnique, Apply;
    if steps != [] {
      StepOperations(b, steps[0]);
      StepValid(b, steps[0]);
      RequestsUnique(Apply(b, steps[0]), steps[1..]);
    }
  }

  // ---- Settled amounts ----

  /** Every settled hold carries exactly the usage cost posted for its operation. */
  ghost predicate Accounted(b: Book)
  {
    forall id :: id in b.holds && b.holds[id].status == Settled ==>
        b.holds[id].settled == TotalCost(b.ledger, b.holds[id].operationId)
  }

  /** A cost posted after its hold was settled, or a hold closed as unpriced although costs were posted before. */
  ghost predicate Unaccounted(b: Book, s: Settlement)
  {
    var h := HoldOf(b.holds, s.operationId);
    && h.Some?
    && (|| (h.value.status == Settled && PostsCost(s) && s.charge.value.amount > 0)
        || (Open(h.value) && s.final && s.unpriced && !PostsCost(s) && TotalCost(b.ledger, s.operationId) > 0))
  }

  lemma CostPosted(ledger: Ledger, charge: Charge, operationId: string)
    requires charge.id !in ledger
    ensures TotalCost(ledger[charge.id := charge], operationId) ==
              TotalCost(ledger, operationId) + Cost(charge, operationId)
  {
    hide Cost;
    SumInsert(Costs(ledger, operationId), charge.id, Cost(charge, operationId));
    assert Costs(ledger[charge.id := charge], operationId) ==
        Costs(ledger, operationId)[charge.id := Cost(charge, operationId)];
  }

  lemma ResolvedStatus(hold: Hold, s: Settlement, total: int)
    requires total >= 0
    ensures var r := Resolved(hold, s, total);
            && (r.status == Settled <==>
                  hold.status == Settled || (Open(hold) && s.final && (PostsCost(s) || s.unpriced)))
            && (hold.status == Settled ==> r == hold)
            && (r.status == Settled && Open(hold) ==> r.settled == if PostsCost(s) then total else 0)
  {
  }

  lemma PostedCost(b: Book, s: Settlement, operationId: string)
    requires Settle(b, s).Success?
    ensures TotalCost(Settle(b, s).value.ledger, operationId) ==
            TotalCost(b.ledger, operationId) + (if PostsCost(s) && operationId == s.operationId
                then s.charge.value.amount else 0)
  {
    hide TotalCost, Overflows, Resolved, SettledTotal;
    if s.charge.Some? {
      CostPosted(b.ledger, s.charge.value, operationId);
    }
  }

  /**
   A settlement keeps the settled amounts right exactly when it is neither late nor a zero close over posted
   costs.
   */
  lemma SettledExactly(b: Book, s: Settlement)
    requires Valid(b) && Accounted(b) && Settle(b, s).Success?
    ensures Accounted(Settle(b, s).value) <==> !Unaccounted(b, s)
  {
    hide TotalCost, Overflows, Resolved;
    var t := Settle(b, s).value;
    HoldOfKnown(b, s.operationId);
    TotalCostNonNegative(b, s.operationId);
    forall o ensures TotalCost(t.ledger, o) ==
        TotalCost(b.ledger, o) + (if PostsCost(s) && o == s.operationId then s.charge.value.amount else 0) {
      PostedCost(b, s, o);
    }
    var h := HoldOf(b.holds, s.operationId);
    if h.Some? {
      ResolvedStatus(h.value, s, SettledTotal(b, s));
      ResolvedAdvances(h.value, s, SettledTotal(b, s));
      assert t.holds[h.value.id] == Resolved(h.value, s, SettledTotal(b, s));
    }
  }

  const ACCOUNT := Account("app", "key")
  const ASKED := Request(ACCOUNT, "s", "i", "user", "p", "", "generate", "key")
  const FIRST := Hold("h", "o", ACCOUNT, Reserved, 1, 10, 0, 0, "", 1, None, None)

  /** One operation is admitted, settled by its final charge, and charged once more. */
  const LATE_RUN := [
    AdmitStep(Admission("o", ASKED, FIRST, 100)),
    SettleStep(Settlement("r1", "", "o", true, true, false, false, Some(Charge("c1", "o", USAGE_COST, 5, 0)), 2)),
    SettleStep(Settlement("r2", "", "o", true, true, false, false, Some(Charge("c2", "o", USAGE_COST, 3, 0)), 3))]

  /** A charge after the settlement leaves the settled amount behind, in a run from the empty book. */
  lemma LateChargeUnaccounted()
    ensures !Accounted(Run(EMPTY, LATE_RUN))
  {
    hide Accounted, Resolved;
    assert LATE_RUN[1..] == [LATE_RUN[1], LATE_RUN[2]] && LATE_RUN[1..][1..] == [LATE_RUN[2]] &&
        LATE_RUN[1..][1..][1..] == [];
    var b := Apply(EMPTY, LATE_RUN[0]);
    LateAdmitted(b);
    var c := Apply(b, LATE_RUN[1]);
    LateSettled(b, c);
    var s := LATE_RUN[2].settlement;
    assert !Open(c.holds["h"]);
    SettledExactly(c, s);
    assert Run(c, [LATE_RUN[2]]) == Run(Apply(c, LATE_RUN[2]), []);
    assert Run(b, LATE_RUN[1..]) == Run(c, [LATE_RUN[2]]);
    assert Run(EMPTY, LATE_RUN) == Run(b, LATE_RUN[1..]);
  }

  lemma LateAdmitted(b: Book)
    requires b == Apply(EMPTY, LATE_RUN[0])
    ensures Valid(b) && Accounted(b) && b == Book(map["o" := ASKED], map["h" := FIRST], map[], map[])
  {
    hide Exposure;
    NoExposure();
    StepValid(EMPTY, LATE_RUN[0]);
  }

  lemma NoExposure()
    ensures Exposure(EMPTY, ACCOUNT, 0) == 0
  {
    assert Values(EMPTY.ledger, EMPTY.operations, ACCOUNT, 0) == map[];
    assert Weights(EMPTY.holds, ACCOUNT, 0) == map[];
  }

  lemma LateSettled(b: Book, c: Book)
    requires Valid(b) && Accounted(b) && b == Book(map["o" := ASKED], map["h" := FIRST], map[], map[])
    requires c == Apply(b, LATE_RUN[1])
    ensures Valid(c) && Accounted(c) && "o" in c.operations && c.ledger.Keys == {"c1"} && c.records.Keys == {"r1"}
    ensures HoldOf(c.holds, "o").Some? && HoldOf(c.holds, "o").value == c.holds["h"] && c.holds["h"].status == Settled
    ensures "h" in c.holds
  {
    hide Accounted, Resolved;
    var s := LATE_RUN[1].settlement;
    assert b.holds["h"].operationId == "o";
    HoldOfKnown(b, "o");
    assert Costs(b.ledger, "o") == map[];
    assert Settle(b, s).Success?;
    ResolvedStatus(FIRST, s, SettledTotal(b, s));
    ResolvedAdvances(FIRST, s, SettledTotal(b, s));
    SettledExactly(b, s);
    StepValid(b, LATE_RUN[1]);
    assert c.holds["h"] == Resolved(FIRST, s, SettledTotal(b, s));
    assert c.holds["h"].operationId == "o";
    HoldOfKnown(c, "o");
  }

  /** A direct move that settles a hold at an amount other than its operation's posted cost. */
  ghost predicate Misstated(b: Book, step: Step)
    requires step.MoveStep?
  {
    && step.to == Settled
    && var r := Transition(b, step.operationId, step.version, step.to, step.amount, step.reason, step.at);
       r.Success? && r.value.Some? && step.amount != TotalCost(b.ledger, step.operationId)
  }

  /** A direct move keeps the settled amounts right exactly when it does not misstate one. */
  lemma MovedExactly(b: Book, step: Step)
    requires Valid(b) && Accounted(b) && step.MoveStep?
    ensures Accounted(Apply(b, step)) <==> !Misstated(b, step)
  {
    hide TotalCost;
    HoldOfKnown(b, step.operationId);
    var h := HoldOf(b.holds, step.operationId);
    if h.Some? {
      PreparedAdvances(h.value, step.to, step.amount, step.reason, step.at);
      assert Misstated(b, step) ==> Apply(b, step).holds[h.value.id].status == Settled;
    }
  }

  /** No step of the run leaves a settled amount behind. */
  ghost predicate AllAccounted(b: Book, steps: seq<Step>)
    decreases |steps|
  {
    steps == [] ||
    (&& (steps[0].SettleStep? ==> !(Settle(b, steps[0].settlement).Success? && Unaccounted(b, steps[0].settlement)))
     && (steps[0].MoveStep? ==> !Misstated(b, steps[0]))
     && AllAccounted(Apply(b, steps[0]), steps[1..]))
  }

  /** One step keeps the settled amounts right exactly when it is none of the two kinds that do not. */
  lemma StepAccounted(b: Book, step: Step)
    requires Valid(b) && Accounted(b)
    ensures Accounted(Apply(b, step)) <==>
              && (step.SettleStep? ==> !(Settle(b, step.settlement).Success? && Unaccounted(b, step.settlement)))
              && (step.MoveStep? ==> !Misstated(b, step))
  {
    hide TotalCost, Settle, Unaccounted, Exposure, Misstated;
    match step
    case SettleStep(s) =>
      if Settle(b, s).Success? {
        SettledExactly(b, s);
      }
    case AdmitStep(a) =>
    case MoveStep(operationId, version, to, amount, reason, at) => MovedExactly(b, step);
    case ReleaseStep(operationId, reason, at) => HoldOfKnown(b, operationId);
  }

  ghost predicate AlwaysAccounted(b: Book, steps: seq<Step>)
    decreases |steps|
  {
    Accounted(b) && (steps == [] || AlwaysAccounted(Apply(b, steps[0]), steps[1..]))
  }

  /**
   Over any run, every settled hold carries its operation's posted cost at all times exactly when
   no step is late, closes posted costs as unpriced, or misstates an amount.
   */
  lemma {:induction false} SettledMatchesLedger(b: Book, steps: seq<Step>)
    requires Valid(b) && Accounted(b)
    ensures AlwaysAccounted(b, steps) <==> AllAccounted(b, steps)
    ensures AllAccounted(b, steps) ==> Accounted(Run(b, steps))
    decreases |steps|
  {
    hide Valid, Accounted, Apply, Unaccounted, Misstated, Settle;
    if steps != [] {
      StepAccounted(b, steps[0]);
      StepValid(b, steps[0]);
      if Accounted(Apply(b, steps[0])) {
        SettledMatchesLedger(Apply(b, steps[0]), steps[1..]);
      }
    }
  }
}
