/**
 * The gateway's money path (src/ab_gateway/tools.py, src/ab_gateway/llm_budget.py) over the
 * relational ledger and the business factory: metered model calls, gated payments, provisioning.
 */
module Gateway {
  import opened Common
  import opened Ledger
  import opened LedgerStore
  import opened Factory

  datatype BusinessRow = BusinessRow(blueprint: Blueprint, capital: int, status: Status)

  /** The Finance event of one posting. */
  datatype LedgerEntryPosted = LedgerEntryPosted(txnId: string, key: string, amount: int, currency: string,
                                                 payee: string, maker: string, checker: Option<string>,
                                                 businessId: Option<string>)

  /** `invoked` counts the model calls made; `lost` is history: events of payments booked but never published. */
  datatype GatewayState = GatewayState(db: Db, businesses: map<string, BusinessRow>, events: seq<LedgerEntryPosted>,
                                       lost: seq<LedgerEntryPosted>, invoked: nat)

  datatype PaymentTransfer = PaymentTransfer(key: string, amount: int, payee: string, fromAccount: string,
                                             checker: Option<string>, currency: string, memo: string,
                                             businessId: Option<string>)

  /** What authorization, the kill switch and the compliance register say when asked. */
  datatype Checks = Checks(serves: bool, signals: Signals)

  datatype Denied =
    | InvalidArgs
    | NotServing
    | UnknownBusiness
    | NotReady(reasons: seq<Reason>)
    | CannotSpend(refusal: Refusal)
    | LlmBudgetExceeded(spent: int, cost: int, budget: int)
    | NegativeSpend(projected: int)
    | ModelFailed
    | Refused(error: StoreError)
    | PublishFailed
    | BelowExperimentBudget
    | AlreadyProvisioned

  /**
   * Ids and the metering key come from a UUID generator; the outcome of the model call is its own, and
   * so is that of the bus: `published` is false if the publish fails or its caller dies before it.
   */
  datatype Op =
    | Complete(principal: string, business: string, taskProfile: string, cost: int, modelFails: bool,
               txnId: string, key: string)
    | Transfer(principal: string, payment: PaymentTransfer, checks: Checks, txnId: string, published: bool)
    | Provision(blueprint: Blueprint, capital: int, signals: Signals, txnId: string)

  /** PAYMENT_CAP_MINOR and APPROVED_PAYEES. */
  datatype Rules = Rules(cap: int, approved: set<string>)

  const TREASURY := "portfolio:treasury"

  function LlmAccount(business: string): string { business + ":llm_spend" }

  function CashAccount(business: string): string { business + ":cash" }

  function Llm(s: GatewayState, business: string): int { AccountBalance(s.db, LlmAccount(business)) }

  function Cash(s: GatewayState, business: string): int { AccountBalance(s.db, CashAccount(business)) }

  // ---------------------------------------------------------------- a model call

  /** The probe refuses a negative projection before the budget is compared. */
  function GateLlmSpend(cost: int, spent: int, budget: int): Option<Denied> {
    if spent + cost < 0 then Some(NegativeSpend(spent + cost))
    else if spent + cost > budget then Some(LlmBudgetExceeded(spent, cost, budget))
    else None
  }

  function Metering(principal: string, business: string, taskProfile: string, cost: int, txnId: string,
                    key: string): Transaction {
    Transaction(txnId, key, [Posting(LlmAccount(business), cost), Posting(CashAccount(business), 0 - cost)], principal,
                None, "EUR", "llm:" + taskProfile, None, Some(business))
  }

  function Completed(rules: Rules, s: GatewayState, op: Op): (GatewayState, Result<(), Denied>)
    requires op.Complete?
  {
    if op.business !in s.businesses then (s, Err(UnknownBusiness))
    else
      var gate := GateLlmSpend(op.cost, Llm(s, op.business), s.businesses[op.business].blueprint.llmBudget);
      var called := s.(invoked := s.invoked + 1);
      if gate.Some? then (s, Err(gate.value))
      else if op.modelFails then (called, Err(ModelFailed))
      else if op.cost <= 0 then (called, Ok(()))
      else
        var txn := Metering(op.principal, op.business, op.taskProfile, op.cost, op.txnId, op.key);
        var (db, r) := DbPosted(s.db, Call(txn, rules.cap), rules.approved);
        (called.(db := db), if r.Err? then Err(Refused(r.error)) else Ok(()))
  }

  // ---------------------------------------------------------------- a payment

  /** Tenant and readiness gate, then runway: the refusal, if any. */
  function GateSpend(s: GatewayState, business: string, amount: int, checks: Checks): Option<Denied> {
    if !checks.serves then Some(NotServing)
    else if business !in s.businesses then Some(UnknownBusiness)
    else
      var row, cash := s.businesses[business], Cash(s, business);
      var reasons := Unready(row.blueprint, cash, checks.signals);
      if reasons != [] then Some(NotReady(reasons))
      else
        var refusal := CanSpend(row.status, amount, cash);
        if refusal.Some? then Some(CannotSpend(refusal.value)) else None
  }

  /** Where the money comes from: a business-scoped payment spends the business's own cash. */
  function SourceOf(p: PaymentTransfer): string {
    if p.businessId.Some? then CashAccount(p.businessId.value) else p.fromAccount
  }

  function PayeeAccount(p: PaymentTransfer): string {
    EXTERNAL_ACCOUNT_PREFIX + p.payee
  }

  function PaymentOf(principal: string, p: PaymentTransfer, txnId: string): Transaction {
    Transaction(txnId, p.key, [Posting(PayeeAccount(p), p.amount), Posting(SourceOf(p), 0 - p.amount)],
                principal, p.checker, p.currency, p.memo, Some(p.payee), p.businessId)
  }

  function EventOf(txn: Transaction, payee: string): LedgerEntryPosted {
    LedgerEntryPosted(txn.txnId, txn.key, Magnitude(txn), txn.currency, payee, txn.maker, txn.checker, txn.businessId)
  }

  function Transferred(rules: Rules, s: GatewayState, op: Op): (GatewayState, Result<(), Denied>)
    requires op.Transfer?
  {
    var p := op.payment;
    if p.amount <= 0 then (s, Err(InvalidArgs))
    else
      var gate := if p.businessId.Some? then GateSpend(s, p.businessId.value, p.amount, op.checks) else None;
      if gate.Some? then (s, Err(gate.value))
      else
        var txn := PaymentOf(op.principal, p, op.txnId);
        var (db, r) := DbPosted(s.db, Call(txn, rules.cap), rules.approved);
        if r.Err? then (s.(db := db), Err(Refused(r.error)))
        else if r.value && op.published then (s.(db := db, events := s.events + [EventOf(txn, p.payee)]), Ok(()))
        else if r.value then (s.(db := db, lost := s.lost + [EventOf(txn, p.payee)]), Err(PublishFailed))
        else (s.(db := db), Ok(()))
  }

  // ---------------------------------------------------------------- provisioning

  const ALLOCATOR := "executive.portfolio_agent"
  const CONTROLLER := "treasury.control_agent"

  function Funding(blueprint: Blueprint, capital: int, txnId: string): Transaction {
    Transaction(txnId, "capital-" + blueprint.businessId,
                [Posting(CashAccount(blueprint.businessId), capital), Posting(TREASURY, 0 - capital)],
                ALLOCATOR, Some(CONTROLLER), "EUR", "initial capital for " + blueprint.businessId, None, None)
  }

  function Provisioned(rules: Rules, s: GatewayState, op: Op): (GatewayState, Result<(), Denied>)
    requires op.Provision?
  {
    var b := op.blueprint.businessId;
    if op.capital < op.blueprint.experimentBudget then (s, Err(BelowExperimentBudget))
    else if b in s.businesses then (s, Err(AlreadyProvisioned))
    else
      var drafted := s.(businesses := s.businesses[b := BusinessRow(op.blueprint, op.capital, Draft)]);
      var (db, r) := DbPosted(s.db, Call(Funding(op.blueprint, op.capital, op.txnId), rules.cap), rules.approved);
      var funded := drafted.(db := db);
      if r.Err? then (funded, Err(Refused(r.error)))
      else
        var status := AfterGate(Draft, Unready(op.blueprint, Cash(funded, b), op.signals) == []);
        (funded.(businesses := s.businesses[b := BusinessRow(op.blueprint, op.capital, status)]), Ok(()))
  }

  function Step(rules: Rules, s: GatewayState, op: Op): (GatewayState, Result<(), Denied>) {
    match op
    case Complete(_, _, _, _, _, _, _) => Completed(rules, s, op)
    case Transfer(_, _, _, _, _) => Transferred(rules, s, op)
    case Provision(_, _, _, _) => Provisioned(rules, s, op)
  }

  /** UUIDs do not repeat, and a blueprint's experiment budget is validated to be positive. */
  predicate Fresh(s: GatewayState, op: Op) {
    && !HasId(s.db.headers, op.txnId)
    && (op.Complete? ==> !HasKey(s.db.headers, op.key))
    && (op.Provision? ==> op.blueprint.experimentBudget >= 1)
  }

  const INIT := GatewayState(EMPTY_DB, map[], [], [], 0)

  ghost predicate Behaviour(rules: Rules, ops: seq<Op>, trace: seq<GatewayState>) {
    && |trace| == |ops| + 1 && trace[0] == INIT
    && forall i {:trigger ops[i]} :: 0 <= i < |ops| ==>
         Fresh(trace[i], ops[i]) && trace[i + 1] == Step(rules, trace[i], ops[i]).0
  }

  // ---------------------------------------------------------------- the handlers

  class Tools {
    const rules: Rules
    const ledger: Store
    var businesses: map<string, BusinessRow>
    var events: seq<LedgerEntryPosted>
    ghost var lost: seq<LedgerEntryPosted>
    var invoked: nat

    ghost function Now(): GatewayState
      reads this, ledger
    {
      GatewayState(ledger.Now(), businesses, events, lost, invoked)
    }

    constructor (rules: Rules)
      ensures Now() == INIT && this.rules == rules && ledger.approved == rules.approved && fresh(ledger)
    {
      this.rules := rules;
      ledger := new Store(rules.approved);
      businesses, events, lost, invoked := map[], [], [], 0;
    }

    method Balance(account: string) returns (balance: int)
      ensures balance == AccountBalance(ledger.Now(), account)
    {
      balance := AccountBalance(Db(ledger.headers, ledger.rows), account);
    }

    method CompleteForBusiness(principal: string, business: string, taskProfile: string, cost: int, modelFails: bool,
                               txnId: string, key: string) returns (r: Result<(), Denied>)
      requires ledger.approved == rules.approved
      modifies this, ledger
      ensures var op := Complete(principal, business, taskProfile, cost, modelFails, txnId, key);
        (Now(), r) == Completed(rules, old(Now()), op)
    {
      if business !in businesses {
        return Err(UnknownBusiness);
      }
      var spent := Balance(LlmAccount(business));
      var gate := GateLlmSpend(cost, spent, businesses[business].blueprint.llmBudget);
      if gate.Some? {
        return Err(gate.value);
      }
      invoked := invoked + 1;
      if modelFails {
        return Err(ModelFailed);
      }
      if cost > 0 {
        var posted := ledger.Post(Metering(principal, business, taskProfile, cost, txnId, key), rules.cap);
        if posted.Err? {
          return Err(Refused(posted.error));
        }
      }
      return Ok(());
    }

    method GateBusinessSpend(business: string, amount: int, checks: Checks) returns (gate: Option<Denied>)
      ensures gate == GateSpend(Now(), business, amount, checks)
    {
      if !checks.serves {
        return Some(NotServing);
      }
      if business !in businesses {
        return Some(UnknownBusiness);
      }
      var row := businesses[business];
      var cash := Balance(CashAccount(business));
      var reasons := Readiness(row.blueprint, cash, checks.signals);
      if reasons != [] {
        return Some(NotReady(reasons));
      }
      var refusal := CanSpend(row.status, amount, cash);
      return if refusal.Some? then Some(CannotSpend(refusal.value)) else None;
    }

    method TransferPayment(principal: string, p: PaymentTransfer, checks: Checks, txnId: string, published: bool)
      returns (r: Result<(), Denied>)
      requires ledger.approved == rules.approved
      modifies this, ledger
      ensures (Now(), r) == Transferred(rules, old(Now()), Transfer(principal, p, checks, txnId, published))
    {
      if p.amount <= 0 {
        return Err(InvalidArgs);
      }
      if p.businessId.Some? {
        var gate := GateBusinessSpend(p.businessId.value, p.amount, checks);
        if gate.Some? {
          return Err(gate.value);
        }
      }
      var txn := PaymentOf(principal, p, txnId);
      var posted := ledger.Post(txn, rules.cap);
      if posted.Err? {
        return Err(Refused(posted.error));
      }
      if posted.value {
        if !published {
          lost := lost + [EventOf(txn, p.payee)];
          return Err(PublishFailed);
        }
        events := events + [EventOf(txn, p.payee)];
      }
      return Ok(());
    }
  }
}
