/** What each operation of the money path does: a model call, a payment, provisioning. */
module GatewayTheorems {
  import opened Common
  import opened Ledger
  import opened LedgerStore
  import opened Factory
  import opened Gateway

  // ---------------------------------------------------------------- accounts

  /**
   * The business's own accounts are not read as a payee's: its id is neither `external` nor starts with
   * `external:`.
   */
  predicate Tenant(business: string) {
    !(EXTERNAL_ACCOUNT_PREFIX <= business + ":")
  }

  lemma FirstColon(business: string, rest: string)
    requires rest != "" && rest[0] == ':' && EXTERNAL_ACCOUNT_PREFIX <= business + rest
    ensures EXTERNAL_ACCOUNT_PREFIX <= business + ":"
  {
    var n, t := |EXTERNAL_ACCOUNT_PREFIX|, business + rest;
    assert forall k :: 0 <= k < n ==> EXTERNAL_ACCOUNT_PREFIX[k] == t[k];
    assert forall k :: 0 <= k < n - 1 ==> EXTERNAL_ACCOUNT_PREFIX[k] != ':';
    assert |business| < n ==> t[|business|] == ':';
    assert forall k :: 0 <= k < n ==> (business + ":")[k] == t[k];
  }

  lemma TenantAccounts(business: string)
    requires Tenant(business)
    ensures !(EXTERNAL_ACCOUNT_PREFIX <= LlmAccount(business))
    ensures !(EXTERNAL_ACCOUNT_PREFIX <= CashAccount(business))
  {
    assert ":llm_spend"[0] == ':' && ":cash"[0] == ':';
    if EXTERNAL_ACCOUNT_PREFIX <= LlmAccount(business) { FirstColon(business, ":llm_spend"); }
    if EXTERNAL_ACCOUNT_PREFIX <= CashAccount(business) { FirstColon(business, ":cash"); }
  }

  lemma AccountsDiffer(b: string, c: string)
    ensures LlmAccount(b) != CashAccount(c)
    ensures b != c ==> LlmAccount(b) != LlmAccount(c) && CashAccount(b) != CashAccount(c)
    ensures CashAccount(b) != TREASURY && LlmAccount(b) != TREASURY
  {
    var l, k := LlmAccount(b), CashAccount(c);
    assert l[|l| - 1] == 'd' && k[|k| - 1] == 'h' && TREASURY[|TREASURY| - 1] == 'y';
    assert CashAccount(b)[|CashAccount(b)| - 1] == 'h';
    if LlmAccount(b) == LlmAccount(c) {
      assert b == LlmAccount(b)[..|LlmAccount(b)| - 10] == LlmAccount(c)[..|LlmAccount(c)| - 10] == c;
    }
    if CashAccount(b) == CashAccount(c) {
      assert b == CashAccount(b)[..|CashAccount(b)| - 5] == CashAccount(c)[..|CashAccount(c)| - 5] == c;
    }
  }

  // ---------------------------------------------------------------- what a posting does

  lemma PostedBalance(db: Db, call: Call, approved: set<string>, account: string)
    ensures var (after, r) := DbPosted(db, call, approved);
      && AccountBalance(after, account)
         == AccountBalance(db, account) + (if r == Ok(true) then SumOf(call.txn.postings, At(account)) else 0)
      && (SumOf(db.rows, ROW_AMOUNT) == 0 ==> SumOf(after.rows, ROW_AMOUNT) == 0)
      && (r != Ok(true) ==> after == db)
  {
    var (after, r) := DbPosted(db, call, approved);
    if r == Ok(true) {
      var rows := RowsOf(call.txn);
      SumOfConcat(db.rows, rows, RowAt(account));
      SumOfConcat(db.rows, rows, ROW_AMOUNT);
      SumAligned(rows, call.txn.postings, RowAt(account), At(account));
      SumAligned(rows, call.txn.postings, ROW_AMOUNT, AMOUNT);
    }
  }

  lemma TwoPostings(p: Posting, q: Posting, f: Posting -> int)
    ensures SumOf([p, q], f) == f(p) + f(q)
  {
    assert [p, q] == [p] + [q] && [p] == [] + [p];
    SumOfSnoc([p], q, f);
    SumOfSnoc([], p, f);
  }

  // ---------------------------------------------------------------- one model call

  /** A metering posting pays no outsider. */
  lemma MeteringIs(principal: string, business: string, taskProfile: string, cost: int, txnId: string, key: string)
    requires Tenant(business) && cost > 0
    ensures var txn := Metering(principal, business, taskProfile, cost, txnId, key);
      && SumOf(txn.postings, AMOUNT) == 0 && Magnitude(txn) == cost && Payees(txn) == {}
      && SumOf(txn.postings, At(LlmAccount(business))) == cost
      && SumOf(txn.postings, At(CashAccount(business))) == 0 - cost
  {
    var txn := Metering(principal, business, taskProfile, cost, txnId, key);
    var p, q := txn.postings[0], txn.postings[1];
    TwoPostings(p, q, AMOUNT);
    TwoPostings(p, q, DEBIT);
    TwoPostings(p, q, At(LlmAccount(business)));
    TwoPostings(p, q, At(CashAccount(business)));
    AccountsDiffer(business, business);
    TenantAccounts(business);
    forall x | x in txn.postings ensures !Outbound(x) {}
    assert Payees(txn) == {};
  }

  /** The model runs: the business exists and the projected spend lies between zero and its budget. */
  predicate Admitted(s: GatewayState, op: Op)
    requires op.Complete?
  {
    && op.business in s.businesses
    && 0 <= Llm(s, op.business) + op.cost <= s.businesses[op.business].blueprint.llmBudget
  }

  function OverTheCap(cost: int, cap: int): Denied {
    Refused(Rule(ApprovalRequired(OverCap(cost, cap))))
  }

  /** Why a model call that does not return is refused. */
  function CallRefusal(rules: Rules, s: GatewayState, op: Op): Denied
    requires op.Complete?
  {
    if op.business !in s.businesses then UnknownBusiness
    else
      var spent, budget := Llm(s, op.business), s.businesses[op.business].blueprint.llmBudget;
      if spent + op.cost < 0 then NegativeSpend(spent + op.cost)
      else if spent + op.cost > budget then LlmBudgetExceeded(spent, op.cost, budget)
      else if op.modelFails then ModelFailed
      else OverTheCap(op.cost, rules.cap)
  }

  /**
   * The whole outcome of a model call. It is made iff the gate admits it; it returns iff the model
   * does not fail and the cost needs no approval; only a returned call with a positive cost is
   * metered. A cost above the ledger's cap is refused after the model has run.
   */
  lemma CompleteExactly(rules: Rules, s: GatewayState, op: Op)
    requires op.Complete? && Tenant(op.business) && Fresh(s, op)
    ensures var (t, r) := Step(rules, s, op);
      && t.invoked == s.invoked + (if Admitted(s, op) then 1 else 0)
      && (r.Ok? <==> Admitted(s, op) && !op.modelFails && (op.cost <= 0 || op.cost <= rules.cap))
      && (r.Err? ==> r.error == CallRefusal(rules, s, op))
      && Llm(t, op.business) == Llm(s, op.business) + (if r.Ok? && op.cost > 0 then op.cost else 0)
      && Cash(t, op.business) == Cash(s, op.business) - (if r.Ok? && op.cost > 0 then op.cost else 0)
      && t.events == s.events && t.lost == s.lost && t.businesses == s.businesses
  {
    if Admitted(s, op) && !op.modelFails && op.cost > 0 {
      var txn := Metering(op.principal, op.business, op.taskProfile, op.cost, op.txnId, op.key);
      MeteringIs(op.principal, op.business, op.taskProfile, op.cost, op.txnId, op.key);
      PostedBalance(s.db, Call(txn, rules.cap), rules.approved, LlmAccount(op.business));
      PostedBalance(s.db, Call(txn, rules.cap), rules.approved, CashAccount(op.business));
    }
  }

  /** What a model call leaves on record: its metering if it returned with a positive cost, else nothing. */
  lemma CallOnRecord(rules: Rules, s: GatewayState, op: Op)
    requires op.Complete? && Tenant(op.business) && Fresh(s, op)
    ensures var (t, r) := Step(rules, s, op);
      var id, b := op.txnId, op.business;
      if r.Ok? && op.cost > 0 then
        && t.db.headers == s.db.headers + [Header(id, op.key, op.principal, None, op.cost, "EUR",
                                                  "llm:" + op.taskProfile, Some(b))]
        && t.db.rows == s.db.rows + [EntryRow(id, b + ":llm_spend", op.cost, "EUR"),
                                     EntryRow(id, b + ":cash", 0 - op.cost, "EUR")]
      else t.db == s.db
  {
    if op.cost > 0 {
      MeteringIs(op.principal, op.business, op.taskProfile, op.cost, op.txnId, op.key);
    }
  }

  // ---------------------------------------------------------------- one payment

  /** Everything a business-scoped payment needs: the tenant, a live launch-ready business, and the runway. */
  predicate Payable(s: GatewayState, business: string, amount: int, checks: Checks) {
    && checks.serves
    && business in s.businesses
    && s.businesses[business].status == Active
    && checks.signals.killSwitchClear && checks.signals.complianceClear
    && s.businesses[business].blueprint.experimentBudget <= Cash(s, business)
    && 0 < amount <= Cash(s, business)
  }

  /** What keeps a business from being launch-ready. */
  ghost predicate Blocks(s: GatewayState, business: string, signals: Signals, reason: Factory.Reason)
    requires business in s.businesses
  {
    var budget := s.businesses[business].blueprint.experimentBudget;
    match reason
    case BelowBudget(cash, floor) => cash == Cash(s, business) < budget == floor
    case KillSwitchActive => !signals.killSwitchClear
    case ComplianceNotClear => !signals.complianceClear
  }

  /** The gate opens iff the business may pay; else its answer is the first thing that is missing. */
  lemma GateIsPayable(s: GatewayState, business: string, amount: int, checks: Checks)
    ensures GateSpend(s, business, amount, checks) == None <==> Payable(s, business, amount, checks)
    ensures var gate := GateSpend(s, business, amount, checks);
      && (gate == Some(NotServing) <==> !checks.serves)
      && (gate == Some(UnknownBusiness) <==> checks.serves && business !in s.businesses)
      && (gate.Some? && gate.value.NotReady? ==>
            && gate.value.reasons != []
            && business in s.businesses
            && forall reason :: reason in gate.value.reasons <==> Blocks(s, business, checks.signals, reason))
      && (gate.Some? && gate.value.CannotSpend? ==>
            && business in s.businesses
            && (forall reason :: !Blocks(s, business, checks.signals, reason))
            && gate.value.refusal == if s.businesses[business].status != Active then
                                       NotActive(s.businesses[business].status)
                                     else if amount <= 0 then AmountNotPositive
                                     else InsufficientRunway(amount, Cash(s, business)))
      && (gate.Some? ==> gate.value.NotServing? || gate.value.UnknownBusiness? || gate.value.NotReady?
                         || gate.value.CannotSpend?)
  {
    if business in s.businesses {
      var blueprint, cash := s.businesses[business].blueprint, Cash(s, business);
      var reasons := Unready(blueprint, cash, checks.signals);
      UnreadyAre(blueprint, cash, checks.signals);
      assert reasons == [] || reasons[0] in reasons;
    }
  }

  lemma PostedIff(db: Db, call: Call, approved: set<string>)
    ensures var txn := call.txn;
      DbPosted(db, call, approved).0 != db <==>
        Ledger.Valid(txn, call.cap, approved) && !HasKey(db.headers, txn.key) && !HasId(db.headers, txn.txnId)
  {}

  /** What a payment moves out of an account: into it if it is the payee's, out of it if it is the source. */
  function Moved(p: PaymentTransfer, account: string): int {
    (if account == PayeeAccount(p) then p.amount else 0) - (if account == SourceOf(p) then p.amount else 0)
  }

  /** The payment is well-formed and allowed: by the business it is scoped to, if any, and by the ledger's rules. */
  ghost predicate Allowed(rules: Rules, s: GatewayState, op: Op)
    requires op.Transfer?
  {
    && op.payment.amount > 0
    && (op.payment.businessId.Some? ==> Payable(s, op.payment.businessId.value, op.payment.amount, op.checks))
    && Valid(PaymentOf(op.principal, op.payment, op.txnId), rules.cap, rules.approved)
  }

  /**
   * A payment is booked iff it is allowed and its key and id are new. Booked, it moves the amount from
   * its source to the payee's account and touches no other account. It is answered ok iff it is
   * allowed and, unless it replays a known key, its id is new and its event was published.
   */
  lemma TransferExactly(rules: Rules, s: GatewayState, op: Op, account: string)
    requires op.Transfer?
    ensures var (t, r) := Step(rules, s, op);
      var p, known := op.payment, HasKey(s.db.headers, op.payment.key);
      && (t.db != s.db <==> Allowed(rules, s, op) && !known && !HasId(s.db.headers, op.txnId))
      && AccountBalance(t.db, account)
         == AccountBalance(s.db, account) + (if t.db != s.db then Moved(p, account) else 0)
      && t.businesses == s.businesses && t.invoked == s.invoked
      && (r.Ok? <==> Allowed(rules, s, op) && (known || (!HasId(s.db.headers, op.txnId) && op.published)))
      && (r == Err(PublishFailed) <==> t.db != s.db && !op.published)
  {
    var p, txn := op.payment, PaymentOf(op.principal, op.payment, op.txnId);
    TwoPostings(txn.postings[0], txn.postings[1], At(account));
    PostedBalance(s.db, Call(txn, rules.cap), rules.approved, account);
    if p.businessId.Some? {
      GateIsPayable(s, p.businessId.value, p.amount, op.checks);
    }
    PostedIff(s.db, Call(txn, rules.cap), rules.approved);
  }

  /** Why a payment that was not allowed, or whose id is used, is refused: what the gate or the ledger says. */
  lemma TransferRefused(rules: Rules, s: GatewayState, op: Op)
    requires op.Transfer?
    ensures var r, p, txn := Step(rules, s, op).1, op.payment, PaymentOf(op.principal, op.payment, op.txnId);
      var scoped := p.businessId.Some?;
      && (r == Err(InvalidArgs) <==> p.amount <= 0)
      && (p.amount > 0 && scoped && !Payable(s, p.businessId.value, p.amount, op.checks) ==>
            Some(r.error) == GateSpend(s, p.businessId.value, p.amount, op.checks))
      && (r.Err? && r.error.Refused? <==>
            && p.amount > 0 && (scoped ==> Payable(s, p.businessId.value, p.amount, op.checks))
            && (!Valid(txn, rules.cap, rules.approved)
                || (!HasKey(s.db.headers, p.key) && HasId(s.db.headers, op.txnId))))
      && (r.Err? && r.error.Refused? ==>
            r.error.error == if Valid(txn, rules.cap, rules.approved) then DuplicateTxnId(op.txnId)
                             else Rule(Validate(txn, rules.cap, rules.approved).value))
  {
    if op.payment.businessId.Some? {
      GateIsPayable(s, op.payment.businessId.value, op.payment.amount, op.checks);
    }
  }

  /**
   * What a booked payment leaves on record: its header, and its event, published or lost, with the
   * amount that moved and the principals, payee and business of the request.
   */
  lemma PaymentOnRecord(rules: Rules, s: GatewayState, op: Op)
    requires op.Transfer? && Step(rules, s, op).0.db != s.db
    ensures var t, p := Step(rules, s, op).0, op.payment;
      var event := LedgerEntryPosted(op.txnId, p.key, p.amount, p.currency, p.payee, op.principal, p.checker,
                                     p.businessId);
      && t.db.headers == s.db.headers
         + [Header(op.txnId, p.key, op.principal, p.checker, p.amount, p.currency, p.memo, p.businessId)]
      && t.db.rows == s.db.rows + [EntryRow(op.txnId, EXTERNAL_ACCOUNT_PREFIX + p.payee, p.amount, p.currency),
                                   EntryRow(op.txnId, SourceOf(p), 0 - p.amount, p.currency)]
      && t.events == (if op.published then s.events + [event] else s.events)
      && t.lost == (if op.published then s.lost else s.lost + [event])
  {
    var txn := PaymentOf(op.principal, op.payment, op.txnId);
    TwoPostings(txn.postings[0], txn.postings[1], DEBIT);
  }

  /** No payment scoped to a business is booked beyond its cash, or leaves that below zero. */
  lemma ScopedPaymentCovered(rules: Rules, s: GatewayState, op: Op, business: string)
    requires op.Transfer? && op.payment.businessId == Some(business) && Step(rules, s, op).0.db != s.db
    ensures 0 < op.payment.amount <= Cash(s, business) && Cash(Step(rules, s, op).0, business) >= 0
  {
    TransferExactly(rules, s, op, CashAccount(business));
  }

  /** The payment is scoped to no business and names this account as its source. */
  predicate DrawsOn(op: Op, account: string) {
    op.Transfer? && op.payment.businessId == None && op.payment.fromAccount == account
  }

  /**
   * A payment scoped to no business passes no gate, whatever account it names: booked from a
   * business's meter it lowers the meter by its amount, and booked from its cash it takes the cash;
   * neither tenant, readiness nor runway is asked.
   */
  lemma UnscopedTakes(rules: Rules, s: GatewayState, op: Op, business: string, others: Checks)
    requires op.Transfer? && Tenant(business) && Step(rules, s, op).0.db != s.db
    ensures DrawsOn(op, LlmAccount(business)) ==>
      Llm(Step(rules, s, op).0, business) == Llm(s, business) - op.payment.amount < Llm(s, business)
    ensures DrawsOn(op, CashAccount(business)) ==>
      Cash(Step(rules, s, op).0, business) == Cash(s, business) - op.payment.amount < Cash(s, business)
    ensures op.payment.businessId == None ==> Step(rules, s, op) == Step(rules, s, op.(checks := others))
  {
    TransferExactly(rules, s, op, LlmAccount(business));
    TransferExactly(rules, s, op, CashAccount(business));
    TenantAccounts(business);
  }

  /** A replayed key pays nothing and publishes nothing. */
  lemma ReplayChangesNothing(rules: Rules, s: GatewayState, op: Op)
    requires op.Transfer? && HasKey(s.db.headers, op.payment.key)
    ensures Step(rules, s, op).0 == s
  {}

  /**
   * Why a business id must not read as an external account: then some payee's account is the
   * business's cash, and a booked payment to that payee from elsewhere credits it.
   */
  lemma ExternalTenantCredited(rules: Rules, s: GatewayState, op: Op, business: string) returns (payee: string)
    requires op.Transfer? && !Tenant(business)
    ensures EXTERNAL_ACCOUNT_PREFIX + payee == CashAccount(business)
    ensures var t := Step(rules, s, op).0;
      t.db != s.db && op.payment.payee == payee && SourceOf(op.payment) != CashAccount(business) ==>
        Cash(t, business) == Cash(s, business) + op.payment.amount
  {
    payee := CashAccount(business)[|EXTERNAL_ACCOUNT_PREFIX|..];
    assert CashAccount(business) == business + ":" + "cash";
    assert EXTERNAL_ACCOUNT_PREFIX + payee == CashAccount(business);
    TransferExactly(rules, s, op, CashAccount(business));
  }

  // ---------------------------------------------------------------- provisioning

  /** The request is funded and the id is free. */
  predicate Creates(s: GatewayState, op: Op)
    requires op.Provision?
  {
    op.capital >= op.blueprint.experimentBudget && op.blueprint.businessId !in s.businesses
  }

  /** The capital's transaction is balanced and checked by a second principal. */
  lemma FundingValid(blueprint: Blueprint, capital: int, txnId: string, rules: Rules)
    ensures Ledger.Valid(Gateway.Funding(blueprint, capital, txnId), rules.cap, rules.approved)
  {
    var txn := Gateway.Funding(blueprint, capital, txnId);
    TwoPostings(txn.postings[0], txn.postings[1], AMOUNT);
    assert ALLOCATOR[0] != CONTROLLER[0];
  }

  /**
   * The whole outcome of provisioning. The row is created iff the request is funded and the id is
   * free, active iff the business is then ready, draft otherwise; the capital is booked iff, besides,
   * its idempotency key is new. Nothing else changes.
   */
  lemma ProvisionExactly(rules: Rules, s: GatewayState, op: Op, business: string)
    requires op.Provision? && Fresh(s, op)
    ensures var (t, r) := Step(rules, s, op);
      var b := op.blueprint.businessId;
      var status := if Ready(op.blueprint, Cash(t, b), op.signals) then Active else Draft;
      var booked := Creates(s, op) && !HasKey(s.db.headers, "capital-" + b);
      && (r.Ok? <==> Creates(s, op))
      && (r.Err? ==>
            r.error == if op.capital < op.blueprint.experimentBudget then BelowExperimentBudget else AlreadyProvisioned)
      && t.businesses
         == (if Creates(s, op) then s.businesses[b := BusinessRow(op.blueprint, op.capital, status)] else s.businesses)
      && (t.db != s.db <==> booked)
      && Cash(t, business) == Cash(s, business) + (if booked && business == b then op.capital else 0)
      && Llm(t, business) == Llm(s, business)
      && t.events == s.events && t.lost == s.lost && t.invoked == s.invoked
  {
    var txn, b := Gateway.Funding(op.blueprint, op.capital, op.txnId), op.blueprint.businessId;
    TwoPostings(txn.postings[0], txn.postings[1], At(LlmAccount(business)));
    TwoPostings(txn.postings[0], txn.postings[1], At(CashAccount(business)));
    AccountsDiffer(business, b);
    AccountsDiffer(business, business);
    PostedBalance(s.db, Call(txn, rules.cap), rules.approved, LlmAccount(business));
    PostedBalance(s.db, Call(txn, rules.cap), rules.approved, CashAccount(business));
    FundingValid(op.blueprint, op.capital, op.txnId, rules);
    PostedIff(s.db, Call(txn, rules.cap), rules.approved);
  }

  /** What booked capital leaves on record: made by the allocator, checked by the treasury. */
  lemma CapitalOnRecord(rules: Rules, s: GatewayState, op: Op)
    requires op.Provision? && Fresh(s, op) && Step(rules, s, op).0.db != s.db
    ensures var t, b := Step(rules, s, op).0, op.blueprint.businessId;
      && t.db.headers == s.db.headers + [Header(op.txnId, "capital-" + b, ALLOCATOR, Some(CONTROLLER), op.capital,
                                                "EUR", "initial capital for " + b, None)]
      && t.db.rows == s.db.rows + [EntryRow(op.txnId, b + ":cash", op.capital, "EUR"),
                                   EntryRow(op.txnId, TREASURY, 0 - op.capital, "EUR")]
  {
    var txn := Gateway.Funding(op.blueprint, op.capital, op.txnId);
    TwoPostings(txn.postings[0], txn.postings[1], DEBIT);
  }
}
