/** What the money path guarantees over whole runs of model calls, payments and provisioning. */
module GatewayRuns {
  import opened Common
  import opened Ledger
  import opened LedgerStore
  import opened Factory
  import opened Gateway
  import opened GatewayTheorems

  // ---------------------------------------------------------------- what a step adds to the accounts

  /** The cost of a call of this business that returned. */
  function CostOf(rules: Rules, s: GatewayState, op: Op, business: string): nat {
    if op.Complete? && op.business == business && op.cost > 0 && Step(rules, s, op).1.Ok? then op.cost else 0
  }

  /** The amount of a booked payment that is scoped to no business and draws on this account. */
  function TakenBy(rules: Rules, s: GatewayState, op: Op, account: string): nat {
    if DrawsOn(op, account) && op.payment.amount > 0 && Step(rules, s, op).0.db != s.db then op.payment.amount else 0
  }

  /** The amount of a booked payment scoped to this business. */
  function PaidBy(rules: Rules, s: GatewayState, op: Op, business: string): nat {
    var mine := op.Transfer? && op.payment.businessId == Some(business);
    if mine && op.payment.amount > 0 && Step(rules, s, op).0.db != s.db then op.payment.amount else 0
  }

  /** The capital booked for this business. */
  function FundedBy(rules: Rules, s: GatewayState, op: Op, business: string): nat {
    if op.Provision? && op.blueprint.businessId == business && op.capital > 0 && Step(rules, s, op).0.db != s.db
    then op.capital else 0
  }

  lemma CompletesElsewhere(rules: Rules, s: GatewayState, op: Op, business: string)
    requires op.Complete? && op.business != business
    ensures var t := Step(rules, s, op).0;
      && Llm(t, business) == Llm(s, business) && Cash(t, business) == Cash(s, business)
      && t.businesses == s.businesses
  {
    var txn := Metering(op.principal, op.business, op.taskProfile, op.cost, op.txnId, op.key);
    TwoPostings(txn.postings[0], txn.postings[1], At(LlmAccount(business)));
    TwoPostings(txn.postings[0], txn.postings[1], At(CashAccount(business)));
    AccountsDiffer(business, op.business);
    AccountsDiffer(op.business, business);
    PostedBalance(s.db, Call(txn, rules.cap), rules.approved, LlmAccount(business));
    PostedBalance(s.db, Call(txn, rules.cap), rules.approved, CashAccount(business));
  }

  lemma TransferAccounts(rules: Rules, s: GatewayState, op: Op, business: string)
    requires op.Transfer? && Tenant(business)
    ensures var t := Step(rules, s, op).0;
      && Llm(t, business) == Llm(s, business) - TakenBy(rules, s, op, LlmAccount(business))
      && Cash(t, business)
         == Cash(s, business) - TakenBy(rules, s, op, CashAccount(business)) - PaidBy(rules, s, op, business)
      && (PaidBy(rules, s, op, business) > 0 ==> Cash(t, business) >= 0)
      && t.businesses == s.businesses
  {
    TransferExactly(rules, s, op, LlmAccount(business));
    TransferExactly(rules, s, op, CashAccount(business));
    TenantAccounts(business);
    AccountsDiffer(business, business);
    if op.payment.businessId.Some? {
      AccountsDiffer(business, op.payment.businessId.value);
    }
  }

  /** Every step moves the meter and the cash of a business by what it adds to the accounts, and by nothing else. */
  lemma StepAccounts(rules: Rules, s: GatewayState, op: Op, business: string)
    requires Tenant(business) && Fresh(s, op)
    ensures var t := Step(rules, s, op).0;
      && Llm(t, business)
         == Llm(s, business) + CostOf(rules, s, op, business) - TakenBy(rules, s, op, LlmAccount(business))
      && Cash(t, business)
         == Cash(s, business) + FundedBy(rules, s, op, business) - CostOf(rules, s, op, business)
            - PaidBy(rules, s, op, business) - TakenBy(rules, s, op, CashAccount(business))
      && (PaidBy(rules, s, op, business) > 0 ==> Cash(t, business) >= 0)
  {
    match op {
      case Complete(_, _, _, _, _, _, _) =>
        if op.business == business {
          CompleteExactly(rules, s, op);
        } else {
          CompletesElsewhere(rules, s, op, business);
        }
      case Transfer(_, _, _, _, _) => TransferAccounts(rules, s, op, business);
      case Provision(_, _, _, _) => ProvisionExactly(rules, s, op, business);
    }
  }

  // ---------------------------------------------------------------- totals of a run

  ghost function ReturnedCost(rules: Rules, ops: seq<Op>, trace: seq<GatewayState>, business: string, n: nat): nat
    requires n <= |ops| <= |trace|
  {
    if n == 0 then 0
    else ReturnedCost(rules, ops, trace, business, n - 1) + CostOf(rules, trace[n - 1], ops[n - 1], business)
  }

  ghost function Taken(rules: Rules, ops: seq<Op>, trace: seq<GatewayState>, account: string, n: nat): nat
    requires n <= |ops| <= |trace|
  {
    if n == 0 then 0
    else Taken(rules, ops, trace, account, n - 1) + TakenBy(rules, trace[n - 1], ops[n - 1], account)
  }

  ghost function Paid(rules: Rules, ops: seq<Op>, trace: seq<GatewayState>, business: string, n: nat): nat
    requires n <= |ops| <= |trace|
  {
    if n == 0 then 0
    else Paid(rules, ops, trace, business, n - 1) + PaidBy(rules, trace[n - 1], ops[n - 1], business)
  }

  ghost function Funded(rules: Rules, ops: seq<Op>, trace: seq<GatewayState>, business: string, n: nat): nat
    requires n <= |ops| <= |trace|
  {
    if n == 0 then 0
    else Funded(rules, ops, trace, business, n - 1) + FundedBy(rules, trace[n - 1], ops[n - 1], business)
  }

  /**
   * Over every run, the meter of a business is the cost of its model calls that returned less what
   * payments scoped to no business drew on it; its cash is the capital booked less that cost, less its
   * own payments, less what such payments drew on it.
   */
  lemma {:induction false} AccountsExplained(rules: Rules, ops: seq<Op>, trace: seq<GatewayState>, business: string,
                                             n: nat)
    requires Behaviour(rules, ops, trace) && n <= |ops| && Tenant(business)
    ensures Llm(trace[n], business)
      == ReturnedCost(rules, ops, trace, business, n) - Taken(rules, ops, trace, LlmAccount(business), n)
    ensures Cash(trace[n], business)
      == Funded(rules, ops, trace, business, n) - ReturnedCost(rules, ops, trace, business, n)
         - Paid(rules, ops, trace, business, n) - Taken(rules, ops, trace, CashAccount(business), n)
  {
    if n > 0 {
      AccountsExplained(rules, ops, trace, business, n - 1);
      assert Fresh(trace[n - 1], ops[n - 1]) && trace[n] == Step(rules, trace[n - 1], ops[n - 1]).0;
      StepAccounts(rules, trace[n - 1], ops[n - 1], business);
    }
  }

  // ---------------------------------------------------------------- the budget

  /** No payment scoped to no business was booked from this account among the first n steps. */
  ghost predicate LeavesAlone(rules: Rules, ops: seq<Op>, trace: seq<GatewayState>, account: string, n: nat)
    requires n <= |ops| <= |trace|
  {
    forall i {:trigger ops[i]} :: 0 <= i < n ==>
      !(DrawsOn(ops[i], account) && Step(rules, trace[i], ops[i]).0.db != trace[i].db)
  }

  lemma {:induction false} TakenIffDrawnOn(rules: Rules, ops: seq<Op>, trace: seq<GatewayState>, account: string,
                                           n: nat)
    requires n <= |ops| <= |trace|
    ensures Taken(rules, ops, trace, account, n) == 0 <==> LeavesAlone(rules, ops, trace, account, n)
  {
    if n > 0 {
      TakenIffDrawnOn(rules, ops, trace, account, n - 1);
      if ops[n - 1].Transfer? {
        TransferExactly(rules, trace[n - 1], ops[n - 1], account);
      }
    }
  }

  lemma StepWithinBudget(rules: Rules, s: GatewayState, op: Op, business: string)
    requires Tenant(business) && Fresh(s, op)
    requires if business in s.businesses then Llm(s, business) <= s.businesses[business].blueprint.llmBudget
             else Llm(s, business) <= 0
    ensures var t := Step(rules, s, op).0;
      if business in t.businesses then Llm(t, business) <= t.businesses[business].blueprint.llmBudget
      else Llm(t, business) <= 0
  {
    match op {
      case Complete(_, _, _, _, _, _, _) =>
        if op.business == business {
          CompleteExactly(rules, s, op);
        } else {
          CompletesElsewhere(rules, s, op, business);
        }
      case Transfer(_, _, _, _, _) => TransferAccounts(rules, s, op, business);
      case Provision(_, _, _, _) => ProvisionExactly(rules, s, op, business);
    }
  }

  /** Over every run the meter of a business never exceeds its budget. */
  lemma {:induction false} MeterWithinBudget(rules: Rules, ops: seq<Op>, trace: seq<GatewayState>, business: string,
                                             n: nat)
    requires Behaviour(rules, ops, trace) && n <= |ops| && Tenant(business)
    ensures if business in trace[n].businesses then
        Llm(trace[n], business) <= trace[n].businesses[business].blueprint.llmBudget
      else Llm(trace[n], business) <= 0
  {
    if n > 0 {
      MeterWithinBudget(rules, ops, trace, business, n - 1);
      assert Fresh(trace[n - 1], ops[n - 1]) && trace[n] == Step(rules, trace[n - 1], ops[n - 1]).0;
      StepWithinBudget(rules, trace[n - 1], ops[n - 1], business);
    }
  }

  /**
   * The meter is the cost of the calls that returned iff no payment scoped to no business was booked
   * from it; and then that cost is within the budget.
   */
  lemma CostWithinBudgetIff(rules: Rules, ops: seq<Op>, trace: seq<GatewayState>, business: string, n: nat)
    requires Behaviour(rules, ops, trace) && n <= |ops| && Tenant(business)
    ensures var cost := ReturnedCost(rules, ops, trace, business, n);
      && (Llm(trace[n], business) == cost <==> LeavesAlone(rules, ops, trace, LlmAccount(business), n))
      && (business in trace[n].businesses ==>
            cost <= trace[n].businesses[business].blueprint.llmBudget
                    + Taken(rules, ops, trace, LlmAccount(business), n))
      && (business in trace[n].businesses && LeavesAlone(rules, ops, trace, LlmAccount(business), n) ==>
            cost <= trace[n].businesses[business].blueprint.llmBudget)
  {
    AccountsExplained(rules, ops, trace, business, n);
    TakenIffDrawnOn(rules, ops, trace, LlmAccount(business), n);
    MeterWithinBudget(rules, ops, trace, business, n);
  }

  /**
   * Cash is never short by more than the model calls cost and payments scoped to no business took:
   * what a business pays itself never takes it below zero.
   */
  lemma {:induction false} CashFloor(rules: Rules, ops: seq<Op>, trace: seq<GatewayState>, business: string, n: nat)
    requires Behaviour(rules, ops, trace) && n <= |ops| && Tenant(business)
    ensures Cash(trace[n], business) + ReturnedCost(rules, ops, trace, business, n)
            + Taken(rules, ops, trace, CashAccount(business), n) >= 0
  {
    if n > 0 {
      CashFloor(rules, ops, trace, business, n - 1);
      assert Fresh(trace[n - 1], ops[n - 1]) && trace[n] == Step(rules, trace[n - 1], ops[n - 1]).0;
      StepAccounts(rules, trace[n - 1], ops[n - 1], business);
    }
  }

  // ---------------------------------------------------------------- events

  function EventDue(op: Op): LedgerEntryPosted
    requires op.Transfer?
  {
    EventOf(PaymentOf(op.principal, op.payment, op.txnId), op.payment.payee)
  }

  /** The events of the payments booked, of those published or of those not, in order. */
  ghost function PaymentEvents(ops: seq<Op>, trace: seq<GatewayState>, n: nat, published: bool): seq<LedgerEntryPosted>
    requires n <= |ops| < |trace|
  {
    if n == 0 then []
    else
      var before, op := PaymentEvents(ops, trace, n - 1, published), ops[n - 1];
      if op.Transfer? && op.published == published && trace[n].db.headers != trace[n - 1].db.headers then
        before + [EventDue(op)]
      else before
  }

  /** Event keys are known to the ledger and do not repeat. */
  ghost predicate Once(headers: seq<Header>, events: seq<LedgerEntryPosted>) {
    && (forall i :: 0 <= i < |events| ==> HasKey(headers, events[i].key))
    && (forall i, j :: 0 <= i < j < |events| ==> events[i].key != events[j].key)
  }

  ghost predicate Apart(a: seq<LedgerEntryPosted>, b: seq<LedgerEntryPosted>) {
    forall i, j :: 0 <= i < |a| && 0 <= j < |b| ==> a[i].key != b[j].key
  }

  ghost predicate EventsOnce(s: GatewayState) {
    Once(s.db.headers, s.events) && Once(s.db.headers, s.lost) && Apart(s.events, s.lost)
  }

  function TransactionOf(op: Op): Transaction {
    match op
    case Complete(principal, business, taskProfile, cost, _, txnId, key) =>
      Metering(principal, business, taskProfile, cost, txnId, key)
    case Transfer(principal, payment, _, txnId, _) => PaymentOf(principal, payment, txnId)
    case Provision(blueprint, capital, _, txnId) => Gateway.Funding(blueprint, capital, txnId)
  }

  /** A step posts its own transaction with a new key, or posts nothing. */
  lemma StepPosts(rules: Rules, s: GatewayState, op: Op)
    ensures var t := Step(rules, s, op).0;
      || t.db == s.db
      || (!HasKey(s.db.headers, TransactionOf(op).key)
          && t.db.headers == s.db.headers + [HeaderOf(TransactionOf(op))])
  {}

  lemma StepEvents(rules: Rules, s: GatewayState, op: Op)
    ensures var t := Step(rules, s, op).0;
      var due := op.Transfer? && t.db.headers != s.db.headers;
      && t.events == (if due && op.published then s.events + [EventDue(op)] else s.events)
      && t.lost == (if due && !op.published then s.lost + [EventDue(op)] else s.lost)
  {}

  /** A transaction with a new key leaves the events as they were, or adds its own. */
  lemma OnceMore(headers: seq<Header>, h: Header, events: seq<LedgerEntryPosted>, e: LedgerEntryPosted)
    requires Once(headers, events) && !HasKey(headers, h.key) && e.key == h.key
    ensures Once(headers + [h], events) && Once(headers + [h], events + [e])
  {
    HasKeySnoc(headers, h, h.key);
    forall i | 0 <= i < |events| ensures HasKey(headers + [h], events[i].key) && events[i].key != e.key {
      HasKeySnoc(headers, h, events[i].key);
    }
  }

  lemma ApartMore(headers: seq<Header>, a: seq<LedgerEntryPosted>, b: seq<LedgerEntryPosted>, e: LedgerEntryPosted)
    requires Once(headers, a) && Once(headers, b) && Apart(a, b) && !HasKey(headers, e.key)
    ensures Apart(a + [e], b) && Apart(a, b + [e])
  {}

  lemma StepEventsOnce(rules: Rules, s: GatewayState, op: Op)
    requires EventsOnce(s)
    ensures EventsOnce(Step(rules, s, op).0)
  {
    var t, txn := Step(rules, s, op).0, TransactionOf(op);
    StepPosts(rules, s, op);
    StepEvents(rules, s, op);
    if t.db.headers != s.db.headers {
      var e := EventOf(txn, if op.Transfer? then op.payment.payee else "");
      OnceMore(s.db.headers, HeaderOf(txn), s.events, e);
      OnceMore(s.db.headers, HeaderOf(txn), s.lost, e);
      ApartMore(s.db.headers, s.events, s.lost, e);
    }
  }

  lemma {:induction false} EventsAreDue(rules: Rules, ops: seq<Op>, trace: seq<GatewayState>, n: nat)
    requires Behaviour(rules, ops, trace) && n <= |ops|
    ensures trace[n].events == PaymentEvents(ops, trace, n, true)
    ensures trace[n].lost == PaymentEvents(ops, trace, n, false)
  {
    if n > 0 {
      EventsAreDue(rules, ops, trace, n - 1);
      assert trace[n] == Step(rules, trace[n - 1], ops[n - 1]).0;
      StepEvents(rules, trace[n - 1], ops[n - 1]);
    }
  }

  lemma {:induction false} EventsNeverRepeat(rules: Rules, ops: seq<Op>, trace: seq<GatewayState>, n: nat)
    requires Behaviour(rules, ops, trace) && n <= |ops|
    ensures EventsOnce(trace[n])
  {
    if n > 0 {
      EventsNeverRepeat(rules, ops, trace, n - 1);
      assert trace[n] == Step(rules, trace[n - 1], ops[n - 1]).0;
      StepEventsOnce(rules, trace[n - 1], ops[n - 1]);
    }
  }

  /**
   * Over every run each booked payment has one event, in order: published, or lost because the
   * publish failed or its caller died first. No key appears twice, neither among the published nor
   * among the lost nor in both, so there is at most one event per payment and none for a replay.
   */
  lemma OneEventPerPayment(rules: Rules, ops: seq<Op>, trace: seq<GatewayState>, n: nat)
    requires Behaviour(rules, ops, trace) && n <= |ops|
    ensures trace[n].events == PaymentEvents(ops, trace, n, true)
    ensures trace[n].lost == PaymentEvents(ops, trace, n, false)
    ensures EventsOnce(trace[n])
  {
    EventsAreDue(rules, ops, trace, n);
    EventsNeverRepeat(rules, ops, trace, n);
  }

  lemma {:induction false} LostStays(rules: Rules, ops: seq<Op>, trace: seq<GatewayState>, m: nat, n: nat)
    requires Behaviour(rules, ops, trace) && m <= n <= |ops|
    ensures trace[m].lost <= trace[n].lost
  {
    if m < n {
      LostStays(rules, ops, trace, m, n - 1);
      assert trace[n] == Step(rules, trace[n - 1], ops[n - 1]).0;
      StepEvents(rules, trace[n - 1], ops[n - 1]);
    }
  }

  /** A lost event is lost for good: a retry is a replay, so no later step publishes one with its key. */
  lemma LostForGood(rules: Rules, ops: seq<Op>, trace: seq<GatewayState>, m: nat, n: nat, k: nat)
    requires Behaviour(rules, ops, trace) && m <= n <= |ops| && k < |trace[m].lost|
    ensures forall i :: 0 <= i < |trace[n].events| ==> trace[n].events[i].key != trace[m].lost[k].key
  {
    LostStays(rules, ops, trace, m, n);
    EventsNeverRepeat(rules, ops, trace, n);
    assert trace[n].lost[k] == trace[m].lost[k];
  }

  // ---------------------------------------------------------------- conservation

  lemma StepConserves(rules: Rules, s: GatewayState, op: Op)
    requires SumOf(s.db.rows, ROW_AMOUNT) == 0
    ensures SumOf(Step(rules, s, op).0.db.rows, ROW_AMOUNT) == 0
  {
    PostedBalance(s.db, Call(TransactionOf(op), rules.cap), rules.approved, "");
  }

  /** Money is conserved: the trial balance stays zero. */
  lemma {:induction false} MoneyConserved(rules: Rules, ops: seq<Op>, trace: seq<GatewayState>, n: nat)
    requires Behaviour(rules, ops, trace) && n <= |ops|
    ensures SumOf(trace[n].db.rows, ROW_AMOUNT) == 0
  {
    if n > 0 {
      MoneyConserved(rules, ops, trace, n - 1);
      assert trace[n] == Step(rules, trace[n - 1], ops[n - 1]).0;
      StepConserves(rules, trace[n - 1], ops[n - 1]);
    }
  }

  // ---------------------------------------------------------------- what is not guaranteed

  /**
   * Model calls are gated on the budget alone: one takes the business's cash below zero iff it returns
   * and costs more.
   */
  lemma ModelCallMayOverdraw(rules: Rules, s: GatewayState, op: Op)
    requires op.Complete? && Tenant(op.business) && Fresh(s, op) && Cash(s, op.business) >= 0
    ensures var (t, r) := Step(rules, s, op);
      Cash(t, op.business) < 0 <==> r.Ok? && op.cost > Cash(s, op.business)
  {
    CompleteExactly(rules, s, op);
  }

  const WITNESS := "acme"

  /** A business just provisioned with a capital of 1. */
  function Provisioning(budget: nat): Op {
    Op.Provision(Blueprint(WITNESS, 1, budget), 1, Signals(true, true), "t1")
  }

  function Calling(cost: int, id: string): Op {
    Complete("agent", WITNESS, "default", cost, false, id, id)
  }

  /** An id or key that no step has used stays unused over a step that uses another. */
  lemma FreshLater(rules: Rules, s: GatewayState, op: Op, id: string)
    requires !HasId(s.db.headers, id) && !HasKey(s.db.headers, id)
    requires TransactionOf(op).txnId != id && TransactionOf(op).key != id
    ensures var t := Step(rules, s, op).0; !HasId(t.db.headers, id) && !HasKey(t.db.headers, id)
  {
    StepPosts(rules, s, op);
    HasIdSnoc(s.db.headers, HeaderOf(TransactionOf(op)), id);
    HasKeySnoc(s.db.headers, HeaderOf(TransactionOf(op)), id);
  }

  lemma WitnessStart(rules: Rules, budget: nat)
    ensures Tenant(WITNESS) && Fresh(INIT, Provisioning(budget))
    ensures var s := Step(rules, INIT, Provisioning(budget)).0;
      && WITNESS in s.businesses && s.businesses[WITNESS].blueprint.llmBudget == budget
      && Llm(s, WITNESS) == 0 && Cash(s, WITNESS) == 1 && s.invoked == 0
  {
    var op := Provisioning(budget);
    assert EXTERNAL_ACCOUNT_PREFIX[0] != WITNESS[0];
    ProvisionExactly(rules, INIT, op, WITNESS);
  }

  lemma WitnessUnused(rules: Rules, budget: nat, id: string)
    requires id != "" && id[0] != 't' && id[0] != 'c'
    ensures var h := Step(rules, INIT, Provisioning(budget)).0.db.headers; !HasId(h, id) && !HasKey(h, id)
  {
    FreshLater(rules, INIT, Provisioning(budget), id);
  }

  lemma TwoSteps(rules: Rules, op: Op, next: Op)
    requires Fresh(INIT, op) && Fresh(Step(rules, INIT, op).0, next)
    ensures Behaviour(rules, [op, next], [INIT, Step(rules, INIT, op).0, Step(rules, Step(rules, INIT, op).0, next).0])
  {}

  /** It happens: a run whose second step is a model call that returns and overdraws the business's cash. */
  lemma OverdraftReachable(rules: Rules) returns (ops: seq<Op>, trace: seq<GatewayState>)
    requires rules.cap >= 2
    ensures Behaviour(rules, ops, trace) && Cash(trace[|ops|], WITNESS) < 0
  {
    WitnessStart(rules, 2);
    var s := Step(rules, INIT, Provisioning(2)).0;
    WitnessUnused(rules, 2, "x");
    CompleteExactly(rules, s, Calling(2, "x"));
    TwoSteps(rules, Provisioning(2), Calling(2, "x"));
    ops, trace := [Provisioning(2), Calling(2, "x")], [INIT, s, Step(rules, s, Calling(2, "x")).0];
  }

  /** It happens under any cap: a run in which the model runs, its cost is refused, and nothing is metered. */
  lemma UnmeteredCallReachable(rules: Rules) returns (ops: seq<Op>, trace: seq<GatewayState>, cost: nat)
    ensures Behaviour(rules, ops, trace) && |ops| == 2 && ops[1] == Calling(cost, "x") && cost > 0
    ensures trace[2].invoked == trace[1].invoked + 1 && Llm(trace[2], WITNESS) == Llm(trace[1], WITNESS) == 0
    ensures Step(rules, trace[1], ops[1]).1 == Err(OverTheCap(cost, rules.cap))
  {
    cost := if rules.cap < 0 then 1 else rules.cap + 1;
    WitnessStart(rules, cost);
    var s := Step(rules, INIT, Provisioning(cost)).0;
    WitnessUnused(rules, cost, "x");
    CompleteExactly(rules, s, Calling(cost, "x"));
    TwoSteps(rules, Provisioning(cost), Calling(cost, "x"));
    ops, trace := [Provisioning(cost), Calling(cost, "x")], [INIT, s, Step(rules, s, Calling(cost, "x")).0];
  }

  /** A checked payment scoped to no business whose source is the meter. */
  function Drawing(id: string): Op {
    Transfer("agent", PaymentTransfer(id, 1, "p", LlmAccount(WITNESS), Some("checker"), "EUR", "", None),
             Checks(false, Signals(false, false)), id, true)
  }

  lemma DrawingBooked(rules: Rules, s: GatewayState, id: string)
    requires !HasId(s.db.headers, id) && !HasKey(s.db.headers, id)
    ensures Step(rules, s, Drawing(id)).0.db != s.db && DrawsOn(Drawing(id), LlmAccount(WITNESS))
    ensures Step(rules, s, Drawing(id)).0.businesses == s.businesses
  {
    var op := Drawing(id);
    var txn := PaymentOf(op.principal, op.payment, op.txnId);
    TwoPostings(txn.postings[0], txn.postings[1], AMOUNT);
    assert "agent"[0] != "checker"[0];
    ValidIff(txn, rules.cap, rules.approved);
    TransferExactly(rules, s, op, "");
  }

  /** A call of cost 1 on an unspent budget of 1 returns, and another id stays unused. */
  lemma CallOnce(rules: Rules, s: GatewayState, id: string, other: string)
    requires rules.cap >= 1 && Tenant(WITNESS) && WITNESS in s.businesses && Llm(s, WITNESS) == 0
    requires s.businesses[WITNESS].blueprint.llmBudget == 1
    requires Fresh(s, Calling(1, id)) && id != other
    ensures CostOf(rules, s, Calling(1, id), WITNESS) == 1
    ensures var t := Step(rules, s, Calling(1, id)).0;
      && t.businesses == s.businesses && Llm(t, WITNESS) == 1
      && (!HasId(s.db.headers, other) && !HasKey(s.db.headers, other) ==>
            !HasId(t.db.headers, other) && !HasKey(t.db.headers, other))
  {
    CompleteExactly(rules, s, Calling(1, id));
    if !HasId(s.db.headers, other) && !HasKey(s.db.headers, other) { FreshLater(rules, s, Calling(1, id), other); }
  }

  /** A payment of 1 from a meter of 1 clears it. */
  lemma DrawOnce(rules: Rules, s: GatewayState, id: string, other: string)
    requires Tenant(WITNESS) && Llm(s, WITNESS) == 1 && id != other
    requires !HasId(s.db.headers, id) && !HasKey(s.db.headers, id)
    requires !HasId(s.db.headers, other) && !HasKey(s.db.headers, other)
    ensures var t := Step(rules, s, Drawing(id)).0;
      && t.businesses == s.businesses && Llm(t, WITNESS) == 0
      && !HasId(t.db.headers, other) && !HasKey(t.db.headers, other)
  {
    DrawingBooked(rules, s, id);
    UnscopedTakes(rules, s, Drawing(id), WITNESS, Drawing(id).checks);
    FreshLater(rules, s, Drawing(id), other);
  }

  /** The four steps of the run below, from one state to the next. */
  lemma DrawnDown(rules: Rules) returns (s1: GatewayState, s2: GatewayState, s3: GatewayState, s4: GatewayState)
    requires rules.cap >= 1
    ensures Fresh(INIT, Provisioning(1)) && s1 == Step(rules, INIT, Provisioning(1)).0
    ensures Fresh(s1, Calling(1, "x")) && s2 == Step(rules, s1, Calling(1, "x")).0
    ensures Fresh(s2, Drawing("y")) && s3 == Step(rules, s2, Drawing("y")).0
    ensures Fresh(s3, Calling(1, "z")) && s4 == Step(rules, s3, Calling(1, "z")).0
    ensures CostOf(rules, s1, Calling(1, "x"), WITNESS) == 1 == CostOf(rules, s3, Calling(1, "z"), WITNESS)
    ensures WITNESS in s4.businesses && s4.businesses[WITNESS].blueprint.llmBudget == 1
  {
    WitnessStart(rules, 1);
    WitnessUnused(rules, 1, "x");
    WitnessUnused(rules, 1, "y");
    WitnessUnused(rules, 1, "z");
    s1 := Step(rules, INIT, Provisioning(1)).0;
    CallOnce(rules, s1, "x", "y");
    CallOnce(rules, s1, "x", "z");
    s2 := Step(rules, s1, Calling(1, "x")).0;
    DrawOnce(rules, s2, "y", "z");
    s3 := Step(rules, s2, Drawing("y")).0;
    CallOnce(rules, s3, "z", "x");
    s4 := Step(rules, s3, Calling(1, "z")).0;
  }

  /**
   * And the cost of the calls can exceed the budget when the meter is drawn on: with a budget of 1, a
   * call, a payment from the meter, and a second call.
   */
  lemma BudgetExceededReachable(rules: Rules) returns (ops: seq<Op>, trace: seq<GatewayState>)
    requires rules.cap >= 1
    ensures Behaviour(rules, ops, trace) && |ops| == 4 && WITNESS in trace[4].businesses
    ensures ReturnedCost(rules, ops, trace, WITNESS, 4) > trace[4].businesses[WITNESS].blueprint.llmBudget
  {
    var s1, s2, s3, s4 := DrawnDown(rules);
    ops := [Provisioning(1), Calling(1, "x"), Drawing("y"), Calling(1, "z")];
    trace := [INIT, s1, s2, s3, s4];
    FourSteps(rules, INIT, ops[0], s1, ops[1], s2, ops[2], s3, ops[3], s4);
    CostsAdd(rules, ops, trace);
  }

  lemma FourSteps(rules: Rules, s0: GatewayState, a: Op, s1: GatewayState, b: Op, s2: GatewayState, c: Op,
                  s3: GatewayState, d: Op, s4: GatewayState)
    requires s0 == INIT && Fresh(s0, a) && Fresh(s1, b) && Fresh(s2, c) && Fresh(s3, d)
    requires s1 == Step(rules, s0, a).0 && s2 == Step(rules, s1, b).0
    requires s3 == Step(rules, s2, c).0 && s4 == Step(rules, s3, d).0
    ensures Behaviour(rules, [a, b, c, d], [s0, s1, s2, s3, s4])
  {}

  lemma CostsAdd(rules: Rules, ops: seq<Op>, trace: seq<GatewayState>)
    requires |ops| == 4 && |trace| == 5
    ensures ReturnedCost(rules, ops, trace, WITNESS, 4)
      >= CostOf(rules, trace[1], ops[1], WITNESS) + CostOf(rules, trace[3], ops[3], WITNESS)
  {
    assert ReturnedCost(rules, ops, trace, WITNESS, 2) >= CostOf(rules, trace[1], ops[1], WITNESS);
    assert ReturnedCost(rules, ops, trace, WITNESS, 3) >= ReturnedCost(rules, ops, trace, WITNESS, 2);
  }
}
