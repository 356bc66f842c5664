/**
 * Concurrent tool calls (src/ab_gateway/tools.py): a gate reads a balance, and what it let through is
 * posted only later, after other calls may have posted. How far the gates still hold, exactly.
 */
module GatewayConcurrency {
  import opened Common
  import opened Ledger
  import opened LedgerStore
  import opened Factory
  import opened Gateway
  import opened GatewayTheorems
  import opened GatewayRuns

  /** The tables, and the calls that passed their gate and have not posted yet, in the order of their gates. */
  datatype World = World(s: GatewayState, open: seq<Op>)

  /** A call asks its gate; a call in flight posts; a caller in flight dies. */
  datatype Move =
    | Ask(op: Op)
    | Land(i: nat)
    | Drop(i: nat)

  const START := World(Gateway.INIT, [])

  /** The gate of each tool, on the balances it reads. */
  predicate Passes(s: GatewayState, op: Op) {
    match op
    case Complete(_, _, _, _, _, _, _) => Admitted(s, op)
    case Transfer(_, p, checks, _, _) =>
      p.amount > 0 && (p.businessId.Some? ==> GateSpend(s, p.businessId.value, p.amount, checks) == None)
    case Provision(_, _, _, _) => true
  }

  function Asked(s: GatewayState, op: Op): GatewayState {
    if op.Complete? then s.(invoked := s.invoked + 1) else s
  }

  /** What a call does once its gate has let it through, whatever the balances are by then. */
  function Landed(rules: Rules, s: GatewayState, op: Op): GatewayState {
    match op
    case Complete(_, _, _, cost, modelFails, _, _) =>
      if modelFails || cost <= 0 then s
      else s.(db := DbPosted(s.db, Call(TransactionOf(op), rules.cap), rules.approved).0)
    case Transfer(_, p, _, _, published) =>
      var txn := TransactionOf(op);
      var (db, r) := DbPosted(s.db, Call(txn, rules.cap), rules.approved);
      if r != Ok(true) then s.(db := db)
      else if published then s.(db := db, events := s.events + [EventOf(txn, p.payee)])
      else s.(db := db, lost := s.lost + [EventOf(txn, p.payee)])
    case Provision(_, _, _, _) => Provisioned(rules, s, op).0
  }

  function Without(open: seq<Op>, i: nat): seq<Op>
    requires i < |open|
  {
    open[..i] + open[i + 1..]
  }

  predicate Enabled(w: World, m: Move) {
    match m
    case Ask(op) => op.Provision? ==> op.blueprint.experimentBudget >= 1
    case Land(i) => i < |w.open| && Fresh(w.s, w.open[i])
    case Drop(i) => i < |w.open|
  }

  function Apply(rules: Rules, w: World, m: Move): World
    requires Enabled(w, m)
  {
    match m
    case Ask(op) => if Passes(w.s, op) then World(Asked(w.s, op), w.open + [op]) else w
    case Land(i) => World(Landed(rules, w.s, w.open[i]), Without(w.open, i))
    case Drop(i) => World(w.s, Without(w.open, i))
  }

  ghost predicate Behaviour(rules: Rules, moves: seq<Move>, trace: seq<World>) {
    && |trace| == |moves| + 1 && trace[0] == START
    && forall n {:trigger moves[n]} :: 0 <= n < |moves| ==>
         Enabled(trace[n], moves[n]) && trace[n + 1] == Apply(rules, trace[n], moves[n])
  }

  /** A call that posts right after its gate is a step of the sequential gateway. */
  lemma AtOnce(rules: Rules, w: World, op: Op)
    requires Enabled(w, Ask(op)) && w.open == [] && Fresh(w.s, op)
    ensures var v := Apply(rules, w, Ask(op));
      if Passes(w.s, op) then
        Enabled(v, Land(0)) && Apply(rules, v, Land(0)) == World(Step(rules, w.s, op).0, [])
      else v == w && Step(rules, w.s, op).0 == w.s
  {
    assert Without([] + [op], 0) == [];
  }

  // ---------------------------------------------------------------- sums over the calls in flight

  function OfBusiness(b: string): Op -> bool {
    (op: Op) => (op.Complete? && op.business == b) || (op.Transfer? && op.payment.businessId == Some(b))
  }

  /** At every moment at most k calls of the business are in flight. */
  ghost predicate AtMost(trace: seq<World>, b: string, k: nat) {
    forall n {:trigger trace[n]} :: 0 <= n < |trace| ==> Count(trace[n].open, OfBusiness(b)) <= k
  }

  lemma {:induction false} SumWithout(open: seq<Op>, i: nat, f: Op -> int)
    requires i < |open|
    ensures SumOf(Without(open, i), f) == SumOf(open, f) - f(open[i])
  {
    var n := |open| - 1;
    if i == n {
      assert Without(open, i) == open[..n];
    } else {
      var rest := Without(open[..n], i);
      SumWithout(open[..n], i, f);
      assert Without(open, i) == rest + [open[n]];
      SumOfSnoc(rest, open[n], f);
    }
  }

  /** If a call of the business adds at most `limit` and others nothing, the sum is at most count times limit. */
  lemma {:induction false} SumBounded(open: seq<Op>, b: string, f: Op -> int, limit: nat)
    requires forall i :: 0 <= i < |open| ==> 0 <= f(open[i]) <= (if OfBusiness(b)(open[i]) then limit else 0)
    ensures 0 <= SumOf(open, f) <= Count(open, OfBusiness(b)) * limit
  {
    if open != [] {
      var n := |open| - 1;
      SumBounded(open[..n], b, f, limit);
      assert open == open[..n] + [open[n]];
      SumOfSnoc(open[..n], open[n], f);
      CountSnoc(open[..n], open[n], OfBusiness(b));
    }
  }

  lemma TimesMonotone(a: nat, k: nat, limit: nat)
    requires a <= k
    ensures a * limit <= k * limit
  {}

  // ---------------------------------------------------------------- the budget

  /** What a call in flight will put on the meter of the business if it lands. */
  function Due(rules: Rules, b: string): Op -> int {
    (op: Op) => if op.Complete? && op.business == b && !op.modelFails && 0 < op.cost <= rules.cap then op.cost else 0
  }

  function CapOf(rules: Rules): nat {
    if rules.cap > 0 then rules.cap else 0
  }

  lemma LandedBalance(rules: Rules, s: GatewayState, op: Op, account: string)
    requires !op.Provision? && (op.Complete? ==> !op.modelFails && op.cost > 0)
    ensures var (t, txn) := (Landed(rules, s, op), TransactionOf(op));
      && AccountBalance(t.db, account) == AccountBalance(s.db, account)
           + (if DbPosted(s.db, Call(txn, rules.cap), rules.approved).1 == Ok(true)
              then (if txn.postings[0].account == account then txn.postings[0].amount else 0)
                   + (if txn.postings[1].account == account then txn.postings[1].amount else 0)
              else 0)
      && t.businesses == s.businesses
  {
    var txn := TransactionOf(op);
    TwoPostings(txn.postings[0], txn.postings[1], At(account));
    PostedBalance(s.db, Call(txn, rules.cap), rules.approved, account);
  }

  /** A landing call adds at most its due to the meter, and exactly that if it is a model call. */
  lemma LandedMeter(rules: Rules, s: GatewayState, op: Op, b: string)
    requires Tenant(b) && Fresh(s, op) && (op.Transfer? ==> op.payment.amount > 0)
    ensures var t := Landed(rules, s, op);
      && Llm(t, b) <= Llm(s, b) + Due(rules, b)(op)
      && (!op.Transfer? ==> Llm(t, b) == Llm(s, b) + Due(rules, b)(op))
      && (forall c :: c in s.businesses ==> c in t.businesses && t.businesses[c].blueprint == s.businesses[c].blueprint)
  {
    match op {
      case Complete(_, business, _, cost, modelFails, _, _) =>
        if !modelFails && cost > 0 {
          LandedBalance(rules, s, op, LlmAccount(b));
          AccountsDiffer(b, business);
          AccountsDiffer(business, b);
          if business == b {
            MeteringIs(op.principal, b, op.taskProfile, cost, op.txnId, op.key);
          }
        }
      case Transfer(_, _, _, _, _) =>
        LandedBalance(rules, s, op, LlmAccount(b));
        TenantAccounts(b);
      case Provision(_, _, _, _) => ProvisionExactly(rules, s, op, b);
    }
  }

  /** Every payment in flight passed the amount check; every model call in flight is of a known business. */
  ghost predicate OpenOk(w: World) {
    forall i {:trigger w.open[i]} :: 0 <= i < |w.open| ==>
      && (w.open[i].Transfer? ==> w.open[i].payment.amount > 0)
      && (w.open[i].Complete? ==> w.open[i].business in w.s.businesses)
  }

  /** The meter together with what is still due to it. */
  ghost predicate MeterOk(rules: Rules, w: World, b: string, k: nat)
    requires k >= 1
  {
    var pending := SumOf(w.open, Due(rules, b));
    if b in w.s.businesses then
      Llm(w.s, b) + pending <= w.s.businesses[b].blueprint.llmBudget + (k - 1) * CapOf(rules)
    else Llm(w.s, b) <= 0
  }

  lemma DueBounded(rules: Rules, open: seq<Op>, b: string)
    ensures 0 <= SumOf(open, Due(rules, b)) <= Count(open, OfBusiness(b)) * CapOf(rules)
  {
    SumBounded(open, b, Due(rules, b), CapOf(rules));
  }

  lemma MoveKeepsOpen(rules: Rules, w: World, m: Move)
    requires OpenOk(w) && Enabled(w, m)
    ensures OpenOk(Apply(rules, w, m))
  {}

  /** Nothing is due to the meter of an unknown business. */
  lemma NothingDue(rules: Rules, w: World, b: string)
    requires OpenOk(w) && b !in w.s.businesses
    ensures SumOf(w.open, Due(rules, b)) == 0
  {
    SumBounded(w.open, b, Due(rules, b), 0);
  }

  lemma AskKeepsMeter(rules: Rules, w: World, op: Op, b: string, k: nat)
    requires k >= 1 && MeterOk(rules, w, b, k) && Passes(w.s, op) && Count(w.open + [op], OfBusiness(b)) <= k
    ensures MeterOk(rules, World(Asked(w.s, op), w.open + [op]), b, k)
  {
    SumOfSnoc(w.open, op, Due(rules, b));
    if Due(rules, b)(op) > 0 {
      CountSnoc(w.open, op, OfBusiness(b));
      DueBounded(rules, w.open, b);
      TimesMonotone(Count(w.open, OfBusiness(b)), k - 1, CapOf(rules));
    }
  }

  lemma LandKeepsMeter(rules: Rules, w: World, i: nat, b: string, k: nat)
    requires Tenant(b) && k >= 1 && OpenOk(w) && MeterOk(rules, w, b, k) && i < |w.open| && Fresh(w.s, w.open[i])
    ensures MeterOk(rules, World(Landed(rules, w.s, w.open[i]), Without(w.open, i)), b, k)
  {
    SumWithout(w.open, i, Due(rules, b));
    LandedMeter(rules, w.s, w.open[i], b);
    TimesMonotone(0, k - 1, CapOf(rules));
    if b !in w.s.businesses { NothingDue(rules, w, b); }
  }

  lemma MoveKeepsMeter(rules: Rules, w: World, m: Move, b: string, k: nat)
    requires Tenant(b) && k >= 1 && OpenOk(w) && MeterOk(rules, w, b, k) && Enabled(w, m)
    requires Count(Apply(rules, w, m).open, OfBusiness(b)) <= k
    ensures MeterOk(rules, Apply(rules, w, m), b, k)
  {
    match m {
      case Ask(op) => if Passes(w.s, op) { AskKeepsMeter(rules, w, op, b, k); }
      case Land(i) => LandKeepsMeter(rules, w, i, b, k);
      case Drop(i) =>
        SumWithout(w.open, i, Due(rules, b));
        if b !in w.s.businesses { NothingDue(rules, w, b); }
    }
  }

  lemma {:induction false} MeterReachable(rules: Rules, moves: seq<Move>, trace: seq<World>, b: string, k: nat, n: nat)
    requires Behaviour(rules, moves, trace) && n <= |moves| && Tenant(b) && k >= 1 && AtMost(trace, b, k)
    ensures OpenOk(trace[n]) && MeterOk(rules, trace[n], b, k)
  {
    if n == 0 {
      TimesMonotone(0, k - 1, CapOf(rules));
    } else {
      MeterReachable(rules, moves, trace, b, k, n - 1);
      assert Enabled(trace[n - 1], moves[n - 1]) && trace[n] == Apply(rules, trace[n - 1], moves[n - 1]);
      MoveKeepsOpen(rules, trace[n - 1], moves[n - 1]);
      MoveKeepsMeter(rules, trace[n - 1], moves[n - 1], b, k);
    }
  }

  /**
   * However calls interleave, with at most k of a business in flight its meter exceeds its budget by at
   * most k - 1 times the ledger's cap: not at all if its calls come one at a time.
   */
  lemma OvershootBounded(rules: Rules, moves: seq<Move>, trace: seq<World>, b: string, k: nat, n: nat)
    requires Behaviour(rules, moves, trace) && n <= |moves| && Tenant(b) && k >= 1 && AtMost(trace, b, k)
    ensures b in trace[n].s.businesses ==>
      Llm(trace[n].s, b) <= trace[n].s.businesses[b].blueprint.llmBudget + (k - 1) * CapOf(rules)
    ensures k == 1 && b in trace[n].s.businesses ==>
      Llm(trace[n].s, b) <= trace[n].s.businesses[b].blueprint.llmBudget
  {
    MeterReachable(rules, moves, trace, b, k, n);
    DueBounded(rules, trace[n].open, b);
  }

  // ---------------------------------------------------------------- the runway

  /** What a payment in flight will take from the cash of the business if it lands. */
  function Owed(b: string): Op -> int {
    (op: Op) => if op.Transfer? && op.payment.businessId == Some(b) then op.payment.amount else 0
  }

  /** What a move other than a payment of its own takes from the cash of the business. */
  function TakenFrom(rules: Rules, w: World, m: Move, b: string): nat
    requires Enabled(w, m)
  {
    var loss := Cash(w.s, b) - Cash(Apply(rules, w, m).s, b);
    if m.Land? && Owed(b)(w.open[m.i]) == 0 && loss > 0 then loss else 0
  }

  ghost function TakenSoFar(rules: Rules, moves: seq<Move>, trace: seq<World>, b: string, n: nat): nat
    requires Behaviour(rules, moves, trace) && n <= |moves|
  {
    if n == 0 then 0
    else
      assert Enabled(trace[n - 1], moves[n - 1]);
      TakenSoFar(rules, moves, trace, b, n - 1) + TakenFrom(rules, trace[n - 1], moves[n - 1], b)
  }

  /** No payment of the business asks for more than the limit. */
  ghost predicate Limited(op: Op, b: string, limit: nat) {
    Owed(b)(op) <= limit
  }

  ghost predicate AsksLimited(moves: seq<Move>, b: string, limit: nat) {
    forall n {:trigger moves[n]} :: 0 <= n < |moves| && moves[n].Ask? ==> Limited(moves[n].op, b, limit)
  }

  ghost predicate AllLimited(open: seq<Op>, b: string, limit: nat) {
    forall i {:trigger open[i]} :: 0 <= i < |open| ==> Limited(open[i], b, limit)
  }

  /** Cash, less what payments in flight will take from it, and what others took. */
  ghost predicate CashOk(w: World, b: string, k: nat, limit: nat, taken: nat)
    requires k >= 1
  {
    Cash(w.s, b) + taken - SumOf(w.open, Owed(b)) >= 0 - (k - 1) * limit
  }

  lemma AskKeepsCash(w: World, op: Op, b: string, k: nat, limit: nat, taken: nat)
    requires k >= 1 && OpenOk(w) && AllLimited(w.open, b, limit) && CashOk(w, b, k, limit, taken)
    requires Passes(w.s, op) && Count(w.open + [op], OfBusiness(b)) <= k
    ensures CashOk(World(Asked(w.s, op), w.open + [op]), b, k, limit, taken)
  {
    SumOfSnoc(w.open, op, Owed(b));
    if op.Transfer? && op.payment.businessId == Some(b) {
      GateIsPayable(w.s, b, op.payment.amount, op.checks);
      CountSnoc(w.open, op, OfBusiness(b));
      SumBounded(w.open, b, Owed(b), limit);
      TimesMonotone(Count(w.open, OfBusiness(b)), k - 1, limit);
    }
  }

  lemma LandKeepsCash(rules: Rules, w: World, i: nat, b: string, k: nat, limit: nat, taken: nat)
    requires k >= 1 && OpenOk(w) && CashOk(w, b, k, limit, taken) && Enabled(w, Land(i))
    ensures CashOk(Apply(rules, w, Land(i)), b, k, limit, taken + TakenFrom(rules, w, Land(i), b))
  {
    var op := w.open[i];
    SumWithout(w.open, i, Owed(b));
    if Owed(b)(op) > 0 { LandedBalance(rules, w.s, op, CashAccount(b)); }
  }

  lemma MoveKeepsCash(rules: Rules, w: World, m: Move, b: string, k: nat, limit: nat, taken: nat)
    requires k >= 1 && OpenOk(w) && AllLimited(w.open, b, limit) && CashOk(w, b, k, limit, taken) && Enabled(w, m)
    requires Count(Apply(rules, w, m).open, OfBusiness(b)) <= k && (m.Ask? ==> Limited(m.op, b, limit))
    ensures AllLimited(Apply(rules, w, m).open, b, limit)
    ensures CashOk(Apply(rules, w, m), b, k, limit, taken + TakenFrom(rules, w, m, b))
  {
    match m {
      case Ask(op) => if Passes(w.s, op) { AskKeepsCash(w, op, b, k, limit, taken); }
      case Land(i) => LandKeepsCash(rules, w, i, b, k, limit, taken);
      case Drop(i) => SumWithout(w.open, i, Owed(b));
    }
  }

  lemma {:induction false} CashReachable(rules: Rules, moves: seq<Move>, trace: seq<World>, b: string, k: nat,
                                         limit: nat, n: nat)
    requires Behaviour(rules, moves, trace) && n <= |moves| && k >= 1 && AtMost(trace, b, k)
    requires AsksLimited(moves, b, limit)
    ensures OpenOk(trace[n]) && AllLimited(trace[n].open, b, limit)
    ensures CashOk(trace[n], b, k, limit, TakenSoFar(rules, moves, trace, b, n))
  {
    if n == 0 {
      TimesMonotone(0, k - 1, limit);
    } else {
      CashReachable(rules, moves, trace, b, k, limit, n - 1);
      assert Enabled(trace[n - 1], moves[n - 1]) && trace[n] == Apply(rules, trace[n - 1], moves[n - 1]);
      MoveKeepsOpen(rules, trace[n - 1], moves[n - 1]);
      MoveKeepsCash(rules, trace[n - 1], moves[n - 1], b, k, limit, TakenSoFar(rules, moves, trace, b, n - 1));
    }
  }

  lemma CashOkMeans(w: World, b: string, k: nat, limit: nat, taken: nat)
    requires k >= 1 && OpenOk(w) && CashOk(w, b, k, limit, taken)
    ensures Cash(w.s, b) + taken >= 0 - (k - 1) * limit
  {
    OwedNotNegative(w.open, b);
  }

  lemma {:induction false} OwedNotNegative(open: seq<Op>, b: string)
    requires forall i {:trigger open[i]} :: 0 <= i < |open| && open[i].Transfer? ==> open[i].payment.amount > 0
    ensures SumOf(open, Owed(b)) >= 0
  {
    if open != [] { OwedNotNegative(open[..|open| - 1], b); }
  }

  /**
   * However calls interleave, with at most k of a business in flight and none of its payments over the
   * limit, its own payments take its cash below zero by at most k - 1 times the limit: not at all if
   * its calls come one at a time.
   */
  lemma ShortfallBounded(rules: Rules, moves: seq<Move>, trace: seq<World>, b: string, k: nat, limit: nat, n: nat)
    requires Behaviour(rules, moves, trace) && n <= |moves| && k >= 1 && AtMost(trace, b, k)
    requires AsksLimited(moves, b, limit)
    ensures Cash(trace[n].s, b) >= 0 - (k - 1) * limit - TakenSoFar(rules, moves, trace, b, n)
  {
    CashReachable(rules, moves, trace, b, k, limit, n);
    CashOkMeans(trace[n], b, k, limit, TakenSoFar(rules, moves, trace, b, n));
  }

  // ---------------------------------------------------------------- the bounds are reached

  ghost predicate Narrow(trace: seq<World>, k: nat) {
    forall n {:trigger trace[n]} :: 0 <= n < |trace| ==> |trace[n].open| <= k
  }

  lemma Extend(rules: Rules, moves: seq<Move>, trace: seq<World>, m: Move, k: nat)
    returns (more: seq<Move>, longer: seq<World>)
    requires Behaviour(rules, moves, trace) && Enabled(trace[|moves|], m)
    requires Narrow(trace, k) && |Apply(rules, trace[|moves|], m).open| <= k
    ensures Behaviour(rules, more, longer) && Narrow(longer, k)
    ensures longer[|more|] == Apply(rules, trace[|moves|], m)
  {
    more, longer := moves + [m], trace + [Apply(rules, trace[|moves|], m)];
  }

  lemma {:induction false} CountAtMostLength(open: seq<Op>, f: Op -> bool)
    ensures Count(open, f) <= |open|
  {
    if open != [] { CountAtMostLength(open[..|open| - 1], f); }
  }

  lemma NarrowAtMost(trace: seq<World>, b: string, k: nat)
    requires Narrow(trace, k)
    ensures AtMost(trace, b, k)
  {
    forall n {:trigger trace[n]} | 0 <= n < |trace| ensures Count(trace[n].open, OfBusiness(b)) <= k {
      CountAtMostLength(trace[n].open, OfBusiness(b));
    }
  }

  /** Calls that pass their gates one after another, before any of them lands. */
  lemma {:induction false} AskAll(rules: Rules, moves: seq<Move>, trace: seq<World>, queue: seq<Op>, k: nat)
    returns (more: seq<Move>, longer: seq<World>)
    requires Behaviour(rules, moves, trace) && trace[|moves|].open == [] && Narrow(trace, k) && |queue| <= k
    requires forall op :: op in queue ==> !op.Provision? && Passes(trace[|moves|].s, op)
    ensures Behaviour(rules, more, longer) && Narrow(longer, k)
    ensures var (s, w) := (trace[|moves|].s, longer[|more|]);
      w.open == queue && w.s.db == s.db && w.s.businesses == s.businesses
  {
    more, longer := moves, trace;
    if queue != [] {
      var n := |queue| - 1;
      assert forall op :: op in queue[..n] ==> op in queue;
      more, longer := AskAll(rules, moves, trace, queue[..n], k);
      assert queue[n] in queue && Passes(longer[|more|].s, queue[n]);
      more, longer := Extend(rules, more, longer, Ask(queue[n]), k);
      assert queue == queue[..n] + [queue[n]];
    }
  }

  /** A valid call under a key and an id no header has, that moves the account by delta. */
  ghost predicate Books(rules: Rules, s: GatewayState, op: Op, account: string, delta: int) {
    && !op.Provision? && (op.Complete? ==> !op.modelFails && op.cost > 0)
    && Valid(TransactionOf(op), rules.cap, rules.approved)
    && !HasKey(s.db.headers, TransactionOf(op).key) && !HasId(s.db.headers, TransactionOf(op).txnId)
    && SumOf(TransactionOf(op).postings, At(account)) == delta
  }

  ghost predicate AllBook(rules: Rules, s: GatewayState, queue: seq<Op>, account: string, delta: int) {
    && (forall i {:trigger queue[i]} :: 0 <= i < |queue| ==> Books(rules, s, queue[i], account, delta))
    && (forall i, j {:trigger queue[i], queue[j]} :: 0 <= i < j < |queue| ==>
          && TransactionOf(queue[i]).key != TransactionOf(queue[j]).key
          && TransactionOf(queue[i]).txnId != TransactionOf(queue[j]).txnId)
  }

  /** Landing the last of them books it and leaves the others bookable. */
  lemma LandLast(rules: Rules, s: GatewayState, queue: seq<Op>, account: string, delta: int)
    requires queue != [] && AllBook(rules, s, queue, account, delta)
    ensures var (n, op) := (|queue| - 1, queue[|queue| - 1]);
      var t := Landed(rules, s, op);
      && Fresh(s, op) && AllBook(rules, t, queue[..n], account, delta) && Without(queue, n) == queue[..n]
      && AccountBalance(t.db, account) == AccountBalance(s.db, account) + delta
      && t.businesses == s.businesses
  {
    var n, op := |queue| - 1, queue[|queue| - 1];
    var t, txn := Landed(rules, s, op), TransactionOf(op);
    PostedBalance(s.db, Call(txn, rules.cap), rules.approved, account);
    assert t.db.headers == s.db.headers + [HeaderOf(txn)];
    forall i {:trigger queue[i]} | 0 <= i < n ensures Books(rules, t, queue[i], account, delta) {
      HasKeySnoc(s.db.headers, HeaderOf(txn), TransactionOf(queue[i]).key);
      HasIdSnoc(s.db.headers, HeaderOf(txn), TransactionOf(queue[i]).txnId);
    }
  }

  lemma OneMore(n: nat, delta: int)
    ensures (n + 1) * delta == n * delta + delta
  {}

  lemma {:induction false} LandAll(rules: Rules, moves: seq<Move>, trace: seq<World>, account: string, delta: int,
                                   k: nat)
    returns (more: seq<Move>, longer: seq<World>)
    requires Behaviour(rules, moves, trace) && Narrow(trace, k)
    requires AllBook(rules, trace[|moves|].s, trace[|moves|].open, account, delta)
    ensures Behaviour(rules, more, longer) && Narrow(longer, k)
    ensures var (w, v) := (trace[|moves|], longer[|more|]);
      && AccountBalance(v.s.db, account) == AccountBalance(w.s.db, account) + |w.open| * delta
      && v.s.businesses == w.s.businesses
    decreases |trace[|moves|].open|
  {
    more, longer := moves, trace;
    var w := trace[|moves|];
    if w.open != [] {
      var n := |w.open| - 1;
      LandLast(rules, w.s, w.open, account, delta);
      more, longer := Extend(rules, moves, trace, Land(n), k);
      more, longer := LandAll(rules, more, longer, account, delta, k);
      OneMore(n, delta);
    }
  }

  /** A business provisioned with a capital of 1 and this budget, and nothing in flight. */
  lemma Started(rules: Rules, budget: nat, k: nat) returns (moves: seq<Move>, trace: seq<World>)
    requires k >= 1
    ensures Behaviour(rules, moves, trace) && Narrow(trace, k)
    ensures trace[|moves|] == World(Step(rules, Gateway.INIT, Provisioning(budget)).0, [])
  {
    var op := Provisioning(budget);
    WitnessStart(rules, budget);
    AtOnce(rules, START, op);
    moves, trace := Extend(rules, [], [START], Ask(op), k);
    moves, trace := Extend(rules, moves, trace, Land(0), k);
  }

  function Xs(n: nat): (id: string)
    ensures |id| == n + 1 && id[0] == 'x'
  {
    if n == 0 then "x" else Xs(n - 1) + "x"
  }

  function ModelCalls(cost: int, k: nat): seq<Op> {
    seq(k, i requires 0 <= i < k => Calling(cost, Xs(i)))
  }

  /** A checked payment of 1 by the business. */
  function Paying(id: string): Op {
    Transfer("agent", PaymentTransfer(id, 1, "p", "", Some("checker"), "EUR", "", Some(WITNESS)),
             Checks(true, Signals(true, true)), id, true)
  }

  function Payments(k: nat): seq<Op> {
    seq(k, i requires 0 <= i < k => Paying(Xs(i)))
  }

  lemma ModelCallsBook(rules: Rules, budget: nat, cost: int, k: nat)
    requires 0 < cost <= rules.cap
    ensures var s := Step(rules, Gateway.INIT, Provisioning(budget)).0;
      AllBook(rules, s, ModelCalls(cost, k), LlmAccount(WITNESS), cost)
  {
    var s := Step(rules, Gateway.INIT, Provisioning(budget)).0;
    WitnessStart(rules, budget);
    forall i: nat | i < k ensures Books(rules, s, Calling(cost, Xs(i)), LlmAccount(WITNESS), cost) {
      WitnessUnused(rules, budget, Xs(i));
      MeteringIs("agent", WITNESS, "default", cost, Xs(i), Xs(i));
    }
  }

  lemma PaymentsBook(rules: Rules, k: nat)
    ensures AllBook(rules, Step(rules, Gateway.INIT, Provisioning(0)).0, Payments(k), CashAccount(WITNESS), 0 - 1)
  {
    var s := Step(rules, Gateway.INIT, Provisioning(0)).0;
    WitnessStart(rules, 0);
    TenantAccounts(WITNESS);
    forall i: nat | i < k ensures Books(rules, s, Paying(Xs(i)), CashAccount(WITNESS), 0 - 1) {
      WitnessUnused(rules, 0, Xs(i));
      PayingBooks(rules, Xs(i));
    }
  }

  lemma PayingBooks(rules: Rules, id: string)
    requires Tenant(WITNESS)
    ensures var txn := TransactionOf(Paying(id));
      Valid(txn, rules.cap, rules.approved) && SumOf(txn.postings, At(CashAccount(WITNESS))) == 0 - 1
  {
    var txn := TransactionOf(Paying(id));
    TenantAccounts(WITNESS);
    TwoPostings(txn.postings[0], txn.postings[1], AMOUNT);
    TwoPostings(txn.postings[0], txn.postings[1], At(CashAccount(WITNESS)));
    assert "agent"[0] != "checker"[0];
    ValidIff(txn, rules.cap, rules.approved);
  }

  lemma ModelCallsPass(s: GatewayState, cost: nat, k: nat)
    requires WITNESS in s.businesses && s.businesses[WITNESS].blueprint.llmBudget == cost && Llm(s, WITNESS) == 0
    ensures forall op :: op in ModelCalls(cost, k) ==> !op.Provision? && Passes(s, op)
  {}

  lemma PaymentsPass(rules: Rules, k: nat)
    ensures var s := Step(rules, Gateway.INIT, Provisioning(0)).0;
      forall op :: op in Payments(k) ==> !op.Provision? && Passes(s, op)
  {
    WitnessStart(rules, 0);
    ProvisionExactly(rules, Gateway.INIT, Provisioning(0), WITNESS);
  }

  lemma SameBook(rules: Rules, s: GatewayState, t: GatewayState, queue: seq<Op>, account: string, delta: int)
    requires AllBook(rules, s, queue, account, delta) && t.db == s.db
    ensures AllBook(rules, t, queue, account, delta)
  {
    forall i {:trigger queue[i]} | 0 <= i < |queue| ensures Books(rules, t, queue[i], account, delta) {
      assert Books(rules, s, queue[i], account, delta);
    }
  }

  /** The budget's bound is reached for every k: k calls, each of the whole budget, that all ask before any lands. */
  lemma OvershootReached(rules: Rules, k: nat) returns (moves: seq<Move>, trace: seq<World>)
    requires rules.cap >= 1 && k >= 1
    ensures Behaviour(rules, moves, trace) && AtMost(trace, WITNESS, k)
    ensures var s := trace[|moves|].s;
      && WITNESS in s.businesses
      && Llm(s, WITNESS) == s.businesses[WITNESS].blueprint.llmBudget + (k - 1) * CapOf(rules)
  {
    var cap: nat := rules.cap;
    WitnessStart(rules, cap);
    ModelCallsBook(rules, cap, cap, k);
    moves, trace := Started(rules, cap, k);
    ModelCallsPass(trace[|moves|].s, cap, k);
    moves, trace := AskAll(rules, moves, trace, ModelCalls(cap, k), k);
    SameBook(rules, Step(rules, Gateway.INIT, Provisioning(cap)).0, trace[|moves|].s, trace[|moves|].open,
             LlmAccount(WITNESS), cap);
    moves, trace := LandAll(rules, moves, trace, LlmAccount(WITNESS), cap, k);
    NarrowAtMost(trace, WITNESS, k);
    OneMore(k - 1, cap);
  }

  /** And the cash bound for every k: k payments of 1, all covered when they ask, take a cash of 1 to 1 - k. */
  lemma ShortfallReached(rules: Rules, k: nat) returns (moves: seq<Move>, trace: seq<World>)
    requires k >= 1
    ensures Behaviour(rules, moves, trace) && AtMost(trace, WITNESS, k)
    ensures Cash(trace[|moves|].s, WITNESS) == 0 - (k - 1)
  {
    WitnessStart(rules, 0);
    PaymentsBook(rules, k);
    moves, trace := Started(rules, 0, k);
    PaymentsPass(rules, k);
    moves, trace := AskAll(rules, moves, trace, Payments(k), k);
    SameBook(rules, Step(rules, Gateway.INIT, Provisioning(0)).0, trace[|moves|].s, trace[|moves|].open,
             CashAccount(WITNESS), 0 - 1);
    moves, trace := LandAll(rules, moves, trace, CashAccount(WITNESS), 0 - 1, k);
    NarrowAtMost(trace, WITNESS, k);
  }
}
