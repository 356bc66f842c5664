/**
 * Double-entry bookkeeping (src/ab_ledger/core.py): validation with maker-checker rules, and the
 * append-only, idempotent in-memory ledger.
 */
module Ledger {
  import opened Common

  const EXTERNAL_ACCOUNT_PREFIX := "external:"

  /** Signed minor units: + debit, - credit. */
  datatype Posting = Posting(account: string, amount: int)

  datatype Transaction = Transaction(txnId: string, key: string, postings: seq<Posting>, maker: string,
                                     checker: Option<string>, currency: string, memo: string,
                                     payee: Option<string>, businessId: Option<string>)

  datatype LedgerError =
    | NoPostings
    | Unbalanced(total: int)
    | ApprovalRequired(reason: ApprovalReason)
    | SeparationOfDuties(maker: string)

  datatype ApprovalReason = OverCap(magnitude: int, cap: int) | UnlistedPayees(payees: set<string>)

  // ---------------------------------------------------------------- sums over postings

  function SumOf<T>(s: seq<T>, f: T -> int): int {
    if s == [] then 0 else SumOf(s[..|s| - 1], f) + f(s[|s| - 1])
  }

  lemma SumOfSnoc<T>(s: seq<T>, x: T, f: T -> int)
    ensures SumOf(s + [x], f) == SumOf(s, f) + f(x)
  {}

  lemma {:induction false} SumOfConcat<T>(a: seq<T>, b: seq<T>, f: T -> int)
    ensures SumOf(a + b, f) == SumOf(a, f) + SumOf(b, f)
  {
    if b == [] {
      assert a + b == a;
    } else {
      var n := |b| - 1;
      SumOfConcat(a, b[..n], f);
      assert a + b == a + b[..n] + [b[n]];
      SumOfSnoc(a + b[..n], b[n], f);
    }
  }

  const AMOUNT: Posting -> int := (p: Posting) => p.amount

  const DEBIT: Posting -> int := (p: Posting) => if p.amount > 0 then p.amount else 0

  function At(account: string): Posting -> int {
    (p: Posting) => if p.account == account then p.amount else 0
  }

  /** Money leaving to an outsider. */
  predicate Outbound(p: Posting) {
    EXTERNAL_ACCOUNT_PREFIX <= p.account && p.amount > 0
  }

  const OUTBOUND_AMOUNT: Posting -> int := (p: Posting) => if Outbound(p) then p.amount else 0

  // ---------------------------------------------------------------- validation

  function Magnitude(txn: Transaction): int {
    SumOf(txn.postings, DEBIT)
  }

  /** Counterparties: every external account debited, and the explicit payee. */
  function Payees(txn: Transaction): set<string> {
    (set p | p in txn.postings && Outbound(p) :: p.account[|EXTERNAL_ACCOUNT_PREFIX|..])
    + (if txn.payee.Some? then {txn.payee.value} else {})
  }

  function Approval(txn: Transaction, cap: int, approved: set<string>): Option<ApprovalReason> {
    if Magnitude(txn) > cap then Some(OverCap(Magnitude(txn), cap))
    else if Payees(txn) - approved != {} then Some(UnlistedPayees(Payees(txn) - approved))
    else None
  }

  function Validate(txn: Transaction, cap: int, approved: set<string>): Option<LedgerError> {
    if txn.postings == [] then Some(NoPostings)
    else if SumOf(txn.postings, AMOUNT) != 0 then Some(Unbalanced(SumOf(txn.postings, AMOUNT)))
    else
      var reason := Approval(txn, cap, approved);
      if reason.Some? && txn.checker == None then Some(ApprovalRequired(reason.value))
      else if reason.Some? && txn.checker == Some(txn.maker) then Some(SeparationOfDuties(txn.maker))
      else None
  }

  predicate Valid(txn: Transaction, cap: int, approved: set<string>) {
    Validate(txn, cap, approved) == None
  }

  predicate DualControl(txn: Transaction) {
    txn.checker.Some? && txn.checker.value != txn.maker
  }

  /** Posting k sends money to the party. */
  predicate Paid(postings: seq<Posting>, k: int, party: string) {
    0 <= k < |postings| && postings[k].account == EXTERNAL_ACCOUNT_PREFIX + party && postings[k].amount > 0
  }

  ghost predicate PaysOnly(txn: Transaction, approved: set<string>) {
    && (txn.payee.Some? ==> txn.payee.value in approved)
    && forall k, party {:trigger Paid(txn.postings, k, party)} :: Paid(txn.postings, k, party) ==> party in approved
  }

  lemma PaidIsPayee(txn: Transaction, k: nat, party: string)
    requires Paid(txn.postings, k, party)
    ensures party in Payees(txn)
  {}

  lemma PayeeIsPaid(txn: Transaction, party: string) returns (k: nat)
    requires party in Payees(txn) && txn.payee != Some(party)
    ensures Paid(txn.postings, k, party)
  {
    var p :| p in txn.postings && Outbound(p) && p.account[|EXTERNAL_ACCOUNT_PREFIX|..] == party;
    k :| 0 <= k < |txn.postings| && txn.postings[k] == p;
  }

  lemma PaysOnlyIff(txn: Transaction, approved: set<string>)
    ensures Payees(txn) - approved == {} <==> PaysOnly(txn, approved)
  {
    if Payees(txn) - approved == {} {
      forall k, party | Paid(txn.postings, k, party) ensures party in approved {
        PaidIsPayee(txn, k, party);
        assert party !in Payees(txn) - approved;
      }
      if txn.payee.Some? {
        assert txn.payee.value !in Payees(txn) - approved;
      }
    } else {
      var party :| party in Payees(txn) - approved;
      if txn.payee != Some(party) {
        var k := PayeeIsPaid(txn, party);
      }
    }
  }

  /**
   * A transaction passes iff it balances and, unless a second person checked it, moves no more than
   * the cap and pays only listed parties: each one an external account names, and the explicit payee.
   */
  lemma ValidIff(txn: Transaction, cap: int, approved: set<string>)
    ensures Valid(txn, cap, approved) <==>
      && txn.postings != [] && SumOf(txn.postings, AMOUNT) == 0
      && (DualControl(txn) || (SumOf(txn.postings, DEBIT) <= cap && PaysOnly(txn, approved)))
  {
    PaysOnlyIff(txn, approved);
  }

  /** Moves more than the cap, or pays a party that is not listed. */
  ghost predicate NeedsApproval(txn: Transaction, cap: int, approved: set<string>) {
    SumOf(txn.postings, DEBIT) > cap || !PaysOnly(txn, approved)
  }

  /** Every refusal, exactly: nothing posted, an imbalance, no second person where one is needed, or the same one. */
  lemma RefusedIff(txn: Transaction, cap: int, approved: set<string>)
    ensures var error, total := Validate(txn, cap, approved), SumOf(txn.postings, AMOUNT);
      var sound := txn.postings != [] && total == 0;
      && (error == Some(NoPostings) <==> txn.postings == [])
      && (forall t :: error == Some(Unbalanced(t)) <==> txn.postings != [] && t == total != 0)
      && (error.Some? && error.value.ApprovalRequired? <==>
            sound && txn.checker == None && NeedsApproval(txn, cap, approved))
      && (forall m :: error == Some(SeparationOfDuties(m)) <==>
            sound && txn.checker == Some(m) && m == txn.maker && NeedsApproval(txn, cap, approved))
      && (error.Some? && error.value.ApprovalRequired? ==>
            var moved := SumOf(txn.postings, DEBIT);
            if moved > cap then error.value.reason == OverCap(moved, cap)
            else error.value.reason.UnlistedPayees? && forall p :: p in error.value.reason.payees <==>
                p !in approved && (txn.payee == Some(p) || exists k :: Paid(txn.postings, k, p)))
  {
    PaysOnlyIff(txn, approved);
    forall p ensures p in Payees(txn) <==> txn.payee == Some(p) || exists k :: Paid(txn.postings, k, p) {
      if p in Payees(txn) && txn.payee != Some(p) { var k := PayeeIsPaid(txn, p); }
      if exists k :: Paid(txn.postings, k, p) {
        var k :| Paid(txn.postings, k, p);
        PaidIsPayee(txn, k, p);
      }
    }
  }

  /** Debits of a balanced transaction equal its credits, so the magnitude is the money moved. */
  lemma {:induction false} DebitsLessCredits(postings: seq<Posting>)
    ensures SumOf(postings, AMOUNT)
        == SumOf(postings, DEBIT) - SumOf(postings, (p: Posting) => if p.amount < 0 then 0 - p.amount else 0)
  {
    if postings != [] {
      DebitsLessCredits(postings[..|postings| - 1]);
    }
  }

  // ---------------------------------------------------------------- the ledger

  datatype State = State(entries: seq<Posting>, keys: set<string>, txns: seq<Transaction>)

  const EMPTY := State([], {}, [])

  /** One call of `post`; the cap is the caller's. */
  datatype Call = Call(txn: Transaction, cap: int)

  function Posted(s: State, call: Call, approved: set<string>): (State, Result<bool, LedgerError>) {
    var txn := call.txn;
    var error := Validate(txn, call.cap, approved);
    if error.Some? then (s, Err(error.value))
    else if txn.key in s.keys then (s, Ok(false))
    else (State(s.entries + txn.postings, s.keys + {txn.key}, s.txns + [txn]), Ok(true))
  }

  function Run(calls: seq<Call>, approved: set<string>): State {
    if calls == [] then EMPTY
    else Posted(Run(calls[..|calls| - 1], approved), calls[|calls| - 1], approved).0
  }

  /** The result of call i within a run. */
  function ResultAt(calls: seq<Call>, approved: set<string>, i: nat): Result<bool, LedgerError>
    requires i < |calls|
  {
    Posted(Run(calls[..i], approved), calls[i], approved).1
  }

  class InMemoryLedger {
    var entries: seq<Posting>
    var keys: set<string>
    var txns: seq<Transaction>

    ghost function Now(): State
      reads this
    {
      State(entries, keys, txns)
    }

    constructor ()
      ensures Now() == EMPTY
    {
      entries, keys, txns := [], {}, [];
    }

    method Post(txn: Transaction, cap: int, approved: set<string>) returns (r: Result<bool, LedgerError>)
      modifies this
      ensures (Now(), r) == Posted(old(Now()), Call(txn, cap), approved)
    {
      var error := Validate(txn, cap, approved);
      if error.Some? {
        return Err(error.value);
      }
      if txn.key in keys {
        return Ok(false);
      }
      keys := keys + {txn.key};
      entries := entries + txn.postings;
      txns := txns + [txn];
      return Ok(true);
    }
  }

  // ---------------------------------------------------------------- first valid occurrences

  predicate ValidCall(call: Call, approved: set<string>) {
    Valid(call.txn, call.cap, approved)
  }

  /** Call i is the first valid one with its key. */
  predicate First(calls: seq<Call>, approved: set<string>, i: nat)
    requires i < |calls|
  {
    && ValidCall(calls[i], approved)
    && forall j :: 0 <= j < i && ValidCall(calls[j], approved) ==> calls[j].txn.key != calls[i].txn.key
  }

  function FirstsUpTo(calls: seq<Call>, approved: set<string>, n: nat): seq<Transaction>
    requires n <= |calls|
  {
    if n == 0 then []
    else
      var before := FirstsUpTo(calls, approved, n - 1);
      if First(calls, approved, n - 1) then before + [calls[n - 1].txn] else before
  }

  function Flat(txns: seq<Transaction>): seq<Posting> {
    if txns == [] then [] else Flat(txns[..|txns| - 1]) + txns[|txns| - 1].postings
  }

  /** Some valid call of the first n carries this key. */
  predicate Used(calls: seq<Call>, approved: set<string>, n: nat, key: string)
    requires n <= |calls|
  {
    exists i :: 0 <= i < n && ValidCall(calls[i], approved) && calls[i].txn.key == key
  }

  function Expected(calls: seq<Call>, approved: set<string>, i: nat): Result<bool, LedgerError>
    requires i < |calls|
  {
    if ValidCall(calls[i], approved) then Ok(First(calls, approved, i))
    else Err(Validate(calls[i].txn, calls[i].cap, approved).value)
  }

  /**
   * Whatever the replays and rejections, the ledger is the fold over the first valid occurrence of
   * each idempotency key; a call returns true iff it is such an occurrence, false iff it is valid
   * and repeats one, and the validation error otherwise.
   */
  lemma {:induction false} RunIsFirsts(calls: seq<Call>, approved: set<string>, n: nat)
    requires n <= |calls|
    ensures var s := Run(calls[..n], approved);
      && s.txns == FirstsUpTo(calls, approved, n)
      && s.entries == Flat(s.txns)
      && forall key :: key in s.keys <==> Used(calls, approved, n, key)
    ensures n < |calls| ==> ResultAt(calls, approved, n) == Expected(calls, approved, n)
  {
    if n > 0 {
      RunIsFirsts(calls, approved, n - 1);
      assert calls[..n][..n - 1] == calls[..n - 1];
      var s, t := Run(calls[..n - 1], approved), Run(calls[..n], approved);
      var txn := calls[n - 1].txn;
      assert t == Posted(s, calls[n - 1], approved).0;
      if First(calls, approved, n - 1) {
        assert t.txns[..|s.txns|] == s.txns;
      }
      forall key ensures key in t.keys <==> Used(calls, approved, n, key) {
        if Used(calls, approved, n, key) && !Used(calls, approved, n - 1, key) {
          assert ValidCall(calls[n - 1], approved) && txn.key == key;
        }
        if key in t.keys && key !in s.keys {
          assert ValidCall(calls[n - 1], approved) && txn.key == key;
        }
      }
    }
  }

  /** Each key is applied exactly once if a valid call carries it, and never otherwise. */
  lemma {:induction false} AppliedOnce(calls: seq<Call>, approved: set<string>, n: nat, key: string)
    requires n <= |calls|
    ensures Count(Run(calls[..n], approved).txns, (t: Transaction) => t.key == key)
      == if Used(calls, approved, n, key) then 1 else 0
  {
    var p := (t: Transaction) => t.key == key;
    RunIsFirsts(calls, approved, n);
    if n > 0 {
      AppliedOnce(calls, approved, n - 1, key);
      RunIsFirsts(calls, approved, n - 1);
      CountSnoc(FirstsUpTo(calls, approved, n - 1), calls[n - 1].txn, p);
      if Used(calls, approved, n, key) && !Used(calls, approved, n - 1, key) {
        assert ValidCall(calls[n - 1], approved) && calls[n - 1].txn.key == key;
      }
    }
  }

  // ---------------------------------------------------------------- balances

  ghost predicate Balanced(txns: seq<Transaction>) {
    forall k :: 0 <= k < |txns| ==> SumOf(txns[k].postings, AMOUNT) == 0
  }

  lemma {:induction false} FlatSum(txns: seq<Transaction>)
    requires Balanced(txns)
    ensures SumOf(Flat(txns), AMOUNT) == 0
  {
    if txns != [] {
      FlatSum(txns[..|txns| - 1]);
      SumOfConcat(Flat(txns[..|txns| - 1]), txns[|txns| - 1].postings, AMOUNT);
    }
  }

  lemma {:induction false} FirstsValid(calls: seq<Call>, approved: set<string>, n: nat, k: nat)
    requires n <= |calls| && k < |FirstsUpTo(calls, approved, n)|
    ensures exists i :: 0 <= i < n && ValidCall(calls[i], approved) && calls[i].txn == FirstsUpTo(calls, approved, n)[k]
  {
    if k < |FirstsUpTo(calls, approved, n - 1)| {
      FirstsValid(calls, approved, n - 1, k);
    }
  }

  /** The trial balance is zero after any calls. */
  lemma TrialBalanceZero(calls: seq<Call>, approved: set<string>)
    ensures SumOf(Run(calls, approved).entries, AMOUNT) == 0
  {
    var n := |calls|;
    assert calls[..n] == calls;
    RunIsFirsts(calls, approved, n);
    forall k | 0 <= k < |FirstsUpTo(calls, approved, n)|
      ensures SumOf(FirstsUpTo(calls, approved, n)[k].postings, AMOUNT) == 0
    {
      FirstsValid(calls, approved, n, k);
    }
    FlatSum(FirstsUpTo(calls, approved, n));
  }

  /** No transaction over its call's cap, or to an unlisted party, stands without a second person's check. */
  lemma AppliedUnderControl(calls: seq<Call>, approved: set<string>, k: nat)
    requires k < |Run(calls, approved).txns|
    ensures var txn := Run(calls, approved).txns[k];
      exists i :: 0 <= i < |calls| && calls[i].txn == txn
        && (DualControl(txn) || (Magnitude(txn) <= calls[i].cap && Payees(txn) <= approved))
  {
    var n := |calls|;
    assert calls[..n] == calls;
    RunIsFirsts(calls, approved, n);
    FirstsValid(calls, approved, n, k);
    var i :| 0 <= i < n && ValidCall(calls[i], approved) && calls[i].txn == FirstsUpTo(calls, approved, n)[k];
    var txn := calls[i].txn;
    if !DualControl(txn) {
      assert Approval(txn, calls[i].cap, approved) == None;
      assert Payees(txn) - approved == {};
      forall party | party in Payees(txn) ensures party in approved {
        assert party !in Payees(txn) - approved;
      }
    }
  }

  function Balances(entries: seq<Posting>, accounts: seq<string>): int {
    if accounts == [] then 0
    else Balances(entries, accounts[..|accounts| - 1]) + SumOf(entries, At(accounts[|accounts| - 1]))
  }

  ghost predicate Listing(entries: seq<Posting>, accounts: seq<string>) {
    && (forall i, j :: 0 <= i < j < |accounts| ==> accounts[i] != accounts[j])
    && forall k :: 0 <= k < |entries| ==> entries[k].account in accounts
  }

  lemma {:induction false} BalancesStep(entries: seq<Posting>, p: Posting, accounts: seq<string>)
    requires forall i, j :: 0 <= i < j < |accounts| ==> accounts[i] != accounts[j]
    ensures Balances(entries + [p], accounts)
        == Balances(entries, accounts) + (if p.account in accounts then p.amount else 0)
  {
    if accounts != [] {
      var n := |accounts| - 1;
      assert accounts == accounts[..n] + [accounts[n]];
      BalancesStep(entries, p, accounts[..n]);
      SumOfSnoc(entries, p, At(accounts[n]));
    }
  }

  /** The balances of all accounts, each counted once, add up to the entries. */
  lemma {:induction false} BalancesAddUp(entries: seq<Posting>, accounts: seq<string>)
    requires Listing(entries, accounts)
    ensures Balances(entries, accounts) == SumOf(entries, AMOUNT)
  {
    if entries == [] {
      NoBalances(accounts);
    } else {
      var n := |entries| - 1;
      BalancesAddUp(entries[..n], accounts);
      assert entries == entries[..n] + [entries[n]];
      BalancesStep(entries[..n], entries[n], accounts);
    }
  }

  lemma {:induction false} NoBalances(accounts: seq<string>)
    ensures Balances([], accounts) == 0
  {
    if accounts != [] {
      NoBalances(accounts[..|accounts| - 1]);
    }
  }

  /** The books close: over any list of all accounts used, the balances cancel. */
  lemma AccountsCancel(calls: seq<Call>, approved: set<string>, accounts: seq<string>)
    requires Listing(Run(calls, approved).entries, accounts)
    ensures Balances(Run(calls, approved).entries, accounts) == 0
  {
    BalancesAddUp(Run(calls, approved).entries, accounts);
    TrialBalanceZero(calls, approved);
  }
}
