/**
 * The relational ledger (src/ab_ledger/store.py): transaction headers with a unique idempotency key
 * and a primary key on the id, entries that refer to them. It refines the in-memory ledger.
 */
module LedgerStore {
  import opened Common
  import opened Ledger

  datatype Header = Header(txnId: string, key: string, maker: string, checker: Option<string>, magnitude: int,
                           currency: string, memo: string, businessId: Option<string>)

  datatype EntryRow = EntryRow(txnId: string, account: string, amount: int, currency: string)

  datatype Db = Db(headers: seq<Header>, rows: seq<EntryRow>)

  /** Besides the ledger's own rules, the primary key can refuse an insert. */
  datatype StoreError = Rule(error: LedgerError) | DuplicateTxnId(txnId: string)

  const EMPTY_DB := Db([], [])

  function HeaderOf(txn: Transaction): Header {
    Header(txn.txnId, txn.key, txn.maker, txn.checker, Magnitude(txn), txn.currency, txn.memo, txn.businessId)
  }

  function RowsOf(txn: Transaction): seq<EntryRow> {
    seq(|txn.postings|, k requires 0 <= k < |txn.postings| =>
      EntryRow(txn.txnId, txn.postings[k].account, txn.postings[k].amount, txn.currency))
  }

  predicate HasKey(headers: seq<Header>, key: string) {
    exists k :: 0 <= k < |headers| && headers[k].key == key
  }

  predicate HasId(headers: seq<Header>, id: string) {
    exists k :: 0 <= k < |headers| && headers[k].txnId == id
  }

  /** The conflict clause names the key, so a known key is skipped before the primary key is looked at. */
  function DbPosted(db: Db, call: Call, approved: set<string>): (Db, Result<bool, StoreError>) {
    var txn := call.txn;
    var error := Validate(txn, call.cap, approved);
    if error.Some? then (db, Err(Rule(error.value)))
    else if HasKey(db.headers, txn.key) then (db, Ok(false))
    else if HasId(db.headers, txn.txnId) then (db, Err(DuplicateTxnId(txn.txnId)))
    else (Db(db.headers + [HeaderOf(txn)], db.rows + RowsOf(txn)), Ok(true))
  }

  class Store {
    var headers: seq<Header>
    var rows: seq<EntryRow>
    /** The allow-list the process was started with: `post` offers no way to pass another. */
    const approved: set<string>

    ghost function Now(): Db
      reads this
    {
      Db(headers, rows)
    }

    constructor (approved: set<string>)
      ensures Now() == EMPTY_DB && this.approved == approved
    {
      headers, rows := [], [];
      this.approved := approved;
    }

    method Post(txn: Transaction, cap: int) returns (r: Result<bool, StoreError>)
      modifies this
      ensures (Now(), r) == DbPosted(old(Now()), Call(txn, cap), approved)
    {
      var error := Validate(txn, cap, approved);
      if error.Some? {
        return Err(Rule(error.value));
      }
      if HasKey(headers, txn.key) {
        return Ok(false);
      }
      if HasId(headers, txn.txnId) {
        return Err(DuplicateTxnId(txn.txnId));
      }
      headers := headers + [HeaderOf(txn)];
      for k := 0 to |txn.postings|
        invariant headers == old(headers) + [HeaderOf(txn)]
        invariant rows == old(rows) + RowsOf(txn)[..k]
      {
        var p := txn.postings[k];
        rows := rows + [EntryRow(txn.txnId, p.account, p.amount, txn.currency)];
      }
      assert RowsOf(txn)[..|txn.postings|] == RowsOf(txn);
      return Ok(true);
    }
  }

  // ---------------------------------------------------------------- refinement

  function FlatRows(txns: seq<Transaction>): seq<EntryRow> {
    if txns == [] then [] else FlatRows(txns[..|txns| - 1]) + RowsOf(txns[|txns| - 1])
  }

  ghost predicate DistinctIds(headers: seq<Header>) {
    forall i, j :: 0 <= i < j < |headers| ==> headers[i].txnId != headers[j].txnId
  }

  /** The tables hold what the in-memory ledger holds, and no id twice. */
  ghost predicate Refines(db: Db, s: State) {
    && |db.headers| == |s.txns|
    && (forall k :: 0 <= k < |s.txns| ==> db.headers[k] == HeaderOf(s.txns[k]))
    && db.rows == FlatRows(s.txns)
    && s.entries == Flat(s.txns)
    && (forall key :: key in s.keys <==> HasKey(db.headers, key))
    && DistinctIds(db.headers)
  }

  function Lift(r: Result<bool, LedgerError>): Result<bool, StoreError> {
    match r
    case Ok(applied) => Ok(applied)
    case Err(error) => Err(Rule(error))
  }

  /** A valid transaction with a fresh key but a used id: the one call the tables refuse and the memory applies. */
  predicate Clashes(db: Db, call: Call, approved: set<string>) {
    ValidCall(call, approved) && !HasKey(db.headers, call.txn.key) && HasId(db.headers, call.txn.txnId)
  }

  lemma HasKeySnoc(headers: seq<Header>, h: Header, key: string)
    ensures HasKey(headers + [h], key) <==> HasKey(headers, key) || h.key == key
  {
    var more := headers + [h];
    if HasKey(headers, key) {
      var k :| 0 <= k < |headers| && headers[k].key == key;
      assert more[k].key == key;
    }
    if h.key == key { assert more[|headers|].key == key; }
  }

  lemma HasIdSnoc(headers: seq<Header>, h: Header, id: string)
    ensures HasId(headers + [h], id) <==> HasId(headers, id) || h.txnId == id
  {
    var more := headers + [h];
    if HasId(headers, id) {
      var k :| 0 <= k < |headers| && headers[k].txnId == id;
      assert more[k].txnId == id;
    }
    if h.txnId == id { assert more[|headers|].txnId == id; }
  }

  /**
   * One call: the two stores return the same and stay in step iff the id does not clash; if it does,
   * only the tables refuse.
   */
  lemma PostRefines(db: Db, s: State, call: Call, approved: set<string>)
    requires Refines(db, s)
    ensures var ((db', r), (s', q)) := (DbPosted(db, call, approved), Posted(s, call, approved));
      && (!Clashes(db, call, approved) ==> r == Lift(q) && Refines(db', s'))
      && (Clashes(db, call, approved) ==> r == Err(DuplicateTxnId(call.txn.txnId)) && db' == db && q == Ok(true))
  {}

  function DbRun(calls: seq<Call>, approved: set<string>): Db {
    if calls == [] then EMPTY_DB
    else DbPosted(DbRun(calls[..|calls| - 1], approved), calls[|calls| - 1], approved).0
  }

  /** Every id belongs to one key: the ids are fresh for each transaction, replays aside. */
  ghost predicate FreshIds(calls: seq<Call>) {
    forall i, j :: 0 <= i < j < |calls| && calls[i].txn.txnId == calls[j].txn.txnId ==>
      calls[i].txn.key == calls[j].txn.key
  }

  /** Over every run with fresh ids the tables refine the in-memory ledger and every call returns the same. */
  lemma {:induction false} RunRefines(calls: seq<Call>, approved: set<string>, n: nat)
    requires FreshIds(calls) && n <= |calls|
    ensures Refines(DbRun(calls[..n], approved), Run(calls[..n], approved))
    ensures n < |calls| ==>
      DbPosted(DbRun(calls[..n], approved), calls[n], approved).1 == Lift(ResultAt(calls, approved, n))
  {
    if n > 0 {
      RunRefines(calls, approved, n - 1);
      assert calls[..n][..n - 1] == calls[..n - 1];
      NoClash(calls, approved, n - 1);
      PostRefines(DbRun(calls[..n - 1], approved), Run(calls[..n - 1], approved), calls[n - 1], approved);
    }
    if n < |calls| {
      NoClash(calls, approved, n);
      PostRefines(DbRun(calls[..n], approved), Run(calls[..n], approved), calls[n], approved);
    }
  }

  lemma NoClash(calls: seq<Call>, approved: set<string>, n: nat)
    requires FreshIds(calls) && n < |calls| && Refines(DbRun(calls[..n], approved), Run(calls[..n], approved))
    ensures !Clashes(DbRun(calls[..n], approved), calls[n], approved)
  {
    var db, s := DbRun(calls[..n], approved), Run(calls[..n], approved);
    if HasId(db.headers, calls[n].txn.txnId) {
      var k :| 0 <= k < |db.headers| && db.headers[k].txnId == calls[n].txn.txnId;
      RunIsFirsts(calls, approved, n);
      FirstsValid(calls, approved, n, k);
      var i :| 0 <= i < n && ValidCall(calls[i], approved) && calls[i].txn == s.txns[k];
      assert db.headers[k] == HeaderOf(s.txns[k]);
    }
  }

  /** Such a clash is reachable: two checked transactions with fresh keys and one id, under any cap and allow-list. */
  lemma ClashReachable(cap: int, approved: set<string>) returns (calls: seq<Call>)
    ensures |calls| == 2 && Clashes(DbRun(calls[..1], approved), calls[1], approved)
    ensures |DbRun(calls, approved).headers| == 1 && |Run(calls, approved).txns| == 2
  {
    var postings := [Posting("a", 1)] + [Posting("b", 0 - 1)];
    var t := Transaction("t", "k1", postings, "maker", Some("checker"), "EUR", "", None, None);
    var u := t.(key := "k2");
    SumOfSnoc([Posting("a", 1)], Posting("b", 0 - 1), AMOUNT);
    SumOfSnoc([], Posting("a", 1), AMOUNT);
    assert [] + [Posting("a", 1)] == [Posting("a", 1)];
    ValidIff(t, cap, approved);
    ValidIff(u, cap, approved);
    assert t.checker.value[0] != t.maker[0];
    calls := [Call(t, cap)] + [Call(u, cap)];
    assert calls[..1] == [Call(t, cap)] && calls[..1][..0] == [];
    assert DbRun(calls[..1], approved).headers == [] + [HeaderOf(t)];
    HasIdSnoc([], HeaderOf(t), "t");
    HasKeySnoc([], HeaderOf(t), "k2");
    assert "k1"[1] != "k2"[1];
    assert Run(calls[..1], approved).txns == [] + [t] && Run(calls[..1], approved).keys == {"k1"};
  }

  // ---------------------------------------------------------------- queries

  const ROW_AMOUNT: EntryRow -> int := (r: EntryRow) => r.amount

  function RowAt(account: string): EntryRow -> int {
    (r: EntryRow) => if r.account == account then r.amount else 0
  }

  /** SELECT coalesce(sum(amount), 0) ... WHERE account = ... */
  function AccountBalance(db: Db, account: string): int {
    SumOf(db.rows, RowAt(account))
  }

  lemma {:induction false} SumAligned<S, T>(a: seq<S>, b: seq<T>, f: S -> int, g: T -> int)
    requires |a| == |b| && forall k :: 0 <= k < |a| ==> f(a[k]) == g(b[k])
    ensures SumOf(a, f) == SumOf(b, g)
  {
    if a != [] {
      SumAligned(a[..|a| - 1], b[..|b| - 1], f, g);
    }
  }

  lemma {:induction false} RowsAligned(txns: seq<Transaction>)
    ensures |FlatRows(txns)| == |Flat(txns)|
    ensures forall k :: 0 <= k < |Flat(txns)| ==>
      Posting(FlatRows(txns)[k].account, FlatRows(txns)[k].amount) == Flat(txns)[k]
  {
    if txns != [] {
      RowsAligned(txns[..|txns| - 1]);
    }
  }

  /** Every balance and the trial balance agree. */
  lemma BalancesAgree(db: Db, s: State, account: string)
    requires Refines(db, s)
    ensures AccountBalance(db, account) == SumOf(s.entries, At(account))
    ensures SumOf(db.rows, ROW_AMOUNT) == SumOf(s.entries, AMOUNT)
  {
    RowsAligned(s.txns);
    forall k | 0 <= k < |db.rows|
      ensures RowAt(account)(db.rows[k]) == At(account)(s.entries[k]) && ROW_AMOUNT(db.rows[k]) == AMOUNT(s.entries[k])
    {
      assert Posting(db.rows[k].account, db.rows[k].amount) == s.entries[k];
    }
    SumAligned(db.rows, s.entries, RowAt(account), At(account));
    SumAligned(db.rows, s.entries, ROW_AMOUNT, AMOUNT);
  }

  /** In memory: the outbound postings of each of the business's transactions. */
  function NestedSpend(txns: seq<Transaction>, business: string): int {
    if txns == [] then 0
    else
      var txn := txns[|txns| - 1];
      NestedSpend(txns[..|txns| - 1], business)
      + (if txn.businessId == Some(business) then SumOf(txn.postings, OUTBOUND_AMOUNT) else 0)
  }

  /** What an entry contributes for one header it may be joined with. */
  function JoinedWith(r: EntryRow, business: string): Header -> int {
    (h: Header) => if r.txnId == h.txnId && h.businessId == Some(business) && Outbound(Posting(r.account, r.amount))
                   then r.amount else 0
  }

  function JoinedRow(headers: seq<Header>, business: string): EntryRow -> int {
    (r: EntryRow) => SumOf(headers, JoinedWith(r, business))
  }

  /** In SQL: entries joined with headers on the id, filtered on the header's business. */
  function JoinedSpend(db: Db, business: string): int {
    SumOf(db.rows, JoinedRow(db.headers, business))
  }

  lemma {:induction false} NoMatch(headers: seq<Header>, f: Header -> int)
    requires forall h :: h in headers ==> f(h) == 0
    ensures SumOf(headers, f) == 0
  {
    if headers != [] {
      NoMatch(headers[..|headers| - 1], f);
      assert headers[|headers| - 1] in headers;
    }
  }

  /** The primary key leaves one header to join with. */
  lemma {:induction false} OneMatch(headers: seq<Header>, k: nat, r: EntryRow, business: string)
    requires DistinctIds(headers) && k < |headers| && r.txnId == headers[k].txnId
    ensures SumOf(headers, JoinedWith(r, business)) == JoinedWith(r, business)(headers[k])
  {
    var n := |headers| - 1;
    if k < n {
      OneMatch(headers[..n], k, r, business);
    } else {
      forall h | h in headers[..n] ensures JoinedWith(r, business)(h) == 0 {
        var j :| 0 <= j < n && headers[..n][j] == h;
        assert headers[j] == h;
      }
      NoMatch(headers[..n], JoinedWith(r, business));
    }
  }

  lemma RowsJoined(db: Db, s: State, business: string, k: nat)
    requires Refines(db, s) && k < |s.txns|
    ensures SumOf(RowsOf(s.txns[k]), JoinedRow(db.headers, business))
      == if s.txns[k].businessId == Some(business) then SumOf(s.txns[k].postings, OUTBOUND_AMOUNT) else 0
  {
    var txn, rows := s.txns[k], RowsOf(s.txns[k]);
    var mine := (p: Posting) => if txn.businessId == Some(business) then OUTBOUND_AMOUNT(p) else 0;
    assert db.headers[k] == HeaderOf(txn);
    forall j | 0 <= j < |rows| ensures JoinedRow(db.headers, business)(rows[j]) == mine(txn.postings[j]) {
      OneMatch(db.headers, k, rows[j], business);
    }
    SumAligned(rows, txn.postings, JoinedRow(db.headers, business), mine);
    AllOrNothing(txn, business, mine);
  }

  lemma AllOrNothing(txn: Transaction, business: string, mine: Posting -> int)
    requires forall p :: p in txn.postings ==>
      mine(p) == if txn.businessId == Some(business) then OUTBOUND_AMOUNT(p) else 0
    ensures SumOf(txn.postings, mine)
      == if txn.businessId == Some(business) then SumOf(txn.postings, OUTBOUND_AMOUNT) else 0
  {
    if txn.businessId == Some(business) {
      SumAligned(txn.postings, txn.postings, mine, OUTBOUND_AMOUNT);
    } else {
      var zero := (p: Posting) => 0;
      SumAligned(txn.postings, txn.postings, mine, zero);
      Zeros(txn.postings, zero);
    }
  }

  lemma {:induction false} Zeros(postings: seq<Posting>, f: Posting -> int)
    requires forall p :: f(p) == 0
    ensures SumOf(postings, f) == 0
  {
    if postings != [] {
      Zeros(postings[..|postings| - 1], f);
    }
  }

  lemma {:induction false} SpendUpTo(db: Db, s: State, business: string, n: nat)
    requires Refines(db, s) && n <= |s.txns|
    ensures SumOf(FlatRows(s.txns[..n]), JoinedRow(db.headers, business)) == NestedSpend(s.txns[..n], business)
  {
    if n > 0 {
      SpendUpTo(db, s, business, n - 1);
      assert s.txns[..n][..n - 1] == s.txns[..n - 1];
      RowsJoined(db, s, business, n - 1);
      SumOfConcat(FlatRows(s.txns[..n - 1]), RowsOf(s.txns[n - 1]), JoinedRow(db.headers, business));
    }
  }

  /** What one transaction pays outsiders is what its outbound debits come to, so never negative. */
  lemma {:induction false} OutboundTotal(postings: seq<Posting>)
    ensures SumOf(postings, OUTBOUND_AMOUNT) >= 0
    ensures SumOf(postings, OUTBOUND_AMOUNT) <= SumOf(postings, DEBIT)
    ensures (forall p :: p in postings && p.amount > 0 ==> Outbound(p)) ==>
      SumOf(postings, OUTBOUND_AMOUNT) == SumOf(postings, DEBIT)
  {
    if postings != [] {
      OutboundTotal(postings[..|postings| - 1]);
      assert postings[|postings| - 1] in postings;
    }
  }

  /**
   * A transaction of the business whose every debit goes to an outsider raises its spend by the money
   * moved; one of another business leaves it alone.
   */
  lemma SpendRises(txns: seq<Transaction>, txn: Transaction, business: string)
    ensures NestedSpend(txns, business) <= NestedSpend(txns + [txn], business)
    ensures txn.businessId != Some(business) ==> NestedSpend(txns + [txn], business) == NestedSpend(txns, business)
    ensures txn.businessId == Some(business) && (forall p :: p in txn.postings && p.amount > 0 ==> Outbound(p)) ==>
      NestedSpend(txns + [txn], business) == NestedSpend(txns, business) + SumOf(txn.postings, DEBIT)
  {
    assert (txns + [txn])[..|txns|] == txns;
    OutboundTotal(txn.postings);
  }

  /** What a business paid outsiders: the entries-join-headers sum equals the nested per-transaction sum. */
  lemma SpendAgrees(db: Db, s: State, business: string)
    requires Refines(db, s)
    ensures JoinedSpend(db, business) == NestedSpend(s.txns, business)
  {
    assert s.txns[..|s.txns|] == s.txns;
    SpendUpTo(db, s, business, |s.txns|);
  }
}
