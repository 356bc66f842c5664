/**
 * Concurrent posts to the relational ledger (src/ab_ledger/store.py): each validates, inserts its
 * header, inserts its entries and commits; any of them may fail and roll back. The unique indexes
 * make a header insert wait while another open transaction holds the same key or id. Every
 * interleaving is equivalent to posting one call after another in the order they finished.
 */
module LedgerConcurrency {
  import opened Common
  import opened Ledger
  import opened LedgerStore

  type Pid = nat

  /** Where one post stands. A holder's header and entries are not visible to others before the commit. */
  datatype Phase =
    | Called(call: Call)
    | Holding(call: Call, inserted: nat)

  /** A finished post: the call and what it returned. */
  datatype Post = Post(call: Call, result: Result<bool, StoreError>)

  /** `done` is history: the posts that returned, in that order. A failed one returns nothing. */
  datatype Tables = Tables(db: Db, active: map<Pid, Phase>, done: seq<Post>)

  datatype Op =
    | Begin(pid: Pid, call: Call)
    | InsertHeader(pid: Pid)
    | InsertEntry(pid: Pid)
    | Commit(pid: Pid)
    | Fail(pid: Pid)

  const INIT := Tables(EMPTY_DB, map[], [])

  /** Another open transaction has inserted a header with this key or this id. */
  predicate HeldByOther(s: Tables, pid: Pid, txn: Transaction) {
    exists q :: q in s.active && q != pid && s.active[q].Holding?
      && (s.active[q].call.txn.key == txn.key || s.active[q].call.txn.txnId == txn.txnId)
  }

  predicate Enabled(s: Tables, op: Op) {
    match op
    case Begin(pid, _) => pid !in s.active
    case InsertHeader(pid) => pid in s.active && s.active[pid].Called? && !HeldByOther(s, pid, s.active[pid].call.txn)
    case InsertEntry(pid) =>
      pid in s.active && s.active[pid].Holding? && s.active[pid].inserted < |s.active[pid].call.txn.postings|
    case Commit(pid) =>
      pid in s.active && s.active[pid].Holding? && s.active[pid].inserted == |s.active[pid].call.txn.postings|
    case Fail(pid) => pid in s.active
  }

  function Return(s: Tables, pid: Pid, call: Call, result: Result<bool, StoreError>): Tables {
    s.(active := s.active - {pid}, done := s.done + [Post(call, result)])
  }

  /** A rule violation is raised before any write. */
  function BeginStep(approved: set<string>, s: Tables, pid: Pid, call: Call): Tables {
    var error := Validate(call.txn, call.cap, approved);
    if error.Some? then s.(done := s.done + [Post(call, Err(Rule(error.value)))])
    else s.(active := s.active[pid := Called(call)])
  }

  /** ON CONFLICT (idempotency_key) DO NOTHING; then the primary key. */
  function HeaderStep(s: Tables, pid: Pid): Tables
    requires pid in s.active
  {
    var call := s.active[pid].call;
    if HasKey(s.db.headers, call.txn.key) then Return(s, pid, call, Ok(false))
    else if HasId(s.db.headers, call.txn.txnId) then Return(s, pid, call, Err(DuplicateTxnId(call.txn.txnId)))
    else s.(active := s.active[pid := Holding(call, 0)])
  }

  function Apply(approved: set<string>, s: Tables, op: Op): Tables
    requires Enabled(s, op)
  {
    match op
    case Begin(pid, call) => BeginStep(approved, s, pid, call)
    case InsertHeader(pid) => HeaderStep(s, pid)
    case InsertEntry(pid) => s.(active := s.active[pid := s.active[pid].(inserted := s.active[pid].inserted + 1)])
    case Commit(pid) =>
      var call := s.active[pid].call;
      Return(s.(db := Db(s.db.headers + [HeaderOf(call.txn)], s.db.rows + RowsOf(call.txn))), pid, call, Ok(true))
    case Fail(pid) => s.(active := s.active - {pid})
  }

  ghost predicate Behaviour(approved: set<string>, ops: seq<Op>, trace: seq<Tables>) {
    && |trace| == |ops| + 1 && trace[0] == INIT
    && forall i {:trigger ops[i]} :: 0 <= i < |ops| ==>
        Enabled(trace[i], ops[i]) && trace[i + 1] == Apply(approved, trace[i], ops[i])
  }

  // ---------------------------------------------------------------- sequential histories

  function Calls(done: seq<Post>): seq<Call> {
    seq(|done|, k requires 0 <= k < |done| => done[k].call)
  }

  /** What post k returned is what it returns when the posts are made one after another. */
  ghost predicate AsSequential(approved: set<string>, done: seq<Post>, k: nat)
    requires k < |done|
  {
    done[k].result == DbPosted(DbRun(Calls(done)[..k], approved), done[k].call, approved).1
  }

  ghost predicate Sequential(approved: set<string>, done: seq<Post>) {
    forall k {:trigger AsSequential(approved, done, k)} :: 0 <= k < |done| ==> AsSequential(approved, done, k)
  }

  /** A waiting call has passed validation; a holder's key and id are its own among rows and holders. */
  ghost predicate Sound(approved: set<string>, s: Tables, pid: Pid) {
    pid in s.active ==>
      && ValidCall(s.active[pid].call, approved)
      && (s.active[pid].Holding? ==>
            && !HasKey(s.db.headers, s.active[pid].call.txn.key) && !HasId(s.db.headers, s.active[pid].call.txn.txnId)
            && !HeldByOther(s, pid, s.active[pid].call.txn)
            && s.active[pid].inserted <= |s.active[pid].call.txn.postings|)
  }

  ghost predicate Inv(approved: set<string>, s: Tables) {
    && s.db == DbRun(Calls(s.done), approved)
    && Sequential(approved, s.done)
    && forall pid {:trigger Sound(approved, s, pid)} :: Sound(approved, s, pid)
  }

  /** A post that returns what the tables say next extends the sequential history. */
  lemma HistoryGrows(approved: set<string>, done: seq<Post>, call: Call)
    requires Sequential(approved, done)
    ensures var (db, r) := DbPosted(DbRun(Calls(done), approved), call, approved);
      && DbRun(Calls(done + [Post(call, r)]), approved) == db
      && Sequential(approved, done + [Post(call, r)])
  {
    var (db, r) := DbPosted(DbRun(Calls(done), approved), call, approved);
    var more := done + [Post(call, r)];
    assert Calls(more)[..|done|] == Calls(done);
    forall k | 0 <= k < |more| ensures AsSequential(approved, more, k) {
      if k < |done| {
        assert AsSequential(approved, done, k);
        assert Calls(more)[..k] == Calls(done)[..k];
      }
    }
  }

  /** Fewer holders hold up no more. */
  lemma FewerHolders(s: Tables, t: Tables, pid: Pid, txn: Transaction)
    requires forall q :: q in t.active && q != pid && t.active[q].Holding? ==>
      q in s.active && s.active[q].Holding? && s.active[q].call == t.active[q].call
    ensures HeldByOther(t, pid, txn) ==> HeldByOther(s, pid, txn)
  {}

  lemma CommitKeeps(approved: set<string>, s: Tables, pid: Pid)
    requires Inv(approved, s) && Enabled(s, Commit(pid))
    ensures Inv(approved, Apply(approved, s, Commit(pid)))
  {
    var t, call := Apply(approved, s, Commit(pid)), s.active[pid].call;
    assert Sound(approved, s, pid);
    HistoryGrows(approved, s.done, call);
    forall q ensures Sound(approved, t, q) {
      assert Sound(approved, s, q);
      if q in t.active {
        HasKeySnoc(s.db.headers, HeaderOf(call.txn), s.active[q].call.txn.key);
        HasIdSnoc(s.db.headers, HeaderOf(call.txn), s.active[q].call.txn.txnId);
        FewerHolders(s, t, q, s.active[q].call.txn);
      }
    }
  }

  lemma HeaderKeeps(approved: set<string>, s: Tables, pid: Pid)
    requires Inv(approved, s) && Enabled(s, InsertHeader(pid))
    ensures Inv(approved, Apply(approved, s, InsertHeader(pid)))
  {
    var t, call := Apply(approved, s, InsertHeader(pid)), s.active[pid].call;
    assert Sound(approved, s, pid);
    HistoryGrows(approved, s.done, call);
    forall q ensures Sound(approved, t, q) {
      assert Sound(approved, s, q);
      if q in t.active && t.active[q].Holding? {
        if q == pid {
          FewerHolders(s, t, q, call.txn);
        } else {
          OneMoreHolder(s, t, pid, q);
        }
      }
    }
  }

  /** A holder that did not block the new header is not held up by it either. */
  lemma OneMoreHolder(s: Tables, t: Tables, pid: Pid, q: Pid)
    requires pid in s.active && q in s.active && q != pid && s.active[q].Holding?
    requires !HeldByOther(s, pid, s.active[pid].call.txn) && !HeldByOther(s, q, s.active[q].call.txn)
    requires forall x :: x in t.active && x != pid ==> x in s.active && s.active[x] == t.active[x]
    requires pid in t.active ==> t.active[pid].call == s.active[pid].call
    ensures !HeldByOther(t, q, s.active[q].call.txn)
  {}

  lemma BeginKeeps(approved: set<string>, s: Tables, pid: Pid, call: Call)
    requires Inv(approved, s) && pid !in s.active
    ensures Inv(approved, Apply(approved, s, Begin(pid, call)))
  {
    var t := Apply(approved, s, Begin(pid, call));
    if Validate(call.txn, call.cap, approved).Some? {
      HistoryGrows(approved, s.done, call);
    }
    forall q ensures Sound(approved, t, q) {
      assert Sound(approved, s, q);
      if q in s.active {
        FewerHolders(s, t, q, s.active[q].call.txn);
      }
    }
  }

  /** Inserting an entry or failing leaves rows and history as they were. */
  lemma QuietKeeps(approved: set<string>, s: Tables, op: Op)
    requires Inv(approved, s) && Enabled(s, op) && (op.InsertEntry? || op.Fail?)
    ensures Inv(approved, Apply(approved, s, op))
  {
    var t := Apply(approved, s, op);
    forall q ensures Sound(approved, t, q) {
      assert Sound(approved, s, q);
      if q in t.active {
        FewerHolders(s, t, q, s.active[q].call.txn);
      }
    }
  }

  lemma StepKeeps(approved: set<string>, s: Tables, op: Op)
    requires Inv(approved, s) && Enabled(s, op)
    ensures Inv(approved, Apply(approved, s, op))
  {
    match op {
      case Begin(pid, call) => BeginKeeps(approved, s, pid, call);
      case InsertHeader(pid) => HeaderKeeps(approved, s, pid);
      case Commit(pid) => CommitKeeps(approved, s, pid);
      case _ => QuietKeeps(approved, s, op);
    }
  }

  // ---------------------------------------------------------------- theorems

  /** No open post has inserted more entries than it has. */
  predicate WithinPostings(s: Tables) {
    forall q :: q in s.active && s.active[q].Holding? ==> s.active[q].inserted <= |s.active[q].call.txn.postings|
  }

  /** The invariant holds in every reachable state. */
  lemma {:induction false} Reachable(approved: set<string>, ops: seq<Op>, trace: seq<Tables>, i: nat)
    requires Behaviour(approved, ops, trace) && i < |trace|
    ensures Inv(approved, trace[i]) && WithinPostings(trace[i])
  {
    if i > 0 {
      Reachable(approved, ops, trace, i - 1);
      assert trace[i] == Apply(approved, trace[i - 1], ops[i - 1]);
      StepKeeps(approved, trace[i - 1], ops[i - 1]);
    }
    assert forall q :: Sound(approved, trace[i], q) ==> q in trace[i].active && trace[i].active[q].Holding? ==>
      trace[i].active[q].inserted <= |trace[i].active[q].call.txn.postings|;
  }

  /** A post in flight is the call its process began, and has been in flight ever since. */
  lemma {:induction false} InFlightSince(approved: set<string>, ops: seq<Op>, trace: seq<Tables>, i: nat, pid: Pid)
    returns (j: nat)
    requires Behaviour(approved, ops, trace) && i < |trace| && pid in trace[i].active
    ensures j < i && ops[j] == Begin(pid, trace[i].active[pid].call)
    ensures forall m :: j < m <= i ==> pid in trace[m].active && trace[m].active[pid].call == trace[i].active[pid].call
  {
    var s, op := trace[i - 1], ops[i - 1];
    assert Enabled(s, op) && trace[i] == Apply(approved, s, op);
    if pid in s.active {
      j := InFlightSince(approved, ops, trace, i - 1, pid);
    } else {
      j := i - 1;
    }
  }

  /** A finished post is a call some process began, none is made up, and at most one finishes in a step. */
  lemma {:induction false} FinishedWasBegun(approved: set<string>, ops: seq<Op>, trace: seq<Tables>, i: nat, k: nat)
    returns (pid: Pid, j: nat)
    requires Behaviour(approved, ops, trace) && i < |trace| && k < |trace[i].done|
    ensures j < i && ops[j] == Begin(pid, trace[i].done[k].call)
    ensures i > 0 ==> trace[i - 1].done <= trace[i].done && |trace[i].done| <= |trace[i - 1].done| + 1
  {
    var s, op := trace[i - 1], ops[i - 1];
    assert Enabled(s, op) && trace[i] == Apply(approved, s, op);
    if k < |s.done| {
      pid, j := FinishedWasBegun(approved, ops, trace, i - 1, k);
    } else if op.Begin? {
      pid, j := op.pid, i - 1;
    } else {
      pid := op.pid;
      j := InFlightSince(approved, ops, trace, i - 1, pid);
    }
  }

  /**
   * Posts never wait on each other in a circle: while one is open, some step other than a failure can
   * be taken, in every state with no more entries inserted than there are, so in every reachable one.
   */
  lemma NeverStuck(s: Tables, pid: Pid) returns (op: Op)
    requires WithinPostings(s) && pid in s.active
    ensures Enabled(s, op) && !op.Begin? && !op.Fail?
  {
    if exists q :: q in s.active && s.active[q].Holding? {
      var q :| q in s.active && s.active[q].Holding?;
      op := if s.active[q].inserted < |s.active[q].call.txn.postings| then InsertEntry(q) else Commit(q);
    } else {
      op := InsertHeader(pid);
    }
  }

  /**
   * Over every interleaving the tables are those of the finished posts made one after another in the
   * order they finished, and each returned what it would have returned then.
   */
  lemma Linearizable(approved: set<string>, ops: seq<Op>, trace: seq<Tables>, i: nat, k: nat)
    requires Behaviour(approved, ops, trace) && i < |trace| && k < |trace[i].done|
    ensures trace[i].db == DbRun(Calls(trace[i].done), approved)
    ensures AsSequential(approved, trace[i].done, k)
  {
    Reachable(approved, ops, trace, i);
  }

  /** Hence a payment is never booked twice: of the finished posts with a key, at most one was applied. */
  lemma NoDoublePayment(approved: set<string>, ops: seq<Op>, trace: seq<Tables>, i: nat, j: nat, k: nat)
    requires Behaviour(approved, ops, trace) && i < |trace| && j < k < |trace[i].done|
    requires trace[i].done[j].call.txn.key == trace[i].done[k].call.txn.key && trace[i].done[j].result == Ok(true)
    ensures trace[i].done[k].result != Ok(true)
  {
    Linearizable(approved, ops, trace, i, j);
    Linearizable(approved, ops, trace, i, k);
    var done := trace[i].done;
    var calls := Calls(done);
    assert calls[..j + 1][..j] == calls[..j];
    assert DbRun(calls[..j + 1], approved) == DbPosted(DbRun(calls[..j], approved), calls[j], approved).0;
    HasKeySnoc(DbRun(calls[..j], approved).headers, HeaderOf(calls[j].txn), calls[j].txn.key);
    KeyStays(approved, calls, j + 1, k, calls[j].txn.key);
  }

  lemma {:induction false} KeyStays(approved: set<string>, calls: seq<Call>, m: nat, n: nat, key: string)
    requires m <= n <= |calls| && HasKey(DbRun(calls[..m], approved).headers, key)
    ensures HasKey(DbRun(calls[..n], approved).headers, key)
  {
    if m < n {
      KeyStays(approved, calls, m, n - 1, key);
      assert calls[..n][..n - 1] == calls[..n - 1];
      HasKeySnoc(DbRun(calls[..n - 1], approved).headers, HeaderOf(calls[n - 1].txn), key);
    }
  }

  /** With fresh ids the concurrent tables also agree with the in-memory ledger: balanced, one entry per key. */
  lemma ConcurrentRefines(approved: set<string>, ops: seq<Op>, trace: seq<Tables>, i: nat)
    requires Behaviour(approved, ops, trace) && i < |trace| && FreshIds(Calls(trace[i].done))
    ensures Refines(trace[i].db, Run(Calls(trace[i].done), approved))
    ensures SumOf(trace[i].db.rows, ROW_AMOUNT) == 0
  {
    Reachable(approved, ops, trace, i);
    var calls := Calls(trace[i].done);
    assert calls[..|calls|] == calls;
    RunRefines(calls, approved, |calls|);
    BalancesAgree(trace[i].db, Run(calls, approved), "");
    TrialBalanceZero(calls, approved);
  }
}
