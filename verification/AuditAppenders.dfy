/**
 * Concurrent appenders of the audit log (src/ab_audit/store.py): each takes the transaction-scoped
 * advisory lock, reads the tail, inserts and commits; any of them may fail and roll back. The steps
 * of any number of them interleave.
 */
module AuditAppenders {
  import opened Common
  import opened Audit

  type Pid = nat

  /** Where an appender's transaction stands. The entry, with its time, is fixed before the lock. */
  datatype Phase =
    | Ready(entry: Entry)
    | Locked(entry: Entry)
    | TailRead(entry: Entry, prev: string)
    | Inserted(entry: Entry, row: Row)

  /** `committed` in seq order; a finished or failed appender is dropped from `active`. */
  datatype State = State(committed: seq<Row>, holder: Option<Pid>, active: map<Pid, Phase>)

  datatype Op =
    | Begin(pid: Pid, entry: Entry)
    | Lock(pid: Pid)
    | ReadTail(pid: Pid)
    | Insert(pid: Pid)
    | Commit(pid: Pid)
    | Abort(pid: Pid)

  const INIT := State([], None, map[])

  /** `locking`: whether the code takes the lock at all. */
  predicate Enabled(locking: bool, s: State, op: Op) {
    match op
    case Begin(pid, _) => pid !in s.active
    case Lock(pid) => pid in s.active && s.active[pid].Ready? && (locking ==> s.holder == None)
    case ReadTail(pid) => pid in s.active && s.active[pid].Locked?
    case Insert(pid) => pid in s.active && s.active[pid].TailRead?
    case Commit(pid) => pid in s.active && s.active[pid].Inserted?
    case Abort(pid) => pid in s.active
  }

  /** Ending the transaction, either way, releases the lock. */
  function Release(s: State, pid: Pid): Option<Pid> {
    if s.holder == Some(pid) then None else s.holder
  }

  function Apply(locking: bool, mac: Mac, s: State, op: Op): State
    requires Enabled(locking, s, op)
  {
    match op
    case Begin(pid, entry) => s.(active := s.active[pid := Ready(entry)])
    case Lock(pid) =>
      s.(active := s.active[pid := Locked(s.active[pid].entry)], holder := if locking then Some(pid) else s.holder)
    case ReadTail(pid) => s.(active := s.active[pid := TailRead(s.active[pid].entry, Tail(s.committed))])
    case Insert(pid) =>
      var (e, prev) := (s.active[pid].entry, s.active[pid].prev);
      s.(active := s.active[pid := Inserted(e, Row(e, prev, Link(mac, prev, e)))])
    case Commit(pid) =>
      State(s.committed + [s.active[pid].row], Release(s, pid), s.active - {pid})
    case Abort(pid) => State(s.committed, Release(s, pid), s.active - {pid})
  }

  ghost predicate Behaviour(locking: bool, mac: Mac, ops: seq<Op>, trace: seq<State>) {
    && |trace| == |ops| + 1 && trace[0] == INIT
    && forall i {:trigger ops[i]} :: 0 <= i < |ops| ==>
         Enabled(locking, trace[i], ops[i]) && trace[i + 1] == Apply(locking, mac, trace[i], ops[i])
  }

  // ---------------------------------------------------------------- the invariant

  /** Whoever is past the lock holds it, and what it read or inserted fits the committed tail. */
  ghost predicate Fits(mac: Mac, s: State, pid: Pid) {
    pid in s.active ==>
      match s.active[pid]
      case Ready(_) => s.holder != Some(pid)
      case Locked(_) => s.holder == Some(pid)
      case TailRead(_, prev) => s.holder == Some(pid) && prev == Tail(s.committed)
      case Inserted(e, row) => s.holder == Some(pid) && row == NextRow(mac, s.committed, e)
  }

  ghost predicate Inv(mac: Mac, s: State) {
    && Chained(mac, s.committed)
    && (s.holder.Some? ==> s.holder.value in s.active)
    && forall pid :: Fits(mac, s, pid)
  }

  lemma StepKeeps(mac: Mac, s: State, op: Op)
    requires Inv(mac, s) && Enabled(true, s, op)
    ensures Inv(mac, Apply(true, mac, s, op))
  {
    var t := Apply(true, mac, s, op);
    assert Fits(mac, s, op.pid);
    if op.Commit? {
      ChainedSnoc(mac, s.committed, s.active[op.pid].row);
    }
    forall pid ensures Fits(mac, t, pid) {
      assert Fits(mac, s, pid);
    }
  }

  lemma {:induction false} Reachable(mac: Mac, ops: seq<Op>, trace: seq<State>, i: nat)
    requires Behaviour(true, mac, ops, trace) && i < |trace|
    ensures Inv(mac, trace[i])
  {
    if i > 0 {
      Reachable(mac, ops, trace, i - 1);
      assert trace[i] == Apply(true, mac, trace[i - 1], ops[i - 1]);
      StepKeeps(mac, trace[i - 1], ops[i - 1]);
    }
  }

  // ---------------------------------------------------------------- theorems

  /** However appenders interleave and fail, every committed log verifies. */
  lemma CommittedLogsVerify(mac: Mac, ops: seq<Op>, trace: seq<State>, t: nat)
    requires Behaviour(true, mac, ops, trace) && t < |trace|
    ensures Chained(mac, trace[t].committed)
  {
    Reachable(mac, ops, trace, t);
  }

  /** And no two of its rows link the same hash, or two of its rows collide. */
  lemma CommittedLogsNeverFork(mac: Mac, ops: seq<Op>, trace: seq<State>, t: nat, i: nat, j: nat)
    returns (x: string, y: string)
    requires Digests(mac) && Behaviour(true, mac, ops, trace) && t < |trace|
    requires i < j < |trace[t].committed|
    ensures var log := trace[t].committed;
      log[i].prevHash != log[j].prevHash || CollisionIn(mac, log, log, x, y)
  {
    Reachable(mac, ops, trace, t);
    x, y := NoFork(mac, trace[t].committed, i, j);
  }

  /** What an appender records is what it began with; it has been in flight ever since. */
  lemma {:induction false} RecordsItsOwn(mac: Mac, ops: seq<Op>, trace: seq<State>, i: nat, pid: Pid) returns (j: nat)
    requires Behaviour(true, mac, ops, trace) && i < |trace| && pid in trace[i].active
    ensures j < i && ops[j] == Begin(pid, trace[i].active[pid].entry)
    ensures forall m :: j < m <= i ==>
      pid in trace[m].active && trace[m].active[pid].entry == trace[i].active[pid].entry
  {
    var s, op := trace[i - 1], ops[i - 1];
    assert Enabled(true, s, op) && trace[i] == Apply(true, mac, s, op);
    if pid in s.active {
      j := RecordsItsOwn(mac, ops, trace, i - 1, pid);
    } else {
      j := i - 1;
    }
  }

  /** The entries committed along a run, in commit order. */
  ghost function CommittedEntries(ops: seq<Op>, trace: seq<State>, n: nat): seq<Entry>
    requires n <= |ops| <= |trace|
  {
    if n == 0 then []
    else
      var before, op := CommittedEntries(ops, trace, n - 1), ops[n - 1];
      if op.Commit? && op.pid in trace[n - 1].active then before + [trace[n - 1].active[op.pid].entry] else before
  }

  ghost function Entries(log: seq<Row>): seq<Entry> {
    seq(|log|, k requires 0 <= k < |log| => log[k].entry)
  }

  /**
   * The log is append-only and holds exactly one row per commit, in commit order, with its
   * appender's entry; an aborted append leaves no row.
   */
  lemma {:induction false} OneRowPerCommit(mac: Mac, ops: seq<Op>, trace: seq<State>, n: nat)
    requires Behaviour(true, mac, ops, trace) && n <= |ops|
    ensures Entries(trace[n].committed) == CommittedEntries(ops, trace, n)
    ensures n > 0 ==> trace[n - 1].committed <= trace[n].committed
  {
    if n > 0 {
      OneRowPerCommit(mac, ops, trace, n - 1);
      Reachable(mac, ops, trace, n - 1);
      assert Enabled(true, trace[n - 1], ops[n - 1]) && trace[n] == Apply(true, mac, trace[n - 1], ops[n - 1]);
      CommitAdds(mac, trace[n - 1], ops[n - 1]);
    }
  }

  lemma CommitAdds(mac: Mac, s: State, op: Op)
    requires Inv(mac, s) && Enabled(true, s, op)
    ensures var t := Apply(true, mac, s, op);
      && s.committed <= t.committed
      && Entries(t.committed)
          == if op.Commit? then Entries(s.committed) + [s.active[op.pid].entry] else Entries(s.committed)
  {
    assert Fits(mac, s, op.pid);
  }

  /** The lock never blocks everyone: while someone is active, some step other than a failure can be taken. */
  lemma NeverStuck(mac: Mac, ops: seq<Op>, trace: seq<State>, t: nat) returns (op: Op)
    requires Behaviour(true, mac, ops, trace) && t < |trace| && trace[t].active != map[]
    ensures Enabled(true, trace[t], op) && !op.Begin? && !op.Abort?
  {
    var s := trace[t];
    Reachable(mac, ops, trace, t);
    var pid := if s.holder.Some? then s.holder.value else var p :| p in s.active; p;
    assert Fits(mac, s, pid);
    op := match s.active[pid]
      case Ready(_) => Lock(pid)
      case Locked(_) => ReadTail(pid)
      case TailRead(_, _) => Insert(pid)
      case Inserted(_, _) => Commit(pid);
  }

  /** Two appenders that skip the lock: both read the same tail before either commits. */
  function Race(mac: Mac, s: State, p: Pid, q: Pid): (t: State)
    requires p in s.active && q in s.active && p != q && s.active[p].Ready? && s.active[q].Ready?
    ensures t.committed
      == s.committed + [NextRow(mac, s.committed, s.active[p].entry), NextRow(mac, s.committed, s.active[q].entry)]
  {
    var s1 := Apply(false, mac, s, Lock(p));
    var s2 := Apply(false, mac, s1, Lock(q));
    var s3 := Apply(false, mac, s2, ReadTail(p));
    var s4 := Apply(false, mac, s3, ReadTail(q));
    var s5 := Apply(false, mac, s4, Insert(p));
    var s6 := Apply(false, mac, s5, Insert(q));
    var s7 := Apply(false, mac, s6, Commit(p));
    Apply(false, mac, s7, Commit(q))
  }

  /** The lock is needed: from any verified log, the race's two rows link the same hash and the log is rejected. */
  lemma WithoutLockForks(mac: Mac, s: State, p: Pid, q: Pid) returns (x: string, y: string)
    requires Digests(mac) && Chained(mac, s.committed)
    requires p in s.active && q in s.active && p != q && s.active[p].Ready? && s.active[q].Ready?
    ensures var log, n := Race(mac, s, p, q).committed, |s.committed|;
      && |log| == n + 2 && log[n].prevHash == log[n + 1].prevHash
      && (!Chained(mac, log) || CollisionIn(mac, log, log, x, y))
  {
    var log, n := Race(mac, s, p, q).committed, |s.committed|;
    x, y := "", "";
    if Chained(mac, log) {
      x, y := NoFork(mac, log, n, n + 1);
    }
  }
}
