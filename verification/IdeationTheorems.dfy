/** The ideation runner over whole runs: every interleaving, from the empty registry on. */
module IdeationTheorems {
  import opened Common
  import opened IdeationProtocol
  import opened IdeationSafety

  /** `trace` is the run of `ops` from the empty registry. */
  ghost predicate Behaviour(cfg: Config, ops: seq<Op>, trace: seq<State>) {
    && |trace| == |ops| + 1
    && trace[0] == INIT
    && forall i {:trigger ops[i]} :: 0 <= i < |ops| ==>
         Enabled(cfg, trace[i], ops[i]) && trace[i + 1] == Apply(cfg, trace[i], ops[i])
  }

  lemma {:induction false} Reachable(cfg: Config, ops: seq<Op>, trace: seq<State>, i: nat)
    requires Behaviour(cfg, ops, trace) && i < |trace|
    ensures Inv(cfg, trace[i])
  {
    if i > 0 {
      Reachable(cfg, ops, trace, i - 1);
      assert trace[i] == Apply(cfg, trace[i - 1], ops[i - 1]);
      StepKeeps(cfg, trace[i - 1], ops[i - 1]);
    }
  }

  // ---------------------------------------------------------------- what one step does to one run

  /** What later steps may do to a run. */
  ghost predicate Evolves(r: Run, t: Run) {
    && r.business == t.business
    && r.queue <= t.queue
    && (r.status != Running ==> t.status == r.status && t.result == r.result && t.reason == r.reason)
    && (r.crashed ==> t.crashed && t.status == r.status && t.result == r.result)
  }

  /** A status changes only together with the terminal frame that reports it. */
  ghost predicate WritesOnce(r: Run, t: Run) {
    t.status != r.status ==> r.status == Running && |t.queue| == |r.queue| + 1 && Reports(t.queue[|r.queue|], t)
  }

  lemma OthersUntouched(cfg: Config, s: State, op: Op, id: RunId)
    requires Inv(cfg, s) && Enabled(cfg, s, op) && id in s.runs && (op.Start? || op.id != id)
    ensures id in Apply(cfg, s, op).runs && Apply(cfg, s, op).runs[id] == s.runs[id]
  {}

  lemma OwnStep(cfg: Config, s: State, op: Op)
    requires Enabled(cfg, s, op) && !op.Start? && RunOk(cfg, op.id, s.runs[op.id])
    ensures op.id in Apply(cfg, s, op).runs
    ensures var r, t := s.runs[op.id], Apply(cfg, s, op).runs[op.id];
      Evolves(r, t) && WritesOnce(r, t) && (t.crashed <==> r.crashed || op == PreCheck(op.id, CheckRaises))
  {
    if op.Deliver? && s.runs[op.id].pending[0].Done? {
      assert s.runs[op.id].phase == Pipeline ==> s.runs[op.id].status == Running;
    }
  }

  lemma StepWritesStatusOnce(cfg: Config, s: State, op: Op, id: RunId)
    requires Inv(cfg, s) && Enabled(cfg, s, op) && id in s.runs
    ensures id in Apply(cfg, s, op).runs
    ensures var r, t := s.runs[id], Apply(cfg, s, op).runs[id];
      Evolves(r, t) && WritesOnce(r, t) && (t.crashed <==> r.crashed || op == PreCheck(id, CheckRaises))
  {
    if op.Start? || op.id != id {
      OthersUntouched(cfg, s, op, id);
    } else {
      assert RunOk(cfg, id, s.runs[id]);
      OwnStep(cfg, s, op);
    }
  }

  // ---------------------------------------------------------------- the registry

  /**
   * In every reachable state each business has at most one live run, live runs and active entries
   * are registered, and an entry names an unfinished run of its own business.
   */
  lemma OneLiveRunPerBusiness(cfg: Config, ops: seq<Op>, trace: seq<State>, i: nat)
    requires Behaviour(cfg, ops, trace) && i < |trace|
    ensures var s := trace[i];
      && (forall x, y | x in s.runs && y in s.runs ::
            Live(s.runs[x]) && Live(s.runs[y]) && x.business == y.business ==> x == y)
      && (forall x :: x in s.runs && Live(s.runs[x]) ==> x in s.order)
      && (forall b :: b in s.active ==>
            && s.active[b] in s.order && s.active[b] in s.runs
            && s.runs[s.active[b]].business == b && s.runs[s.active[b]].phase != Finished)
  {
    Reachable(cfg, ops, trace, i);
  }

  /** Neither lookup of the code can fail: `start` finds the active run, a new coroutine finds its own. */
  lemma LookupsNeverFail(cfg: Config, ops: seq<Op>, trace: seq<State>, i: nat)
    requires Behaviour(cfg, ops, trace) && i < |trace|
    ensures Registered(trace[i].runs, trace[i].order)
    ensures forall b :: StartStep(cfg, trace[i], b).1 != LookupError
    ensures forall id :: id in trace[i].runs && trace[i].runs[id].phase == Scheduled ==>
        Enabled(cfg, trace[i], Begin(id))
  {
    Reachable(cfg, ops, trace, i);
    var s := trace[i];
    forall id | id in s.runs && s.runs[id].phase == Scheduled ensures id in s.order {
      assert RunOk(cfg, id, s.runs[id]) && Live(s.runs[id]);
    }
  }

  /**
   * A start re-attaches to a run iff that run is the business's live one, and then changes nothing;
   * else it launches a run nobody has seen, which is registered, waiting to begin, and in the slot.
   */
  lemma StartAttachesIffLive(cfg: Config, ops: seq<Op>, trace: seq<State>, i: nat, b: Business)
    requires Behaviour(cfg, ops, trace) && i < |trace| && Registered(trace[i].runs, trace[i].order)
    ensures var s := trace[i];
      var (t, r) := StartStep(cfg, s, b);
      && (forall x :: r == Attached(x) <==> x in s.runs && x.business == b && Live(s.runs[x]))
      && (r.Attached? ==> t == s)
      && r != LookupError
      && (r.Launched? ==>
            && r.id !in s.runs && r.id.business == b && t.active == s.active[b := r.id] && r.id in t.order
            && t.runs == s.runs[r.id := FreshRun(b)] && t.runs[r.id].phase == Scheduled && Live(t.runs[r.id]))
  {
    var s := trace[i];
    Reachable(cfg, ops, trace, i);
    forall x | x in s.runs && x.business == b && Live(s.runs[x]) ensures b in s.active && s.active[b] == x {
      assert Live(s.runs[x]);
    }
    if b in s.active {
      assert RunOk(cfg, s.active[b], s.runs[s.active[b]]);
    }
    StartKeeps(cfg, s, b);
    if StartStep(cfg, s, b).1.Launched? {
      var id := RunId(b, s.counter + 1);
      var t := StartStep(cfg, s, b).0;
      assert t.active[b] == id;
    }
  }

  /**
   * What a launch leaves in the registry: everything if the cap allows one more; else only the oldest
   * inactive runs go, just so many that the cap is met, or all of them if that is not enough.
   */
  lemma LaunchEvicts(cfg: Config, s: State, b: Business) returns (cut: nat)
    requires Registered(s.runs, s.order)
    ensures var t, all := Launch(cfg, s, b), Enrolled(s, b);
      && (|s.order| < cfg.maxRuns ==> t.order == s.order + [RunId(b, s.counter + 1)])
      && (|s.order| >= cfg.maxRuns ==>
            && cut <= |all.order|
            && t.order == Actives(all.order[..cut], all.runs, all.active) + all.order[cut..]
            && (if cfg.maxRuns >= |Actives(all.order, all.runs, all.active)| then |t.order| == cfg.maxRuns
                else |t.order| == |Actives(all.order, all.runs, all.active)|))
  {
    var all := Enrolled(s, b);
    var k := |all.order| - cfg.maxRuns;
    cut := 0;
    if k > 0 {
      cut := EvictsOldestInactive(all.order, all.runs, all.active, k);
      ActivesBound(all.order, all.runs, all.active);
    }
  }

  /** The registry is bounded: the cap holds, or every registered run is of another business. */
  lemma RegistryBounded(cfg: Config, ops: seq<Op>, trace: seq<State>, i: nat)
    requires Behaviour(cfg, ops, trace) && i < |trace|
    ensures |trace[i].order| <= cfg.maxRuns || DistinctBusinesses(trace[i].order)
  {
    Reachable(cfg, ops, trace, i);
  }

  /** A run that is not finished can always take a step: nothing waits for ever on the registry. */
  lemma NeverStuck(cfg: Config, ops: seq<Op>, trace: seq<State>, i: nat, id: RunId)
    requires Behaviour(cfg, ops, trace) && i < |trace|
    requires id in trace[i].runs && trace[i].runs[id].phase != Finished
    ensures Enabled(cfg, trace[i], Begin(id)) || Enabled(cfg, trace[i], PreCheck(id, Clear))
         || Enabled(cfg, trace[i], WorkerEnd(id, RaisedTimeout)) || Enabled(cfg, trace[i], Deliver(id))
         || Enabled(cfg, trace[i], Finish(id))
  {
    Reachable(cfg, ops, trace, i);
    assert RunOk(cfg, id, trace[i].runs[id]);
    assert trace[i].runs[id].phase == Scheduled ==> Live(trace[i].runs[id]);
  }

  // ---------------------------------------------------------------- marks of the past

  /** No step concerns a run before it is created. */
  lemma {:induction false} UnknownUnmentioned(cfg: Config, ops: seq<Op>, trace: seq<State>, i: nat, id: RunId, op: Op)
    requires Behaviour(cfg, ops, trace) && i < |trace| && id !in trace[i].runs && !op.Start? && op.id == id
    ensures op !in ops[..i]
  {
    if i > 0 {
      assert ops[..i] == ops[..i - 1] + [ops[i - 1]];
      assert trace[i] == Apply(cfg, trace[i - 1], ops[i - 1]);
      assert id !in trace[i - 1].runs;
      UnknownUnmentioned(cfg, ops, trace, i - 1, id, op);
    }
  }

  lemma StepMarks(cfg: Config, s: State, op: Op, id: RunId)
    requires Inv(cfg, s) && Enabled(cfg, s, op) && id in s.runs
    ensures id in Apply(cfg, s, op).runs
    ensures Apply(cfg, s, op).runs[id].timedOut <==> s.runs[id].timedOut || op == TimeoutFires(id)
  {
    if op.Start? || op.id != id {
      OthersUntouched(cfg, s, op, id);
    }
  }

  /** The history flags say what happened: the halt check raised, the whole-run timeout fired. */
  lemma {:induction false} MarksAreHistory(cfg: Config, ops: seq<Op>, trace: seq<State>, i: nat, id: RunId)
    requires Behaviour(cfg, ops, trace) && i < |trace| && id in trace[i].runs
    ensures trace[i].runs[id].crashed <==> PreCheck(id, CheckRaises) in ops[..i]
    ensures trace[i].runs[id].timedOut <==> TimeoutFires(id) in ops[..i]
  {
    if i > 0 {
      var op := ops[i - 1];
      assert ops[..i] == ops[..i - 1] + [op];
      assert trace[i] == Apply(cfg, trace[i - 1], op);
      Reachable(cfg, ops, trace, i - 1);
      if id in trace[i - 1].runs {
        MarksAreHistory(cfg, ops, trace, i - 1, id);
        StepWritesStatusOnce(cfg, trace[i - 1], op, id);
        StepMarks(cfg, trace[i - 1], op, id);
      } else {
        UnknownUnmentioned(cfg, ops, trace, i - 1, id, PreCheck(id, CheckRaises));
        UnknownUnmentioned(cfg, ops, trace, i - 1, id, TimeoutFires(id));
      }
    }
  }

  // ---------------------------------------------------------------- the stream

  ghost predicate AllProgress(frames: seq<Frame>) {
    forall k :: 0 <= k < |frames| ==> frames[k].Progressed?
  }

  /** What each stage says about the queue, frame by frame. */
  ghost predicate Shaped(id: RunId, queue: seq<Frame>, stage: Stage, p1: seq<Frame>, p2: seq<Frame>, p3: seq<Frame>) {
    && AllProgress(p1) && AllProgress(p2) && AllProgress(p3)
    && match stage
       case Fresh => queue == []
       case Open => queue == [Started(id)] + p1
       case Terminated(last, late) => queue == [Started(id)] + p1 + [last] + p2 && (late <==> p2 != [])
       case Over(None, late) => queue == [Started(id)] + p1 + [EndOfStream] + p3 && (late <==> p3 != [])
       case Over(Some(last), late) =>
         queue == [Started(id)] + p1 + [last] + p2 + [EndOfStream] + p3 && (late <==> p2 != [] || p3 != [])
       case Malformed => true
  }

  /** One more frame extends the stretch the stage has reached. */
  lemma ShapeSnoc(id: RunId, queue: seq<Frame>, stage: Stage, f: Frame, q1: seq<Frame>, q2: seq<Frame>, q3: seq<Frame>)
    returns (p1: seq<Frame>, p2: seq<Frame>, p3: seq<Frame>)
    requires Shaped(id, queue, stage, q1, q2, q3)
    ensures Shaped(id, queue + [f], Advance(id, stage, f), p1, p2, p3)
  {
    p1, p2, p3 := [], [], [];
    match stage {
      case Fresh =>
      case Open => p1 := if f.Progressed? then q1 + [f] else q1;
      case Terminated(_, _) => p1, p2 := q1, if f.Progressed? then q2 + [f] else q2;
      case Over(_, _) => p1, p2, p3 := q1, q2, if f.Progressed? then q3 + [f] else q3;
      case Malformed =>
    }
  }

  lemma {:induction false} ScanShape(id: RunId, queue: seq<Frame>)
    returns (p1: seq<Frame>, p2: seq<Frame>, p3: seq<Frame>)
    ensures Shaped(id, queue, Scan(id, queue), p1, p2, p3)
  {
    p1, p2, p3 := [], [], [];
    if queue != [] {
      var n := |queue| - 1;
      p1, p2, p3 := ScanShape(id, queue[..n]);
      p1, p2, p3 := ShapeSnoc(id, queue[..n], Scan(id, queue[..n]), queue[n], p1, p2, p3);
      assert queue == queue[..n] + [queue[n]];
    }
  }

  // ---------------------------------------------------------------- no progress is lost

  /** The progress frames of a queue. */
  function Progress(queue: seq<Frame>): seq<Frame> {
    if queue == [] then []
    else
      var before, f := Progress(queue[..|queue| - 1]), queue[|queue| - 1];
      if f.Progressed? then before + [f] else before
  }

  /** The progress frames the event loop still owes the queue. */
  function Owed(pending: seq<Callback>): seq<Frame> {
    if pending == [] then []
    else
      var before, c := Owed(pending[..|pending| - 1]), pending[|pending| - 1];
      if c.Emit? then before + [Progressed(c.step, c.status)] else before
  }

  /** What the worker of a run reported, in order. */
  function Emitted(ops: seq<Op>, id: RunId): seq<Frame> {
    if ops == [] then []
    else
      var before, op := Emitted(ops[..|ops| - 1], id), ops[|ops| - 1];
      if op.WorkerStep? && op.id == id then before + [Progressed(op.step, op.status)] else before
  }

  lemma ProgressSnoc(queue: seq<Frame>, f: Frame)
    ensures Progress(queue + [f]) == if f.Progressed? then Progress(queue) + [f] else Progress(queue)
  {}

  lemma OwedSnoc(pending: seq<Callback>, c: Callback)
    ensures Owed(pending + [c]) == if c.Emit? then Owed(pending) + [Progressed(c.step, c.status)] else Owed(pending)
  {}

  lemma {:induction false} OwedFirst(pending: seq<Callback>)
    requires pending != []
    ensures var c := pending[0];
      Owed(pending) == (if c.Emit? then [Progressed(c.step, c.status)] else []) + Owed(pending[1..])
  {
    var n := |pending| - 1;
    if n > 0 {
      OwedFirst(pending[..n]);
      assert pending[..n][1..] == pending[1..][..n - 1];
    }
  }

  lemma EmitDelivered(id: RunId, r: Run)
    requires r.pending != [] && r.pending[0].Emit?
    ensures var t := Delivered(id, r); Progress(t.queue) + Owed(t.pending) == Progress(r.queue) + Owed(r.pending)
  {
    var t, f := Delivered(id, r), Progressed(r.pending[0].step, r.pending[0].status);
    var a, b := Progress(r.queue), Owed(r.pending[1..]);
    ProgressSnoc(r.queue, f);
    assert Progress(t.queue) == a + [f] && Owed(t.pending) == b;
    OwedFirst(r.pending);
    assert Owed(r.pending) == [f] + b;
  }

  lemma DoneDelivered(id: RunId, r: Run)
    requires r.pending != [] && r.pending[0].Done?
    ensures var t := Delivered(id, r); Progress(t.queue) + Owed(t.pending) == Progress(r.queue) + Owed(r.pending)
  {
    var t, b := Delivered(id, r), Owed(r.pending[1..]);
    Resolved(id, r.(pending := r.pending[1..]), r.pending[0].outcome);
    assert Progress(t.queue) == Progress(r.queue) && Owed(t.pending) == b;
    OwedFirst(r.pending);
    assert Owed(r.pending) == [] + b == b;
  }

  /** Delivering the oldest callback moves a reported frame from the loop to the queue. */
  lemma DeliveredProgress(id: RunId, r: Run)
    requires r.pending != []
    ensures var t := Delivered(id, r); Progress(t.queue) + Owed(t.pending) == Progress(r.queue) + Owed(r.pending)
  {
    match r.pending[0] {
      case Emit(_, _) => EmitDelivered(id, r);
      case Done(_) => DoneDelivered(id, r);
    }
  }

  /** What reports a run's end is no progress. */
  lemma Resolved(id: RunId, r: Run, outcome: Outcome)
    ensures var t := Resolve(id, r, outcome); Progress(t.queue) == Progress(r.queue) && t.pending == r.pending
  {
    var t := Resolve(id, r, outcome);
    assert t.queue == r.queue + [t.queue[|r.queue|]];
    ProgressSnoc(r.queue, t.queue[|r.queue|]);
  }

  lemma OwnProgress(cfg: Config, s: State, op: Op)
    requires Enabled(cfg, s, op) && !op.Start?
    ensures op.id in Apply(cfg, s, op).runs
    ensures var r, t := s.runs[op.id], Apply(cfg, s, op).runs[op.id];
      Progress(t.queue) + Owed(t.pending)
      == Progress(r.queue) + Owed(r.pending) + (if op.WorkerStep? then [Progressed(op.step, op.status)] else [])
  {
    var r, t := s.runs[op.id], Apply(cfg, s, op).runs[op.id];
    match op {
      case Deliver(id) => DeliveredProgress(id, r);
      case WorkerStep(_, step, status) => OwedSnoc(r.pending, Emit(step, status));
      case WorkerEnd(_, outcome) => OwedSnoc(r.pending, Done(outcome));
      case WorkerPartial(_, _) =>
      case Begin(id) => ProgressSnoc(r.queue, Started(id));
      case PreCheck(id, check) =>
        if check == Halted { ProgressSnoc(r.queue, FailedWith(id, "killswitch")); }
        if check == CheckRaises { ProgressSnoc(r.queue, EndOfStream); }
      case TimeoutFires(id) => ProgressSnoc(r.queue, FailedWith(id, "timeout"));
      case Finish(_) => ProgressSnoc(r.queue, EndOfStream);
    }
  }

  lemma {:induction false} NothingEmittedYet(cfg: Config, ops: seq<Op>, trace: seq<State>, i: nat, id: RunId)
    requires Behaviour(cfg, ops, trace) && i < |trace| && id !in trace[i].runs
    ensures Emitted(ops[..i], id) == []
  {
    if i > 0 {
      assert ops[..i][..i - 1] == ops[..i - 1];
      assert trace[i] == Apply(cfg, trace[i - 1], ops[i - 1]);
      NothingEmittedYet(cfg, ops, trace, i - 1, id);
    }
  }

  /**
   * Over every run: what the worker reported is, in order and once each, what the queue holds as
   * progress followed by what the event loop has still to deliver. No report is lost or repeated.
   */
  lemma {:induction false} ProgressKept(cfg: Config, ops: seq<Op>, trace: seq<State>, i: nat, id: RunId)
    requires Behaviour(cfg, ops, trace) && i < |trace| && id in trace[i].runs
    ensures Progress(trace[i].runs[id].queue) + Owed(trace[i].runs[id].pending) == Emitted(ops[..i], id)
  {
    if i > 0 {
      var op := ops[i - 1];
      assert ops[..i][..i - 1] == ops[..i - 1];
      assert Enabled(cfg, trace[i - 1], op) && trace[i] == Apply(cfg, trace[i - 1], op);
      Reachable(cfg, ops, trace, i - 1);
      if id in trace[i - 1].runs {
        ProgressKept(cfg, ops, trace, i - 1, id);
        if op.Start? || op.id != id {
          OthersUntouched(cfg, trace[i - 1], op, id);
        } else {
          OwnProgress(cfg, trace[i - 1], op);
        }
      } else {
        NothingEmittedYet(cfg, ops, trace, i - 1, id);
      }
    }
  }

  lemma {:induction false} ProgressConcat(a: seq<Frame>, b: seq<Frame>)
    ensures Progress(a + b) == Progress(a) + Progress(b)
  {
    if b == [] {
      assert a + b == a;
    } else {
      var n := |b| - 1;
      ProgressConcat(a, b[..n]);
      assert (a + b)[..|a| + n] == a + b[..n];
    }
  }

  lemma {:induction false} ProgressOfAll(frames: seq<Frame>)
    requires AllProgress(frames)
    ensures Progress(frames) == frames
  {
    if frames != [] {
      ProgressOfAll(frames[..|frames| - 1]);
    }
  }

  /** Another kind of frame and a stretch of progress after it. */
  lemma ProgressThen(queue: seq<Frame>, f: Frame, p: seq<Frame>)
    requires !f.Progressed? && AllProgress(p)
    ensures Progress(queue + [f] + p) == Progress(queue) + p
  {
    ProgressConcat(queue + [f], p);
    ProgressSnoc(queue, f);
    ProgressOfAll(p);
  }

  lemma StreamProgress(id: RunId, p1: seq<Frame>, last: Frame, p2: seq<Frame>)
    requires AllProgress(p1) && AllProgress(p2) && !last.Progressed?
    ensures Progress([Started(id)] + p1) == p1 && Progress([Started(id)] + p1 + [last] + p2) == p1 + p2
  {
    ProgressThen([], Started(id), p1);
    assert [] + [Started(id)] + p1 == [Started(id)] + p1;
    ProgressThen([Started(id)] + p1, last, p2);
  }

  lemma ShapeProgress(id: RunId, queue: seq<Frame>, stage: Stage, p1: seq<Frame>, p2: seq<Frame>, p3: seq<Frame>)
    requires Shaped(id, queue, stage, p1, p2, p3)
    requires stage.Terminated? ==> !stage.last.Progressed?
    ensures stage == Fresh ==> Progress(queue) == []
    ensures stage == Open ==> Progress(queue) == p1
    ensures stage.Terminated? ==> Progress(queue) == p1 + p2
  {
    if stage == Open { StreamProgress(id, p1, EndOfStream, []); }
    if stage.Terminated? { StreamProgress(id, p1, stage.last, p2); }
  }

  // ---------------------------------------------------------------- the stream of a run

  /** What a consumer that reads from the start yields: the frames up to the sentinel. */
  function Streamed(queue: seq<Frame>): seq<Frame> {
    if queue == [] || queue[0] == EndOfStream then [] else [queue[0]] + Streamed(queue[1..])
  }

  lemma {:induction false} StreamedUpTo(a: seq<Frame>, b: seq<Frame>)
    requires EndOfStream !in a && (b == [] || b[0] == EndOfStream)
    ensures Streamed(a + b) == a
  {
    if a == [] {
      assert a + b == b;
    } else {
      assert (a + b)[1..] == a[1..] + b;
      assert a == [a[0]] + a[1..];
      StreamedUpTo(a[1..], b);
    }
  }

  /**
   * The queue of a run that finished without crashing: `started`, progress, one terminal frame that
   * reports the status, one sentinel after it; the progress is what the worker reported, in order.
   * Unless the timeout fired, all of it comes before the terminal frame, which is then the last thing
   * a consumer sees.
   */
  lemma FinishedStream(cfg: Config, ops: seq<Op>, trace: seq<State>, i: nat, id: RunId)
    returns (p1: seq<Frame>, last: Frame, p2: seq<Frame>, p3: seq<Frame>)
    requires Behaviour(cfg, ops, trace) && i < |trace| && id in trace[i].runs
    requires trace[i].runs[id].phase == Finished && PreCheck(id, CheckRaises) !in ops[..i]
    ensures var r := trace[i].runs[id];
      && r.queue == [Started(id)] + p1 + [last] + p2 + [EndOfStream] + p3
      && AllProgress(p1) && AllProgress(p2) && AllProgress(p3)
      && (last.Completed? || last.FailedWith?) && Reports(last, r)
      && p1 + p2 + p3 + Owed(r.pending) == Emitted(ops[..i], id)
      && (TimeoutFires(id) !in ops[..i] ==> p2 == [] && p3 == [] && p1 == Emitted(ops[..i], id))
      && Streamed(r.queue) == [Started(id)] + p1 + [last] + p2
  {
    Reachable(cfg, ops, trace, i);
    MarksAreHistory(cfg, ops, trace, i, id);
    var r := trace[i].runs[id];
    assert RunOk(cfg, id, r);
    var stage := Scan(id, r.queue);
    p1, p2, p3 := ScanShape(id, r.queue);
    last := stage.terminal.value;
    StreamedUpTo([Started(id)] + p1 + [last] + p2, [EndOfStream] + p3);
    assert r.queue == [Started(id)] + p1 + [last] + p2 + ([EndOfStream] + p3);
    ProgressKept(cfg, ops, trace, i, id);
    StreamProgress(id, p1, last, p2);
    ProgressThen([Started(id)] + p1 + [last] + p2, EndOfStream, p3);
  }

  /**
   * The queue of a run that has not finished: no sentinel, a terminal frame iff it reported, and as
   * progress what the worker reported, but for what the event loop has still to deliver.
   */
  lemma UnfinishedStream(cfg: Config, ops: seq<Op>, trace: seq<State>, i: nat, id: RunId)
    returns (p1: seq<Frame>, p2: seq<Frame>)
    requires Behaviour(cfg, ops, trace) && i < |trace| && id in trace[i].runs
    requires trace[i].runs[id].phase != Finished
    ensures var r := trace[i].runs[id];
      && AllProgress(p1) && AllProgress(p2)
      && p1 + p2 + Owed(r.pending) == Emitted(ops[..i], id)
      && (r.phase == Scheduled ==> r.queue == [])
      && (r.phase == Entered || r.phase == Pipeline ==> r.queue == [Started(id)] + p1 && r.status == Running)
      && (r.phase == Closing ==> exists last ::
            && r.queue == [Started(id)] + p1 + [last] + p2 && Reports(last, r)
            && (TimeoutFires(id) !in ops[..i] ==> p2 == []))
  {
    Reachable(cfg, ops, trace, i);
    MarksAreHistory(cfg, ops, trace, i, id);
    var r := trace[i].runs[id];
    assert RunOk(cfg, id, r);
    var p3;
    p1, p2, p3 := ScanShape(id, r.queue);
    ProgressKept(cfg, ops, trace, i, id);
    ShapeProgress(id, r.queue, Scan(id, r.queue), p1, p2, p3);
    if r.phase == Closing {
      var last := Scan(id, r.queue).last;
      assert r.queue == [Started(id)] + p1 + [last] + p2;
    } else {
      p2 := [];
      if r.phase == Scheduled { p1 := []; }
      assert p1 + p2 == p1;
    }
  }

  // ---------------------------------------------------------------- status is written once

  /** Over any stretch of a run: once reported, status, result and reason stay, however late progress is. */
  lemma {:induction false} StatusFrozen(cfg: Config, ops: seq<Op>, trace: seq<State>, i: nat, j: nat, id: RunId)
    requires Behaviour(cfg, ops, trace) && i <= j < |trace| && id in trace[i].runs
    ensures id in trace[j].runs && Evolves(trace[i].runs[id], trace[j].runs[id])
  {
    if i < j {
      StatusFrozen(cfg, ops, trace, i, j - 1, id);
      Reachable(cfg, ops, trace, j - 1);
      assert trace[j] == Apply(cfg, trace[j - 1], ops[j - 1]);
      StepWritesStatusOnce(cfg, trace[j - 1], ops[j - 1], id);
    }
  }

  /** A run's slot is its own until it reports: whatever other runs do, nobody frees or takes it. */
  lemma {:induction false} SlotKept(cfg: Config, ops: seq<Op>, trace: seq<State>, i: nat, j: nat, id: RunId)
    requires Behaviour(cfg, ops, trace) && i <= j < |trace|
    requires id in trace[i].runs && id in trace[j].runs && Live(trace[j].runs[id])
    ensures id.business in trace[i].active && trace[i].active[id.business] == id && id in trace[i].order
  {
    StatusFrozen(cfg, ops, trace, i, j, id);
    Reachable(cfg, ops, trace, i);
    assert Live(trace[i].runs[id]);
  }

  // ---------------------------------------------------------------- what is recorded

  /** A step that leaves a run RUNNING leaves its result and reason alone. */
  lemma StillRunning(cfg: Config, s: State, op: Op, id: RunId)
    requires Inv(cfg, s) && Enabled(cfg, s, op) && id in s.runs
    requires id in Apply(cfg, s, op).runs && Apply(cfg, s, op).runs[id].status == Running
    ensures Apply(cfg, s, op).runs[id].result == s.runs[id].result
    ensures Apply(cfg, s, op).runs[id].reason == s.runs[id].reason
  {
    if op.Start? || op.id != id {
      OthersUntouched(cfg, s, op, id);
    } else {
      OwnStillRunning(cfg, s, op);
    }
  }

  lemma OwnStillRunning(cfg: Config, s: State, op: Op)
    requires Enabled(cfg, s, op) && !op.Start?
    requires op.id in Apply(cfg, s, op).runs && Apply(cfg, s, op).runs[op.id].status == Running
    ensures Apply(cfg, s, op).runs[op.id].result == s.runs[op.id].result
    ensures Apply(cfg, s, op).runs[op.id].reason == s.runs[op.id].reason
  {}

  /** A run has neither result nor reason while it is RUNNING. */
  lemma {:induction false} NothingRecordedYet(cfg: Config, ops: seq<Op>, trace: seq<State>, i: nat, id: RunId)
    requires Behaviour(cfg, ops, trace) && i < |trace| && id in trace[i].runs && trace[i].runs[id].status == Running
    ensures trace[i].runs[id].result == None && trace[i].runs[id].reason == ""
  {
    if i > 0 {
      var op := ops[i - 1];
      assert trace[i] == Apply(cfg, trace[i - 1], op);
      Reachable(cfg, ops, trace, i - 1);
      if id in trace[i - 1].runs {
        StepWritesStatusOnce(cfg, trace[i - 1], op, id);
        NothingRecordedYet(cfg, ops, trace, i - 1, id);
        StillRunning(cfg, trace[i - 1], op, id);
      } else {
        assert op.Start?;
      }
    }
  }

  /** What a run is left with: its final status, reason and result. */
  datatype Ending = Ending(status: Status, reason: string, result: Option<seq<Candidate>>)

  /** Why a run stops being RUNNING. */
  datatype Cause = HaltedBefore | TimedOut | PipelineEnded(outcome: Outcome)

  /** Nothing to show for an empty pool. */
  function OrNone(pool: seq<Candidate>): Option<seq<Candidate>> {
    if |pool| > 0 then Some(pool) else None
  }

  /** How each cause must leave a run whose worker last showed this pool of candidates. */
  function EndingOf(cause: Cause, pool: seq<Candidate>): Ending {
    match cause
    case HaltedBefore => Ending(Failed, "killswitch", None)
    case TimedOut => Ending(Failed, "timeout", OrNone(pool))
    case PipelineEnded(Returned(judged)) => Ending(Complete, "", Some(judged))
    case PipelineEnded(Aborted(partial)) => Ending(Failed, "killswitch", OrNone(if |pool| > 0 then pool else partial))
    case PipelineEnded(Raised(reason)) => Ending(Failed, reason, None)
    case PipelineEnded(RaisedTimeout) => Ending(Failed, "timeout", OrNone(pool))
  }

  /** Step i is what ends run `id`, which stands at `r` before it. */
  ghost predicate Causes(ops: seq<Op>, i: nat, id: RunId, r: Run, cause: Cause)
    requires i < |ops|
  {
    match cause
    case HaltedBefore => ops[i] == PreCheck(id, Halted)
    case TimedOut => ops[i] == TimeoutFires(id)
    case PipelineEnded(outcome) =>
      ops[i] == Deliver(id) && r.pending == [Done(outcome)] && WorkerEnd(id, outcome) in ops[..i]
  }

  /** The last pool the worker of a run showed; none at first. */
  function LastPool(ops: seq<Op>, id: RunId): seq<Candidate> {
    if ops == [] then []
    else
      var op := ops[|ops| - 1];
      if op.WorkerPartial? && op.id == id then op.candidates else LastPool(ops[..|ops| - 1], id)
  }

  lemma {:induction false} NoPoolYet(cfg: Config, ops: seq<Op>, trace: seq<State>, i: nat, id: RunId)
    requires Behaviour(cfg, ops, trace) && i < |trace| && id !in trace[i].runs
    ensures LastPool(ops[..i], id) == []
  {
    if i > 0 {
      assert ops[..i][..i - 1] == ops[..i - 1];
      assert trace[i] == Apply(cfg, trace[i - 1], ops[i - 1]);
      NoPoolYet(cfg, ops, trace, i - 1, id);
    }
  }

  lemma OwnPool(cfg: Config, s: State, op: Op)
    requires Enabled(cfg, s, op) && !op.Start?
    requires op.id in Apply(cfg, s, op).runs && Apply(cfg, s, op).runs[op.id].status == Running
    ensures Apply(cfg, s, op).runs[op.id].partial == if op.WorkerPartial? then op.candidates else s.runs[op.id].partial
  {}

  /** While a run is RUNNING it holds the last pool its worker showed. */
  lemma {:induction false} HoldsLastPool(cfg: Config, ops: seq<Op>, trace: seq<State>, i: nat, id: RunId)
    requires Behaviour(cfg, ops, trace) && i < |trace| && id in trace[i].runs && trace[i].runs[id].status == Running
    ensures trace[i].runs[id].partial == LastPool(ops[..i], id)
  {
    if i > 0 {
      var op := ops[i - 1];
      assert ops[..i][..i - 1] == ops[..i - 1];
      assert Enabled(cfg, trace[i - 1], op) && trace[i] == Apply(cfg, trace[i - 1], op);
      Reachable(cfg, ops, trace, i - 1);
      if id in trace[i - 1].runs {
        StepWritesStatusOnce(cfg, trace[i - 1], op, id);
        HoldsLastPool(cfg, ops, trace, i - 1, id);
        if op.Start? || op.id != id {
          OthersUntouched(cfg, trace[i - 1], op, id);
        } else {
          OwnPool(cfg, trace[i - 1], op);
        }
      } else {
        NoPoolYet(cfg, ops, trace, i - 1, id);
      }
    }
  }

  lemma OwnDone(cfg: Config, s: State, op: Op, outcome: Outcome)
    requires Enabled(cfg, s, op) && !op.Start? && op.id in Apply(cfg, s, op).runs
    requires Done(outcome) in Apply(cfg, s, op).runs[op.id].pending
    ensures Done(outcome) in s.runs[op.id].pending || op == WorkerEnd(op.id, outcome)
  {}

  /** An outcome to be delivered is one the worker ended with. */
  lemma {:induction false} DoneWasEnded(cfg: Config, ops: seq<Op>, trace: seq<State>, i: nat, id: RunId,
                                        outcome: Outcome)
    requires Behaviour(cfg, ops, trace) && i < |trace| && id in trace[i].runs
    requires Done(outcome) in trace[i].runs[id].pending
    ensures WorkerEnd(id, outcome) in ops[..i]
  {
    if i > 0 {
      var op := ops[i - 1];
      assert ops[..i] == ops[..i - 1] + [op];
      assert Enabled(cfg, trace[i - 1], op) && trace[i] == Apply(cfg, trace[i - 1], op);
      Reachable(cfg, ops, trace, i - 1);
      if id in trace[i - 1].runs {
        if op.Start? || op.id != id {
          OthersUntouched(cfg, trace[i - 1], op, id);
          DoneWasEnded(cfg, ops, trace, i - 1, id, outcome);
        } else {
          OwnDone(cfg, trace[i - 1], op, outcome);
          if Done(outcome) in trace[i - 1].runs[id].pending { DoneWasEnded(cfg, ops, trace, i - 1, id, outcome); }
        }
      }
    }
  }

  /**
   * In every run of the system, the step that ends a run's RUNNING has one cause, and leaves it with
   * exactly the status, reason and result that cause calls for: candidates only of a returned
   * pipeline, or the last pool the worker showed before a timeout or a mid-run abort, and none if
   * that was empty, the run was halted before it began, or the pipeline raised. No other step ends it.
   */
  lemma EndsAsItMust(cfg: Config, ops: seq<Op>, trace: seq<State>, i: nat, id: RunId)
    returns (cause: Option<Cause>)
    requires Behaviour(cfg, ops, trace) && i < |ops|
    requires id in trace[i].runs && trace[i].runs[id].status == Running
    ensures id in trace[i + 1].runs
    ensures trace[i + 1].runs[id].status != Running <==> cause.Some?
    ensures forall c :: Causes(ops, i, id, trace[i].runs[id], c) <==> cause == Some(c)
    ensures var t := trace[i + 1].runs[id];
      cause.Some? ==> EndingOf(cause.value, LastPool(ops[..i], id)) == Ending(t.status, t.reason, t.result)
  {
    var op, r := ops[i], trace[i].runs[id];
    assert Enabled(cfg, trace[i], op) && trace[i + 1] == Apply(cfg, trace[i], op);
    Reachable(cfg, ops, trace, i);
    NothingRecordedYet(cfg, ops, trace, i, id);
    HoldsLastPool(cfg, ops, trace, i, id);
    CauseIsOne(cfg, ops, trace, i, id);
    if op.Start? || op.id != id {
      OthersUntouched(cfg, trace[i], op, id);
      cause := None;
    } else {
      assert RunOk(cfg, id, r);
      OwnEnding(cfg, trace[i], op);
      cause := CauseOf(r, op);
    }
  }

  lemma CauseIsOne(cfg: Config, ops: seq<Op>, trace: seq<State>, i: nat, id: RunId)
    requires Behaviour(cfg, ops, trace) && i < |ops| && id in trace[i].runs
    ensures var own := !ops[i].Start? && ops[i].id == id;
      forall c :: Causes(ops, i, id, trace[i].runs[id], c) <==> own && CauseOf(trace[i].runs[id], ops[i]) == Some(c)
  {
    var op, r := ops[i], trace[i].runs[id];
    if op == Deliver(id) && |r.pending| == 1 && r.pending[0].Done? {
      assert r.pending == [r.pending[0]] && r.pending[0] in r.pending;
      DoneWasEnded(cfg, ops, trace, i, id, r.pending[0].outcome);
    }
  }

  /** The cause in a step, if it has one. */
  function CauseOf(r: Run, op: Op): Option<Cause> {
    match op
    case PreCheck(_, Halted) => Some(HaltedBefore)
    case TimeoutFires(_) => Some(TimedOut)
    case Deliver(_) =>
      if |r.pending| == 1 && r.pending[0].Done? then Some(PipelineEnded(r.pending[0].outcome)) else None
    case _ => None
  }

  lemma OwnEnding(cfg: Config, s: State, op: Op)
    requires Enabled(cfg, s, op) && !op.Start? && RunOk(cfg, op.id, s.runs[op.id])
    requires s.runs[op.id].status == Running && s.runs[op.id].result == None && s.runs[op.id].reason == ""
    ensures op.id in Apply(cfg, s, op).runs
    ensures var r, t := s.runs[op.id], Apply(cfg, s, op).runs[op.id];
      && (t.status != Running <==> CauseOf(r, op).Some?)
      && (t.status != Running ==> EndingOf(CauseOf(r, op).value, r.partial) == Ending(t.status, t.reason, t.result))
  {}

  // ---------------------------------------------------------------- the halt check that raises

  /** The queue of a run whose worker was never started. */
  function IdleQueue(id: RunId, r: Run): seq<Frame> {
    match r.phase
    case Scheduled => []
    case Entered => [Started(id)]
    case Pipeline => [Started(id)]
    case Closing => [Started(id), FailedWith(id, "killswitch")]
    case Finished =>
        if r.crashed then [Started(id), EndOfStream] else [Started(id), FailedWith(id, "killswitch"), EndOfStream]
  }

  lemma {:induction false} IdleQueueIs(cfg: Config, ops: seq<Op>, trace: seq<State>, i: nat, id: RunId)
    requires Behaviour(cfg, ops, trace) && i < |trace| && id in trace[i].runs && trace[i].runs[id].worker == Idle
    ensures trace[i].runs[id].queue == IdleQueue(id, trace[i].runs[id])
  {
    if i > 0 {
      var op := ops[i - 1];
      assert trace[i] == Apply(cfg, trace[i - 1], op);
      Reachable(cfg, ops, trace, i - 1);
      if id in trace[i - 1].runs {
        StepLeavesIdle(cfg, trace[i - 1], op, id);
        IdleQueueIs(cfg, ops, trace, i - 1, id);
        if op.Start? || op.id != id {
          OthersUntouched(cfg, trace[i - 1], op, id);
        } else {
          assert RunOk(cfg, id, trace[i - 1].runs[id]);
          OwnIdleStep(cfg, trace[i - 1], op);
        }
      }
    }
  }

  /** A worker once started is never idle again. */
  lemma StepLeavesIdle(cfg: Config, s: State, op: Op, id: RunId)
    requires Inv(cfg, s) && Enabled(cfg, s, op) && id in s.runs
    ensures id in Apply(cfg, s, op).runs && (Apply(cfg, s, op).runs[id].worker == Idle ==> s.runs[id].worker == Idle)
  {
    if op.Start? || op.id != id {
      OthersUntouched(cfg, s, op, id);
    }
  }

  lemma OwnIdleStep(cfg: Config, s: State, op: Op)
    requires Enabled(cfg, s, op) && !op.Start? && RunOk(cfg, op.id, s.runs[op.id])
    requires s.runs[op.id].worker == Idle && s.runs[op.id].queue == IdleQueue(op.id, s.runs[op.id])
    ensures op.id in Apply(cfg, s, op).runs
    ensures var t := Apply(cfg, s, op).runs[op.id]; t.worker == Idle ==> t.queue == IdleQueue(op.id, t)
  {}

  /**
   * A run whose halt check raised is RUNNING for good: at that moment and ever after it has ended its
   * stream with `started` and the sentinel alone, and has no result and no reason.
   */
  lemma RaisedRunsForGood(cfg: Config, ops: seq<Op>, trace: seq<State>, i: nat, id: RunId)
    requires Behaviour(cfg, ops, trace) && i < |trace| && PreCheck(id, CheckRaises) in ops[..i]
    ensures id in trace[i].runs
    ensures var r := trace[i].runs[id];
      && r.status == Running && r.phase == Finished && r.result == None && r.reason == ""
      && r.queue == [Started(id), EndOfStream]
  {
    if id !in trace[i].runs { UnknownUnmentioned(cfg, ops, trace, i, id, PreCheck(id, CheckRaises)); }
    Reachable(cfg, ops, trace, i);
    MarksAreHistory(cfg, ops, trace, i, id);
    assert RunOk(cfg, id, trace[i].runs[id]);
    NothingRecordedYet(cfg, ops, trace, i, id);
    IdleQueueIs(cfg, ops, trace, i, id);
  }

  /** A finished run has no terminal frame iff its halt check raised. */
  lemma NoTerminalIffRaised(cfg: Config, ops: seq<Op>, trace: seq<State>, i: nat, id: RunId)
    requires Behaviour(cfg, ops, trace) && i < |trace| && id in trace[i].runs && trace[i].runs[id].phase == Finished
    ensures (exists f :: f in trace[i].runs[id].queue && (f.Completed? || f.FailedWith?))
      <==> PreCheck(id, CheckRaises) !in ops[..i]
  {
    if PreCheck(id, CheckRaises) in ops[..i] {
      RaisedRunsForGood(cfg, ops, trace, i, id);
    } else {
      var p1, last, p2, p3 := FinishedStream(cfg, ops, trace, i, id);
      assert trace[i].runs[id].queue[1 + |p1|] == last;
    }
  }

  /** Of two RUNNING runs of one business, the halt check of one has raised. */
  lemma OneRunningRun(cfg: Config, ops: seq<Op>, trace: seq<State>, i: nat, x: RunId, y: RunId)
    requires Behaviour(cfg, ops, trace) && i < |trace|
    requires x in trace[i].runs && y in trace[i].runs && x.business == y.business
    requires trace[i].runs[x].status == Running && trace[i].runs[y].status == Running && x != y
    ensures PreCheck(x, CheckRaises) in ops[..i] || PreCheck(y, CheckRaises) in ops[..i]
  {
    MarksAreHistory(cfg, ops, trace, i, x);
    MarksAreHistory(cfg, ops, trace, i, y);
    OneLiveRunPerBusiness(cfg, ops, trace, i);
    Reachable(cfg, ops, trace, i);
    assert Live(trace[i].runs[x]) && Live(trace[i].runs[y]) ==> x == y;
  }

  ghost predicate TwoRunning(s: State, b: Business) {
    exists x, y :: x in s.runs && y in s.runs && x != y && x.business == b && y.business == b
      && s.runs[x].status == Running && s.runs[y].status == Running
  }

  /** Some halt check of the business has raised. */
  ghost predicate Raised(b: Business, ops: seq<Op>) {
    exists x: RunId :: x.business == b && PreCheck(x, CheckRaises) in ops
  }

  /** A start of the business came after a raise of its halt check. */
  ghost predicate StartedAfterRaise(b: Business, ops: seq<Op>, i: nat)
    requires i <= |ops|
  {
    exists k :: 0 <= k < i && ops[k] == Start(b) && Raised(b, ops[..k])
  }

  /** Every start after a raise leaves two RUNNING runs of the business. */
  lemma StartAfterRaise(cfg: Config, ops: seq<Op>, trace: seq<State>, i: nat, x: RunId) returns (y: RunId)
    requires Behaviour(cfg, ops, trace) && i < |ops|
    requires PreCheck(x, CheckRaises) in ops[..i] && ops[i] == Start(x.business)
    ensures var s := trace[i + 1];
      && x in s.runs && y in s.runs && x != y && y.business == x.business
      && s.runs[x].status == Running && s.runs[y].status == Running
  {
    var s, b := trace[i], x.business;
    assert Enabled(cfg, s, ops[i]) && trace[i + 1] == Apply(cfg, s, ops[i]);
    RaisedRunsForGood(cfg, ops, trace, i, x);
    Reachable(cfg, ops, trace, i);
    OthersUntouched(cfg, s, ops[i], x);
    if b in s.active && s.runs[s.active[b]].status == Running {
      y := s.active[b];
      OthersUntouched(cfg, s, ops[i], y);
    } else {
      y := RunId(b, s.counter + 1);
    }
  }

  /** A start that adds a second RUNNING run found the first one crashed, or it would have re-attached. */
  lemma SecondRunMeansRaised(cfg: Config, ops: seq<Op>, trace: seq<State>, i: nat, x: RunId, y: RunId)
    requires Behaviour(cfg, ops, trace) && i < |ops| && x in trace[i].runs && trace[i].runs[x].status == Running
    requires y !in trace[i].runs && y in trace[i + 1].runs && y.business == x.business
    ensures ops[i] == Start(x.business) && PreCheck(x, CheckRaises) in ops[..i]
  {
    var s := trace[i];
    assert Enabled(cfg, s, ops[i]) && trace[i + 1] == Apply(cfg, s, ops[i]);
    Reachable(cfg, ops, trace, i);
    MarksAreHistory(cfg, ops, trace, i, x);
    assert Live(s.runs[x]) || s.runs[x].crashed;
  }

  /** Nothing returns to RUNNING. */
  lemma WasRunning(cfg: Config, ops: seq<Op>, trace: seq<State>, i: nat, id: RunId)
    requires Behaviour(cfg, ops, trace) && i < |ops| && id in trace[i].runs
    requires id in trace[i + 1].runs && trace[i + 1].runs[id].status == Running
    ensures trace[i].runs[id].status == Running
  {
    Reachable(cfg, ops, trace, i);
    assert Enabled(cfg, trace[i], ops[i]) && trace[i + 1] == Apply(cfg, trace[i], ops[i]);
    StepWritesStatusOnce(cfg, trace[i], ops[i], id);
  }

  lemma {:induction false} TwoRunningNeedsRaise(cfg: Config, ops: seq<Op>, trace: seq<State>, i: nat, b: Business)
    requires Behaviour(cfg, ops, trace) && i < |trace| && TwoRunning(trace[i], b)
    ensures StartedAfterRaise(b, ops, i)
  {
    var s := trace[i];
    var x, y :| x in s.runs && y in s.runs && x != y && x.business == b && y.business == b
      && s.runs[x].status == Running && s.runs[y].status == Running;
    if i > 0 {
      OneNewRun(cfg, ops, trace, i - 1, x, y);
      if x in trace[i - 1].runs { WasRunning(cfg, ops, trace, i - 1, x); }
      if y in trace[i - 1].runs { WasRunning(cfg, ops, trace, i - 1, y); }
      if x !in trace[i - 1].runs {
        SecondRunMeansRaised(cfg, ops, trace, i - 1, y, x);
      } else if y !in trace[i - 1].runs {
        SecondRunMeansRaised(cfg, ops, trace, i - 1, x, y);
      } else {
        TwoRunningNeedsRaise(cfg, ops, trace, i - 1, b);
      }
    }
  }

  /** A step creates one run at most. */
  lemma OneNewRun(cfg: Config, ops: seq<Op>, trace: seq<State>, i: nat, x: RunId, y: RunId)
    requires Behaviour(cfg, ops, trace) && i < |ops| && x in trace[i + 1].runs && y in trace[i + 1].runs && x != y
    ensures x in trace[i].runs || y in trace[i].runs
  {
    assert Enabled(cfg, trace[i], ops[i]) && trace[i + 1] == Apply(cfg, trace[i], ops[i]);
  }

  /**
   * Along every run of the system, a business has at some point two RUNNING runs iff it was started
   * after one of its halt checks had raised.
   */
  lemma TwoRunningIffRaised(cfg: Config, ops: seq<Op>, trace: seq<State>, i: nat, b: Business)
    requires Behaviour(cfg, ops, trace) && i < |trace|
    ensures (exists m :: 0 <= m <= i && TwoRunning(trace[m], b)) <==> StartedAfterRaise(b, ops, i)
  {
    if StartedAfterRaise(b, ops, i) {
      var k :| 0 <= k < i && ops[k] == Start(b) && Raised(b, ops[..k]);
      var x: RunId :| x.business == b && PreCheck(x, CheckRaises) in ops[..k];
      var y := StartAfterRaise(cfg, ops, trace, k, x);
      assert TwoRunning(trace[k + 1], b);
    }
    if exists m :: 0 <= m <= i && TwoRunning(trace[m], b) {
      var m :| 0 <= m <= i && TwoRunning(trace[m], b);
      TwoRunningNeedsRaise(cfg, ops, trace, m, b);
    }
  }

  /** One more step of a run of the system. */
  lemma Extend(cfg: Config, ops: seq<Op>, trace: seq<State>, op: Op)
    requires Behaviour(cfg, ops, trace) && Enabled(cfg, trace[|ops|], op)
    ensures Behaviour(cfg, ops + [op], trace + [Apply(cfg, trace[|ops|], op)])
  {}

  /** A first run up to its halt check, which raises. */
  lemma RaiseOnce(cfg: Config, b: Business) returns (ops: seq<Op>, trace: seq<State>)
    ensures Behaviour(cfg, ops, trace) && PreCheck(RunId(b, 1), CheckRaises) in ops
  {
    var x := RunId(b, 1);
    ops, trace := [Start(b)], [INIT, Apply(cfg, INIT, Start(b))];
    assert x in trace[1].runs && trace[1].runs[x].phase == Scheduled;
    LookupsNeverFail(cfg, ops, trace, 1);
    Extend(cfg, ops, trace, Begin(x));
    ops, trace := ops + [Begin(x)], trace + [Apply(cfg, trace[1], Begin(x))];
    assert x in trace[2].runs && trace[2].runs[x].phase == Entered;
    LookupsNeverFail(cfg, ops, trace, 2);
    Extend(cfg, ops, trace, PreCheck(x, CheckRaises));
    ops, trace := ops + [PreCheck(x, CheckRaises)], trace + [Apply(cfg, trace[2], PreCheck(x, CheckRaises))];
  }

  /** And it can come to that, for any business and under any configuration. */
  lemma RaiseReachable(cfg: Config, b: Business) returns (ops: seq<Op>, trace: seq<State>)
    ensures Behaviour(cfg, ops, trace) && TwoRunning(trace[|ops|], b)
  {
    ops, trace := RaiseOnce(cfg, b);
    var n := |ops|;
    LookupsNeverFail(cfg, ops, trace, n);
    Extend(cfg, ops, trace, Start(b));
    ops, trace := ops + [Start(b)], trace + [Apply(cfg, trace[n], Start(b))];
    assert PreCheck(RunId(b, 1), CheckRaises) in ops[..n];
    var y := StartAfterRaise(cfg, ops, trace, n, RunId(b, 1));
  }
}
