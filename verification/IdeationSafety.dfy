/** What every interleaving of the ideation runner's steps keeps. */
module IdeationSafety {
  import opened Common
  import opened IdeationProtocol

  // ---------------------------------------------------------------- one step

  lemma UpdateRuns(cfg: Config, runs: map<RunId, Run>, counter: nat, id: RunId, r: Run)
    requires RunsOk(cfg, runs, counter) && id in runs && RunOk(cfg, id, r)
    ensures RunsOk(cfg, runs[id := r], counter)
  {}

  lemma UpdateActive(s: State, id: RunId, r: Run)
    requires ActiveOk(s) && id in s.runs && (r.phase == Finished ==> s.runs[id].phase == Finished)
    ensures ActiveOk(s.(runs := s.runs[id := r]))
  {}

  lemma UpdateLive(runs: map<RunId, Run>, active: map<Business, RunId>, id: RunId, r: Run)
    requires LiveOk(runs, active) && id in runs && (Live(r) ==> Live(runs[id]))
    ensures LiveOk(runs[id := r], active)
  {}

  lemma LocalStep(cfg: Config, s: State, id: RunId, r: Run)
    requires Inv(cfg, s) && id in s.runs && RunOk(cfg, id, r)
    requires Live(r) ==> Live(s.runs[id])
    requires r.phase == Finished ==> s.runs[id].phase == Finished
    ensures Inv(cfg, s.(runs := s.runs[id := r]))
  {
    UpdateRuns(cfg, s.runs, s.counter, id, r);
    UpdateActive(s, id, r);
    UpdateLive(s.runs, s.active, id, r);
  }

  /** Freeing a slot that names `id` leaves no entry naming it; other entries stay. */
  lemma FinallyActive(s: State, id: RunId, r: Run)
    requires ActiveOk(s) && id in s.runs && r.business == id.business
    ensures ActiveOk(FinallyStep(s, id, r))
  {}

  lemma FinallyLive(s: State, id: RunId, r: Run)
    requires LiveOk(s.runs, s.active) && id in s.runs && r.business == id.business && !Live(Closed(r))
    ensures LiveOk(FinallyStep(s, id, r).runs, FinallyStep(s, id, r).active)
  {}

  lemma FinallyKeeps(cfg: Config, s: State, id: RunId, r: Run)
    requires Inv(cfg, s) && id in s.runs && r.business == id.business
    requires RunOk(cfg, id, Closed(r)) && !Live(Closed(r))
    ensures Inv(cfg, FinallyStep(s, id, r))
  {
    UpdateRuns(cfg, s.runs, s.counter, id, Closed(r));
    FinallyActive(s, id, r);
    FinallyLive(s, id, r);
  }

  lemma FailedOk(cfg: Config, id: RunId, r: Run, reason: string, partial: Option<seq<Candidate>>)
    requires r.business == id.business && Scan(id, r.queue) == Open && !r.crashed
    requires WorkerOk(cfg, r.(phase := Closing))
    ensures RunOk(cfg, id, FailRun(id, r, reason, partial))
  {}

  lemma BeginKeeps(cfg: Config, s: State, id: RunId)
    requires Inv(cfg, s) && Enabled(cfg, s, Begin(id))
    ensures Inv(cfg, Apply(cfg, s, Begin(id)))
  {
    var r := s.runs[id];
    assert RunOk(cfg, id, r);
    ScanSnoc(id, r.queue, Started(id));
    LocalStep(cfg, s, id, r.(queue := r.queue + [Started(id)], phase := Entered));
  }

  lemma PreCheckKeeps(cfg: Config, s: State, id: RunId, check: HaltCheck)
    requires Inv(cfg, s) && Enabled(cfg, s, PreCheck(id, check))
    ensures Inv(cfg, Apply(cfg, s, PreCheck(id, check)))
  {
    var r := s.runs[id];
    assert RunOk(cfg, id, r);
    match check {
      case Clear => LocalStep(cfg, s, id, r.(phase := Pipeline, worker := Working));
      case Halted =>
        FailedOk(cfg, id, r, "killswitch", None);
        LocalStep(cfg, s, id, FailRun(id, r, "killswitch", None));
      case CheckRaises =>
        ScanSnoc(id, r.queue, EndOfStream);
        FinallyKeeps(cfg, s, id, r.(crashed := true));
    }
  }

  lemma WorkerKeeps(cfg: Config, s: State, op: Op)
    requires Inv(cfg, s) && Enabled(cfg, s, op)
    requires op.WorkerStep? || op.WorkerPartial? || op.WorkerEnd?
    ensures Inv(cfg, Apply(cfg, s, op))
  {
    assert RunOk(cfg, op.id, s.runs[op.id]);
    LocalStep(cfg, s, op.id, Apply(cfg, s, op).runs[op.id]);
  }

  lemma ResolveOk(cfg: Config, id: RunId, r: Run, outcome: Outcome)
    requires r.business == id.business && Scan(id, r.queue) == Open && !r.crashed
    requires r.worker == Ended && r.pending == [] && !r.timedOut
    ensures RunOk(cfg, id, Resolve(id, r, outcome)) && !Live(Resolve(id, r, outcome))
  {
    match outcome {
      case Returned(judged) => ScanSnoc(id, r.queue, Completed(id, |judged|));
      case Aborted(partial) =>
        var kept := if r.partial != [] then r else r.(partial := partial);
        FailedOk(cfg, id, kept, "killswitch", PartialResult(kept));
      case Raised(reason) => FailedOk(cfg, id, r, reason, None);
      case RaisedTimeout => FailedOk(cfg, id, r, "timeout", PartialResult(r));
    }
  }

  lemma DeliveredOk(cfg: Config, id: RunId, r: Run)
    requires RunOk(cfg, id, r) && r.pending != []
    ensures RunOk(cfg, id, Delivered(id, r))
    ensures Live(Delivered(id, r)) ==> Live(r)
    ensures Delivered(id, r).phase == Finished ==> r.phase == Finished
  {
    match r.pending[0] {
      case Emit(step, status) =>
        ScanSnoc(id, r.queue, Progressed(step, status));
        assert r.pending[1..] != [] ==> r.pending[1..][|r.pending| - 2] == r.pending[|r.pending| - 1];
      case Done(outcome) =>
        if r.phase == Pipeline {
          ResolveOk(cfg, id, r.(pending := r.pending[1..]), outcome);
        }
    }
  }

  lemma DeliverKeeps(cfg: Config, s: State, id: RunId)
    requires Inv(cfg, s) && Enabled(cfg, s, Deliver(id))
    ensures Inv(cfg, Apply(cfg, s, Deliver(id)))
  {
    assert RunOk(cfg, id, s.runs[id]);
    DeliveredOk(cfg, id, s.runs[id]);
    LocalStep(cfg, s, id, Delivered(id, s.runs[id]));
  }

  lemma TimeoutKeeps(cfg: Config, s: State, id: RunId)
    requires Inv(cfg, s) && Enabled(cfg, s, TimeoutFires(id))
    ensures Inv(cfg, Apply(cfg, s, TimeoutFires(id)))
  {
    assert RunOk(cfg, id, s.runs[id]);
    var r := s.runs[id].(timedOut := true);
    FailedOk(cfg, id, r, "timeout", PartialResult(r));
    LocalStep(cfg, s, id, FailRun(id, r, "timeout", PartialResult(r)));
  }

  lemma FinishKeeps(cfg: Config, s: State, id: RunId)
    requires Inv(cfg, s) && Enabled(cfg, s, Finish(id))
    ensures Inv(cfg, Apply(cfg, s, Finish(id)))
  {
    assert RunOk(cfg, id, s.runs[id]);
    ScanSnoc(id, s.runs[id].queue, EndOfStream);
    FinallyKeeps(cfg, s, id, s.runs[id]);
  }

  lemma EnrolledRuns(cfg: Config, s: State, b: Business)
    requires RunsOk(cfg, s.runs, s.counter)
    ensures RunsOk(cfg, Enrolled(s, b).runs, Enrolled(s, b).counter)
    ensures RunId(b, s.counter + 1) !in s.runs
  {}

  lemma EnrolledActive(s: State, b: Business)
    requires ActiveOk(s) && LiveOk(s.runs, s.active) && RunId(b, s.counter + 1) !in s.runs
    requires b in s.active ==> s.runs[s.active[b]].status != Running
    ensures ActiveOk(Enrolled(s, b)) && LiveOk(Enrolled(s, b).runs, Enrolled(s, b).active)
  {}

  lemma EnrolledOrder(s: State, b: Business)
    requires Registered(s.runs, s.order) && Distinct(s.order) && RunId(b, s.counter + 1) !in s.runs
    ensures Registered(Enrolled(s, b).runs, Enrolled(s, b).order) && Distinct(Enrolled(s, b).order)
  {
    DistinctSnoc(s.order, RunId(b, s.counter + 1));
  }

  /** Active runs belong to pairwise distinct businesses, because a business has one active run. */
  lemma ActivesDiffer(s: State)
    requires Registered(s.runs, s.order) && Distinct(s.order)
    requires forall id :: id in s.order ==>
        id in s.runs && id.business == s.runs[id].business && IsActive(s.runs, s.active, id)
    ensures DistinctBusinesses(s.order)
  {
    forall j, k | 0 <= j < k < |s.order| ensures s.order[j].business != s.order[k].business {
      DistinctAt(s.order, j, k);
      assert s.order[j] in s.order && s.order[k] in s.order;
    }
  }

  lemma EvictionKeeps(cfg: Config, t: State)
    requires Registered(t.runs, t.order) && Distinct(t.order)
    requires RunsOk(cfg, t.runs, t.counter) && ActiveOk(t) && LiveOk(t.runs, t.active)
    ensures Inv(cfg, Evicted(cfg, t))
  {
    var k := |t.order| - cfg.maxRuns;
    DropKeeps(t.order, t.runs, t.active, k);
    var u := Evicted(cfg, t);
    forall j | 0 <= j < |u.order| ensures u.order[j] in u.runs {
      assert u.order[j] in u.order;
    }
    forall b | b in u.active ensures u.active[b] in u.order {
      assert IsActive(t.runs, t.active, t.active[b]);
    }
    if k > 0 && |u.order| > cfg.maxRuns {
      DropReachesCap(t.order, t.runs, t.active, k);
      ActivesDiffer(u);
    }
  }

  lemma LaunchKeeps(cfg: Config, s: State, b: Business)
    requires Registered(s.runs, s.order) && Distinct(s.order)
    requires RunsOk(cfg, s.runs, s.counter) && ActiveOk(s) && LiveOk(s.runs, s.active)
    requires b in s.active ==> s.runs[s.active[b]].status != Running
    ensures Inv(cfg, Launch(cfg, s, b))
  {
    EnrolledRuns(cfg, s, b);
    EnrolledActive(s, b);
    EnrolledOrder(s, b);
    EvictionKeeps(cfg, Enrolled(s, b));
  }

  lemma StartKeeps(cfg: Config, s: State, b: Business)
    requires Inv(cfg, s)
    ensures Inv(cfg, StartStep(cfg, s, b).0)
    ensures StartStep(cfg, s, b).1 != LookupError
  {
    if StartStep(cfg, s, b).1.Launched? {
      LaunchKeeps(cfg, s, b);
    }
  }

  lemma StepKeeps(cfg: Config, s: State, op: Op)
    requires Inv(cfg, s) && Enabled(cfg, s, op)
    ensures Inv(cfg, Apply(cfg, s, op))
  {
    match op {
      case Start(b) => StartKeeps(cfg, s, b);
      case Begin(id) => BeginKeeps(cfg, s, id);
      case PreCheck(id, check) => PreCheckKeeps(cfg, s, id, check);
      case WorkerStep(id, step, status) => WorkerKeeps(cfg, s, op);
      case WorkerPartial(id, candidates) => WorkerKeeps(cfg, s, op);
      case WorkerEnd(id, outcome) => WorkerKeeps(cfg, s, op);
      case Deliver(id) => DeliverKeeps(cfg, s, id);
      case TimeoutFires(id) => TimeoutKeeps(cfg, s, id);
      case Finish(id) => FinishKeeps(cfg, s, id);
    }
  }
}
