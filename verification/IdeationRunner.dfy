/**
 * The runner object itself: its registry, active slots and counter as fields, one method for each
 * uninterrupted stretch of src/ab_growth/ideation_runner.py, each proved to take exactly the step
 * of the protocol and to keep its invariant.
 */
module IdeationRunner {
  import opened Common
  import opened IdeationProtocol
  import opened IdeationSafety
  import IdeationTheorems

  /** Active runs at the front are passed over. */
  lemma {:induction false} DropPrefix(order: seq<RunId>, runs: map<RunId, Run>, active: map<Business, RunId>, k: int,
                                      j: nat)
    requires Registered(runs, order) && j <= |order|
    requires forall i :: 0 <= i < j ==> IsActive(runs, active, order[i])
    ensures DropInactive(order, runs, active, k) == order[..j] + DropInactive(order[j..], runs, active, k)
  {
    if j > 0 && k > 0 {
      DropPrefix(order[1..], runs, active, k, j - 1);
      assert order[..j] == [order[0]] + order[1..][..j - 1] && order[1..][j - 1..] == order[j..];
    }
  }

  /** Deleting the first inactive run is one round of eviction. */
  lemma DropFirst(order: seq<RunId>, runs: map<RunId, Run>, active: map<Business, RunId>, k: int, j: nat)
    requires Registered(runs, order) && j < |order| && k > 0
    requires forall i :: 0 <= i < j ==> IsActive(runs, active, order[i])
    requires !IsActive(runs, active, order[j])
    ensures Registered(runs, order[..j] + order[j + 1..])
    ensures DropInactive(order, runs, active, k) == DropInactive(order[..j] + order[j + 1..], runs, active, k - 1)
  {
    var less := order[..j] + order[j + 1..];
    DropPrefix(order, runs, active, k, j);
    DropPrefix(less, runs, active, k - 1, j);
    assert less[..j] == order[..j] && less[j..] == order[j + 1..] && order[j..][1..] == order[j + 1..];
  }

  class InProcessIdeationRunner {
    const cfg: Config
    var runs: map<RunId, Run>
    var order: seq<RunId>
    var active: map<Business, RunId>
    var counter: nat

    ghost function Now(): State
      reads this
    {
      State(runs, order, active, counter)
    }

    ghost predicate Valid()
      reads this
    {
      Inv(cfg, Now())
    }

    constructor (cfg: Config)
      ensures Valid() && Now() == INIT && this.cfg == cfg
    {
      this.cfg := cfg;
      runs, order, active, counter := map[], [], map[], 0;
      new;
      assert cfg.maxRuns < 0 ==> DistinctBusinesses(order);
    }

    /** Drop the oldest inactive runs until the cap holds or everything left is active. */
    method EvictOldest()
      requires Registered(runs, order)
      modifies this`order
      ensures Now() == Evicted(cfg, old(Now()))
    {
      ghost var target := DropInactive(order, runs, active, |order| - cfg.maxRuns);
      while |order| > cfg.maxRuns
        invariant Registered(runs, order)
        invariant DropInactive(order, runs, active, |order| - cfg.maxRuns) == target
        decreases |order|
      {
        var j := 0;
        while j < |order| && IsActive(runs, active, order[j])
          invariant j <= |order|
          invariant forall i :: 0 <= i < j ==> IsActive(runs, active, order[i])
        {
          j := j + 1;
        }
        if j == |order| {
          DropPrefix(order, runs, active, |order| - cfg.maxRuns, j);
          break;
        }
        DropFirst(order, runs, active, |order| - cfg.maxRuns, j);
        order := order[..j] + order[j + 1..];
      }
    }

    /** Re-attach to the business's run in flight, or register and schedule a new one. */
    method Start(business: Business) returns (id: RunId)
      requires Valid()
      modifies this
      ensures Valid() && Now() == StartStep(cfg, old(Now()), business).0
      ensures StartStep(cfg, old(Now()), business).1 == (if id in old(runs) then Attached(id) else Launched(id))
    {
      StartKeeps(cfg, Now(), business);
      if business in active {
        assert active[business] in order;
        if runs[active[business]].status == Running {
          return active[business];
        }
      }
      assert RunId(business, counter + 1) !in runs;
      counter := counter + 1;
      id := RunId(business, counter);
      runs := runs[id := FreshRun(business)];
      order := order + [id];
      active := active[business := id];
      EvictOldest();
    }

    /** The coroutine's first stretch: find the run, announce it. */
    method Begin(id: RunId)
      requires Valid() && Enabled(cfg, Now(), Op.Begin(id))
      modifies this`runs
      ensures Valid() && Now() == Apply(cfg, old(Now()), Op.Begin(id))
    {
      BeginKeeps(cfg, Now(), id);
      var run := runs[id];
      runs := runs[id := run.(queue := run.queue + [Started(id)], phase := Entered)];
    }

    /** Report a run as failed: status, reason, best-effort partial result, terminal frame. */
    method Fail(id: RunId, reason: string, partial: Option<seq<Candidate>>)
      requires id in runs
      modifies this`runs
      ensures runs == old(runs)[id := FailRun(id, old(runs)[id], reason, partial)]
    {
      var run := runs[id];
      run := run.(status := Failed);
      run := run.(reason := reason);
      if partial.Some? {
        run := run.(result := partial);
      }
      run := run.(queue := run.queue + [FailedWith(id, reason)]);
      runs := runs[id := run.(phase := Closing)];
    }

    /** `finally`: free the slot if it still names this run, then put the sentinel. */
    method Finally(id: RunId)
      requires id in runs
      modifies this`runs, this`active
      ensures Now() == FinallyStep(old(Now()), id, old(runs)[id])
    {
      var run := runs[id];
      if run.business in active && active[run.business] == id {
        active := active - {run.business};
      }
      runs := runs[id := run.(queue := run.queue + [EndOfStream], phase := Finished)];
    }

    /** The kill-switch check before any spend. */
    method PreCheck(id: RunId, check: HaltCheck)
      requires Valid() && Enabled(cfg, Now(), Op.PreCheck(id, check))
      modifies this`runs, this`active
      ensures Valid() && Now() == Apply(cfg, old(Now()), Op.PreCheck(id, check))
    {
      PreCheckKeeps(cfg, Now(), id, check);
      match check {
        case Clear => runs := runs[id := runs[id].(phase := Pipeline, worker := Working)];
        case Halted => Fail(id, "killswitch", None);
        case CheckRaises =>
          ghost var before := runs;
          runs := runs[id := runs[id].(crashed := true)];
          Finally(id);
          assert runs == before[id := Closed(before[id].(crashed := true))];
      }
    }

    /** The worker hands a progress frame to the event loop. */
    method EmitStep(id: RunId, step: string, status: string)
      requires Valid() && Enabled(cfg, Now(), WorkerStep(id, step, status))
      modifies this`runs
      ensures Valid() && Now() == Apply(cfg, old(Now()), WorkerStep(id, step, status))
    {
      WorkerKeeps(cfg, Now(), WorkerStep(id, step, status));
      runs := runs[id := runs[id].(pending := runs[id].pending + [Emit(step, status)])];
    }

    /** The worker snapshots its candidate pool. */
    method SetPartial(id: RunId, candidates: seq<Candidate>)
      requires Valid() && Enabled(cfg, Now(), WorkerPartial(id, candidates))
      modifies this`runs
      ensures Valid() && Now() == Apply(cfg, old(Now()), WorkerPartial(id, candidates))
    {
      WorkerKeeps(cfg, Now(), WorkerPartial(id, candidates));
      runs := runs[id := runs[id].(partial := candidates)];
    }

    /** The pipeline returns or raises in its worker thread. */
    method EndPipeline(id: RunId, outcome: Outcome)
      requires Valid() && Enabled(cfg, Now(), WorkerEnd(id, outcome))
      modifies this`runs
      ensures Valid() && Now() == Apply(cfg, old(Now()), WorkerEnd(id, outcome))
    {
      WorkerKeeps(cfg, Now(), WorkerEnd(id, outcome));
      runs := runs[id := runs[id].(worker := Ended, pending := runs[id].pending + [Done(outcome)])];
    }

    /** The awaited pipeline's outcome: complete, or fail with what the exception calls for. */
    method Settle(id: RunId, outcome: Outcome)
      requires id in runs
      modifies this`runs
      ensures runs == old(runs)[id := Resolve(id, old(runs)[id], outcome)]
    {
      var run := runs[id];
      match outcome {
        case Returned(judged) =>
          run := run.(result := Some(judged));
          run := run.(status := Complete);
          run := run.(queue := run.queue + [Completed(id, |judged|)]);
          runs := runs[id := run.(phase := Closing)];
        case Aborted(partial) =>
          if run.partial == [] {
            runs := runs[id := run.(partial := partial)];
          }
          Fail(id, "killswitch", PartialResult(runs[id]));
        case Raised(reason) => Fail(id, reason, None);
        case RaisedTimeout => Fail(id, "timeout", PartialResult(run));
      }
    }

    /** The event loop runs the oldest callback the worker queued for this run. */
    method DeliverNext(id: RunId)
      requires Valid() && Enabled(cfg, Now(), Deliver(id))
      modifies this`runs
      ensures Valid() && Now() == Apply(cfg, old(Now()), Deliver(id))
    {
      DeliverKeeps(cfg, Now(), id);
      ghost var before := runs;
      var run := runs[id];
      runs := runs[id := run.(pending := run.pending[1..])];
      match run.pending[0] {
        case Emit(step, status) =>
          runs := runs[id := runs[id].(queue := runs[id].queue + [Progressed(step, status)])];
        case Done(outcome) =>
          if run.phase == Pipeline {
            Settle(id, outcome);
          }
      }
      assert runs == before[id := Delivered(id, run)];
    }

    /** The whole-run timeout fires while the pipeline is awaited. */
    method OnTimeout(id: RunId)
      requires Valid() && Enabled(cfg, Now(), TimeoutFires(id))
      modifies this`runs
      ensures Valid() && Now() == Apply(cfg, old(Now()), TimeoutFires(id))
    {
      TimeoutKeeps(cfg, Now(), id);
      ghost var before := runs;
      runs := runs[id := runs[id].(timedOut := true)];
      Fail(id, "timeout", PartialResult(runs[id]));
      assert runs == before[id := runs[id]];
    }

    /** The coroutine's last stretch. */
    method Finish(id: RunId)
      requires Valid() && Enabled(cfg, Now(), Op.Finish(id))
      modifies this`runs, this`active
      ensures Valid() && Now() == Apply(cfg, old(Now()), Op.Finish(id))
    {
      FinishKeeps(cfg, Now(), id);
      Finally(id);
    }

    /** A registered run's state; evicted and unknown runs have none. */
    method Snapshot(id: RunId) returns (r: Option<Run>)
      requires Valid()
      ensures r.Some? <==> id in order
      ensures r.Some? ==> id in runs && r.value == runs[id]
    {
      if id in order {
        assert exists k :: 0 <= k < |order| && order[k] == id;
        return Some(runs[id]);
      }
      return None;
    }

    /**
     * One consumer reading a run's queue from the start: what it yields before the sentinel, and
     * whether it has ended or waits for more. An unknown or evicted run yields nothing.
     */
    method Stream(id: RunId) returns (frames: seq<Frame>, ended: bool)
      requires Valid()
      ensures id !in order ==> frames == [] && ended
      ensures id in order ==> id in runs
      ensures id in order ==> frames == IdeationTheorems.Streamed(runs[id].queue)
      ensures id in order ==> (ended <==> EndOfStream in runs[id].queue)
    {
      frames := [];
      if id !in order {
        return [], true;
      }
      assert exists k :: 0 <= k < |order| && order[k] == id;
      var queue := runs[id].queue;
      var k := 0;
      while k < |queue| && queue[k] != EndOfStream
        invariant k <= |queue| && frames == queue[..k] && EndOfStream !in frames
      {
        frames := frames + [queue[k]];
        k := k + 1;
      }
      assert queue == queue[..k] + queue[k..];
      IdeationTheorems.StreamedUpTo(queue[..k], queue[k..]);
      return frames, k < |queue|;
    }
  }
}
