/**
 * The asynchronous ideation runner (src/ab_growth/ideation_runner.py) as a state machine: one step
 * for each stretch of code the event loop or a worker thread runs without interruption.
 *
 * `runs` holds every run object ever created (a detached coroutine keeps its own alive after eviction);
 * `order` lists the registered ones in insertion order.
 */
module IdeationProtocol {
  import opened Common

  type Business = string
  type Candidate = string

  /** Stands for the text run_<business>_<number>. */
  datatype RunId = RunId(business: Business, number: nat)

  datatype Status = Running | Complete | Failed

  datatype Frame =
    | Started(run: RunId)
    | Progressed(step: string, status: string)
    | Completed(run: RunId, candidateCount: nat)
    | FailedWith(run: RunId, reason: string)
    | EndOfStream

  /** Where a run's coroutine stands between two of its steps. */
  datatype Phase =
    | Scheduled   // created, first step not yet taken
    | Entered     // `started` frame queued
    | Pipeline    // awaiting the worker
    | Closing     // terminal frame queued, `finally` still to come
    | Finished    // `finally` done

  datatype Worker = Idle | Working | Ended

  /** How the pipeline ends; a TimeoutError of its own is caught like the whole-run timeout. */
  datatype Outcome =
    | Returned(judged: seq<Candidate>)
    | Aborted(partial: seq<Candidate>)
    | Raised(reason: string)
    | RaisedTimeout

  /** What the worker has handed to the event loop and the loop has not run yet. */
  datatype Callback = Emit(step: string, status: string) | Done(outcome: Outcome)

  datatype Run = Run(
    business: Business,
    status: Status,
    result: Option<seq<Candidate>>,
    reason: string,
    partial: seq<Candidate>,
    queue: seq<Frame>,
    phase: Phase,
    worker: Worker,
    pending: seq<Callback>,
    timedOut: bool,  // history: the whole-run timeout fired
    crashed: bool    // history: the halt check raised
  )

  datatype State = State(runs: map<RunId, Run>, order: seq<RunId>, active: map<Business, RunId>, counter: nat)

  datatype Config = Config(maxRuns: int, timeoutSet: bool)

  datatype HaltCheck = Clear | Halted | CheckRaises

  datatype StartResult = Attached(id: RunId) | Launched(id: RunId) | LookupError

  datatype Op =
    | Start(business: Business)
    | Begin(id: RunId)
    | PreCheck(id: RunId, check: HaltCheck)
    | WorkerStep(id: RunId, step: string, status: string)
    | WorkerPartial(id: RunId, candidates: seq<Candidate>)
    | WorkerEnd(id: RunId, outcome: Outcome)
    | Deliver(id: RunId)
    | TimeoutFires(id: RunId)
    | Finish(id: RunId)

  const INIT := State(map[], [], map[], 0)

  // ---------------------------------------------------------------- the registry

  predicate IsActive(runs: map<RunId, Run>, active: map<Business, RunId>, id: RunId)
    requires id in runs
  {
    runs[id].business in active && active[runs[id].business] == id
  }

  predicate Registered(runs: map<RunId, Run>, order: seq<RunId>) {
    forall k :: 0 <= k < |order| ==> order[k] in runs
  }

  /** `order` without its first k inactive runs. */
  function DropInactive(order: seq<RunId>, runs: map<RunId, Run>, active: map<Business, RunId>, k: int): seq<RunId>
    requires Registered(runs, order)
  {
    if k <= 0 || order == [] then order
    else if IsActive(runs, active, order[0]) then [order[0]] + DropInactive(order[1..], runs, active, k)
    else DropInactive(order[1..], runs, active, k - 1)
  }

  function Evicted(cfg: Config, s: State): State
    requires Registered(s.runs, s.order)
  {
    s.(order := DropInactive(s.order, s.runs, s.active, |s.order| - cfg.maxRuns))
  }

  function FreshRun(b: Business): Run {
    Run(b, Running, None, "", [], [], Scheduled, Idle, [], false, false)
  }

  /** The new run registered and active, before eviction. */
  function Enrolled(s: State, b: Business): State {
    var id := RunId(b, s.counter + 1);
    State(s.runs[id := FreshRun(b)], s.order + [id], s.active[b := id], s.counter + 1)
  }

  function Launch(cfg: Config, s: State, b: Business): State
    requires Registered(s.runs, s.order)
  {
    Evicted(cfg, Enrolled(s, b))
  }

  function StartStep(cfg: Config, s: State, b: Business): (State, StartResult)
    requires Registered(s.runs, s.order)
  {
    if b in s.active && s.active[b] !in s.order then (s, LookupError)
    else if b in s.active && s.runs[s.active[b]].status == Running then (s, Attached(s.active[b]))
    else (Launch(cfg, s, b), Launched(RunId(b, s.counter + 1)))
  }

  // ---------------------------------------------------------------- one run's coroutine

  function FailRun(id: RunId, r: Run, reason: string, partial: Option<seq<Candidate>>): Run {
    r.(status := Failed, reason := reason, result := if partial.Some? then partial else r.result,
       queue := r.queue + [FailedWith(id, reason)], phase := Closing)
  }

  /** The pool snapshot put through the gate: every candidate judged, or nothing for an empty pool. */
  function PartialResult(r: Run): Option<seq<Candidate>> {
    if r.partial == [] then None else Some(r.partial)
  }

  function Resolve(id: RunId, r: Run, outcome: Outcome): Run {
    match outcome
    case Returned(judged) =>
      r.(status := Complete, result := Some(judged), queue := r.queue + [Completed(id, |judged|)], phase := Closing)
    case Aborted(partial) =>
      var kept := if r.partial != [] then r else r.(partial := partial);
      FailRun(id, kept, "killswitch", PartialResult(kept))
    case Raised(reason) => FailRun(id, r, reason, None)
    case RaisedTimeout => FailRun(id, r, "timeout", PartialResult(r))
  }

  function Delivered(id: RunId, r: Run): Run
    requires r.pending != []
  {
    var rest := r.(pending := r.pending[1..]);
    match r.pending[0]
    case Emit(step, status) => rest.(queue := r.queue + [Progressed(step, status)])
    case Done(outcome) => if r.phase == Pipeline then Resolve(id, rest, outcome) else rest
  }

  function Closed(r: Run): Run {
    r.(queue := r.queue + [EndOfStream], phase := Finished)
  }

  /** `finally`: free the business's slot if this run still holds it, end the stream. */
  function FinallyStep(s: State, id: RunId, r: Run): State {
    s.(active := if r.business in s.active && s.active[r.business] == id then s.active - {r.business} else s.active,
       runs := s.runs[id := Closed(r)])
  }

  function PreCheckStep(s: State, id: RunId, check: HaltCheck): State
    requires id in s.runs
  {
    var r := s.runs[id];
    match check
    case Clear => s.(runs := s.runs[id := r.(phase := Pipeline, worker := Working)])
    case Halted => s.(runs := s.runs[id := FailRun(id, r, "killswitch", None)])
    case CheckRaises => FinallyStep(s, id, r.(crashed := true))
  }

  ghost predicate Enabled(cfg: Config, s: State, op: Op) {
    && Registered(s.runs, s.order)
    && (op.Start? || op.id in s.runs)
    && match op
       case Start(b) => true
       case Begin(id) => s.runs[id].phase == Scheduled && id in s.order
       case PreCheck(id, check) => s.runs[id].phase == Entered
       case WorkerStep(id, step, status) => s.runs[id].worker == Working
       case WorkerPartial(id, candidates) => s.runs[id].worker == Working
       case WorkerEnd(id, outcome) => s.runs[id].worker == Working
       case Deliver(id) => s.runs[id].pending != []
       case TimeoutFires(id) => s.runs[id].phase == Pipeline && cfg.timeoutSet
       case Finish(id) => s.runs[id].phase == Closing
  }

  ghost function Apply(cfg: Config, s: State, op: Op): State
    requires Enabled(cfg, s, op)
  {
    match op
    case Start(b) => StartStep(cfg, s, b).0
    case Begin(id) => s.(runs := s.runs[id := s.runs[id].(queue := s.runs[id].queue + [Started(id)], phase := Entered)])
    case PreCheck(id, check) => PreCheckStep(s, id, check)
    case WorkerStep(id, step, status) =>
      s.(runs := s.runs[id := s.runs[id].(pending := s.runs[id].pending + [Emit(step, status)])])
    case WorkerPartial(id, candidates) => s.(runs := s.runs[id := s.runs[id].(partial := candidates)])
    case WorkerEnd(id, outcome) =>
      s.(runs := s.runs[id := s.runs[id].(worker := Ended, pending := s.runs[id].pending + [Done(outcome)])])
    case Deliver(id) => s.(runs := s.runs[id := Delivered(id, s.runs[id])])
    case TimeoutFires(id) =>
      s.(runs := s.runs[id := FailRun(id, s.runs[id].(timedOut := true), "timeout", PartialResult(s.runs[id]))])
    case Finish(id) => FinallyStep(s, id, s.runs[id])
  }

  // ---------------------------------------------------------------- what a stream looks like

  /** How far a queue has come as a stream; `late` once a progress frame follows the terminal one. */
  datatype Stage =
    | Fresh
    | Open
    | Terminated(last: Frame, late: bool)
    | Over(terminal: Option<Frame>, late: bool)
    | Malformed

  function Advance(id: RunId, stage: Stage, f: Frame): Stage {
    match (stage, f)
    case (Fresh, Started(run)) => if run == id then Open else Malformed
    case (Open, Progressed(_, _)) => Open
    case (Open, Completed(run, _)) => if run == id then Terminated(f, false) else Malformed
    case (Open, FailedWith(run, _)) => if run == id then Terminated(f, false) else Malformed
    case (Open, EndOfStream) => Over(None, false)
    case (Terminated(last, late), Progressed(_, _)) => Terminated(last, true)
    case (Terminated(last, late), EndOfStream) => Over(Some(last), late)
    case (Over(terminal, late), Progressed(_, _)) => Over(terminal, true)
    case _ => Malformed
  }

  function Scan(id: RunId, queue: seq<Frame>): Stage {
    if queue == [] then Fresh else Advance(id, Scan(id, queue[..|queue| - 1]), queue[|queue| - 1])
  }

  lemma ScanSnoc(id: RunId, queue: seq<Frame>, f: Frame)
    ensures Scan(id, queue + [f]) == Advance(id, Scan(id, queue), f)
  {}

  // ---------------------------------------------------------------- the invariant

  /** The terminal frame reports the run's own status. */
  ghost predicate Reports(f: Frame, r: Run) {
    match f
    case Completed(_, n) => r.status == Complete && r.result.Some? && |r.result.value| == n
    case FailedWith(_, reason) => r.status == Failed && r.reason == reason
    case _ => false
  }

  ghost predicate QueueOk(id: RunId, r: Run) {
    var stage := Scan(id, r.queue);
    match r.phase
    case Scheduled => stage == Fresh
    case Entered => stage == Open
    case Pipeline => stage == Open
    case Closing => stage.Terminated? && Reports(stage.last, r) && (stage.late ==> r.timedOut)
    case Finished =>
      if r.crashed then stage == Over(None, false)
      else stage.Over? && stage.terminal.Some? && Reports(stage.terminal.value, r) && (stage.late ==> r.timedOut)
  }

  ghost predicate WorkerOk(cfg: Config, r: Run) {
    && (r.worker == Idle ==> r.pending == [])
    && (r.worker == Working ==> forall k :: 0 <= k < |r.pending| ==> r.pending[k].Emit?)
    && (r.worker == Ended ==> forall k :: 0 <= k < |r.pending| - 1 ==> r.pending[k].Emit?)
    && (r.phase.Scheduled? || r.phase.Entered? || r.crashed ==> r.worker == Idle)
    && (r.phase.Pipeline? ==> r.worker != Idle)
    && (r.phase.Pipeline? && r.worker == Ended ==> r.pending != [] && r.pending[|r.pending| - 1].Done?)
    && (r.phase.Closing? || r.phase.Finished? ==> !r.timedOut ==> r.worker != Working && r.pending == [])
    && (r.timedOut ==> cfg.timeoutSet && (r.phase.Closing? || r.phase.Finished?))
  }

  ghost predicate RunOk(cfg: Config, id: RunId, r: Run) {
    && r.business == id.business
    && QueueOk(id, r)
    && WorkerOk(cfg, r)
    && (r.crashed ==> r.phase == Finished)
    && (r.status == Running <==> r.crashed || r.phase.Scheduled? || r.phase.Entered? || r.phase.Pipeline?)
  }

  /** A run that has neither reported nor crashed. */
  predicate Live(r: Run) {
    r.status == Running && !r.crashed
  }

  ghost predicate DistinctBusinesses(order: seq<RunId>) {
    forall j, k :: 0 <= j < k < |order| ==> order[j].business != order[k].business
  }

  ghost predicate Distinct(order: seq<RunId>) {
    order != [] ==> order[0] !in order[1..] && Distinct(order[1..])
  }

  ghost predicate RunsOk(cfg: Config, runs: map<RunId, Run>, counter: nat) {
    && (forall id :: id in runs ==> 1 <= id.number <= counter && runs[id].business == id.business)
    && (forall id {:trigger RunOk(cfg, id, runs[id])} :: id in runs ==> RunOk(cfg, id, runs[id]))
  }

  ghost predicate ActiveOk(s: State) {
    forall b :: b in s.active ==>
      && s.active[b] in s.order && s.active[b] in s.runs
      && s.active[b].business == b && s.runs[s.active[b]].phase != Finished
  }

  ghost predicate LiveOk(runs: map<RunId, Run>, active: map<Business, RunId>) {
    forall id {:trigger Live(runs[id])} :: id in runs && Live(runs[id]) ==>
        id.business in active && active[id.business] == id
  }

  ghost predicate Bounded(cfg: Config, s: State) {
    |s.order| <= cfg.maxRuns || DistinctBusinesses(s.order)
  }

  ghost predicate Inv(cfg: Config, s: State) {
    && Registered(s.runs, s.order) && Distinct(s.order)
    && RunsOk(cfg, s.runs, s.counter) && ActiveOk(s) && LiveOk(s.runs, s.active) && Bounded(cfg, s)
  }

  // ---------------------------------------------------------------- eviction

  /** The active runs of a stretch of the registry, in order. */
  function Actives(order: seq<RunId>, runs: map<RunId, Run>, active: map<Business, RunId>): seq<RunId>
    requires Registered(runs, order)
  {
    if order == [] then []
    else (if IsActive(runs, active, order[0]) then [order[0]] else []) + Actives(order[1..], runs, active)
  }

  function Inactives(order: seq<RunId>, runs: map<RunId, Run>, active: map<Business, RunId>): int
    requires Registered(runs, order)
  {
    |order| - |Actives(order, runs, active)|
  }

  /**
   * Eviction keeps everything after some point of the registry and only the active runs before it:
   * it removes exactly the oldest inactive ones, as many as exceed the cap or as there are.
   */
  lemma {:induction false} EvictsOldestInactive(order: seq<RunId>, runs: map<RunId, Run>,
                                                active: map<Business, RunId>, k: nat) returns (cut: nat)
    requires Registered(runs, order)
    ensures cut <= |order|
    ensures DropInactive(order, runs, active, k) == Actives(order[..cut], runs, active) + order[cut..]
    ensures Inactives(order[..cut], runs, active)
      == if k <= Inactives(order, runs, active) then k else Inactives(order, runs, active)
  {
    if k == 0 || order == [] {
      cut := 0;
      ActivesBound(order, runs, active);
    } else {
      cut := EvictsOldestInactive(order[1..], runs, active, if IsActive(runs, active, order[0]) then k else k - 1);
      cut := cut + 1;
      assert order[..cut][1..] == order[1..][..cut - 1];
      assert order[cut..] == order[1..][cut - 1..];
    }
  }

  lemma {:induction false} ActivesBound(order: seq<RunId>, runs: map<RunId, Run>, active: map<Business, RunId>)
    requires Registered(runs, order)
    ensures |Actives(order, runs, active)| <= |order|
  {
    if order != [] {
      ActivesBound(order[1..], runs, active);
    }
  }

  /** Eviction invents nothing, repeats nothing and keeps every active run. */
  lemma {:induction false} DropKeeps(order: seq<RunId>, runs: map<RunId, Run>, active: map<Business, RunId>, k: int)
    requires Registered(runs, order)
    ensures var kept := DropInactive(order, runs, active, k);
      && (forall id :: id in kept ==> id in order)
      && (forall id :: id in order && IsActive(runs, active, id) ==> id in kept)
      && (Distinct(order) ==> Distinct(kept))
  {
    if k > 0 && order != [] {
      assert order == [order[0]] + order[1..];
      DropKeeps(order[1..], runs, active, if IsActive(runs, active, order[0]) then k else k - 1);
    }
  }

  /** If the cap is still exceeded, everything left is active. */
  lemma {:induction false} DropReachesCap(order: seq<RunId>, runs: map<RunId, Run>, active: map<Business, RunId>,
                                          k: int)
    requires Registered(runs, order)
    ensures var kept := DropInactive(order, runs, active, k);
      |kept| > |order| - k && k > 0 ==> forall id :: id in kept ==> id in runs && IsActive(runs, active, id)
  {
    if k > 0 && order != [] {
      DropReachesCap(order[1..], runs, active, if IsActive(runs, active, order[0]) then k else k - 1);
      if k == 1 && !IsActive(runs, active, order[0]) {
        assert |DropInactive(order, runs, active, k)| == |order| - 1;
      }
    }
  }

  lemma {:induction false} DistinctSnoc(order: seq<RunId>, id: RunId)
    requires Distinct(order) && id !in order
    ensures Distinct(order + [id])
  {
    if order != [] {
      assert (order + [id])[1..] == order[1..] + [id];
      DistinctSnoc(order[1..], id);
    } else {
      assert (order + [id])[1..] == [];
    }
  }

  lemma {:induction false} DistinctAt(order: seq<RunId>, j: nat, k: nat)
    requires Distinct(order) && j < k < |order|
    ensures order[j] != order[k]
  {
    if j == 0 {
      assert order[k] == order[1..][k - 1];
    } else {
      DistinctAt(order[1..], j - 1, k - 1);
    }
  }
}
