/**
 * The gated delivery pipeline of a promoted initiative (src/ab_product/pipeline.py) and its
 * personal-data gate (src/ab_product/compliance.py).
 */
module SdlcPipeline {
  import opened Common
  import opened Text

  datatype Stage = Intake | Spec | Design | Dpia | BlueprintStage | Scaffold | Qa | Launch | LaunchedStage

  const ORDER: seq<Stage> := [Intake, Spec, Design, Dpia, BlueprintStage, Scaffold, Qa, Launch, LaunchedStage]

  datatype Status = InProgress | AwaitingHuman | Halted | Launched

  datatype GateResult = GateResult(ok: bool, reason: string)

  datatype PipelineState = PipelineState(initiativeId: string, businessId: string, stage: Stage, status: Status,
                                         reason: string)

  /** `NoNextStage`: the order ends at the launched stage. */
  datatype PipelineError = CannotAdvance | DpiaNeedsAssessment | NoApprovalPending | NoNextStage | NotAtDpia

  predicate Human(stage: Stage) {
    stage == Dpia || stage == Launch
  }

  function Index(stage: Stage): (i: nat)
    ensures i < |ORDER| && ORDER[i] == stage
  {
    match stage
    case Intake => 0
    case Spec => 1
    case Design => 2
    case Dpia => 3
    case BlueprintStage => 4
    case Scaffold => 5
    case Qa => 6
    case Launch => 7
    case LaunchedStage => 8
  }

  function Next(stage: Stage): Stage
    requires stage != LaunchedStage
  {
    ORDER[Index(stage) + 1]
  }

  function StatusFor(stage: Stage): Status {
    if stage == LaunchedStage then Launched else if Human(stage) then AwaitingHuman else InProgress
  }

  function Start(initiativeId: string, businessId: string): PipelineState {
    PipelineState(initiativeId, businessId, Intake, InProgress, "")
  }

  function Advance(s: PipelineState, gate: GateResult): Result<PipelineState, PipelineError> {
    if s.status != InProgress || Human(s.stage) || s.stage == LaunchedStage then Err(CannotAdvance)
    else if !gate.ok then Ok(s.(status := Halted, reason := gate.reason))
    else Ok(s.(stage := Next(s.stage), status := StatusFor(Next(s.stage)), reason := ""))
  }

  function ApproveHuman(s: PipelineState, actor: string): Result<PipelineState, PipelineError> {
    if s.stage == Dpia then Err(DpiaNeedsAssessment)
    else if s.status != AwaitingHuman then Err(NoApprovalPending)
    else if s.stage == LaunchedStage then Err(NoNextStage)
    else Ok(s.(stage := Next(s.stage), status := StatusFor(Next(s.stage)), reason := "approved by " + actor))
  }

  // ---------------------------------------------------------------- the personal-data gate

  datatype Initiative = Initiative(title: string, hypothesis: string, keyFeatures: seq<string>,
                                   constraints: seq<string>)

  const SIGNALS: set<string> := {"personal", "pii", "email", "customer", "profiling", "health", "biometric", "identity",
                                 "location", "behaviour"}

  function Fields(i: Initiative): seq<string> {
    [i.title, i.hypothesis] + i.keyFeatures + i.constraints
  }

  predicate RequiresDpia(lower: Lowering, i: Initiative) {
    var haystack := Lower(lower, Join(Fields(i)));
    exists signal :: signal in SIGNALS && Contains(haystack, signal)
  }

  /** The text, lowered, names personal data. */
  ghost predicate Names(lower: Lowering, text: string) {
    exists signal :: signal in SIGNALS && Contains(Lower(lower, text), signal)
  }

  /**
   * Joining the fields adds no signal: an assessment is due iff the title, the hypothesis, some key
   * feature or some constraint on its own names personal data.
   */
  lemma RequiresDpiaPerField(lower: Lowering, i: Initiative)
    requires LowersAscii(lower)
    ensures RequiresDpia(lower, i) <==>
      || Names(lower, i.title) || Names(lower, i.hypothesis)
      || (exists k :: 0 <= k < |i.keyFeatures| && Names(lower, i.keyFeatures[k]))
      || (exists k :: 0 <= k < |i.constraints| && Names(lower, i.constraints[k]))
  {
    SomeField(lower, i);
    assert forall k :: 0 <= k < |i.keyFeatures| ==> Fields(i)[2 + k] == i.keyFeatures[k];
    assert forall k :: 0 <= k < |i.constraints| ==> Fields(i)[2 + |i.keyFeatures| + k] == i.constraints[k];
    assert Fields(i)[0] == i.title && Fields(i)[1] == i.hypothesis;
  }

  lemma SomeField(lower: Lowering, i: Initiative)
    requires LowersAscii(lower)
    ensures RequiresDpia(lower, i) <==> exists k :: 0 <= k < |Fields(i)| && Names(lower, Fields(i)[k])
  {
    var haystack := Lower(lower, Join(Fields(i)));
    forall signal | signal in SIGNALS
      ensures Contains(haystack, signal) <==>
          exists k :: 0 <= k < |Fields(i)| && Contains(Lower(lower, Fields(i)[k]), signal)
    {
      ContainsJoined(lower, Fields(i), signal);
    }
  }

  function ClearDpia(lower: Lowering, s: PipelineState, i: Initiative,
                     approver: Option<string>): Result<PipelineState, PipelineError> {
    if s.stage != Dpia then Err(NotAtDpia)
    else if !RequiresDpia(lower, i) then
      Ok(s.(stage := BlueprintStage, status := InProgress, reason := "no DPIA required"))
    else if approver == None then Ok(s)
    else Ok(s.(stage := BlueprintStage, status := InProgress, reason := "DPIA approved by " + approver.value))
  }

  // ---------------------------------------------------------------- runs

  lemma NextIndex(stage: Stage)
    requires stage != LaunchedStage
    ensures Index(Next(stage)) == Index(stage) + 1
    ensures ORDER[..Index(stage) + 2] == ORDER[..Index(stage) + 1] + [Next(stage)]
    ensures ORDER[Index(stage)] == stage
  {}

  datatype Op = AdvanceOp(gate: GateResult) | ApproveOp(actor: string) | ClearOp(approver: Option<string>)

  function Call(lower: Lowering, i: Initiative, s: PipelineState, op: Op): Result<PipelineState, PipelineError> {
    match op
    case AdvanceOp(gate) => Advance(s, gate)
    case ApproveOp(actor) => ApproveHuman(s, actor)
    case ClearOp(approver) => ClearDpia(lower, s, i, approver)
  }

  /** A refused operation leaves the state as it was. */
  function Step(lower: Lowering, i: Initiative, s: PipelineState, op: Op): PipelineState {
    var r := Call(lower, i, s, op);
    if r.Ok? then r.value else s
  }

  ghost predicate Behaviour(lower: Lowering, i: Initiative, ops: seq<Op>, trace: seq<PipelineState>) {
    && |trace| == |ops| + 1
    && trace[0] == Start(trace[0].initiativeId, trace[0].businessId)
    && forall k {:trigger ops[k]} :: 0 <= k < |ops| ==> trace[k + 1] == Step(lower, i, trace[k], ops[k])
  }

  ghost predicate Inv(s: PipelineState) {
    s.status == StatusFor(s.stage) || (s.status == Halted && !Human(s.stage) && s.stage != LaunchedStage)
  }

  /** What it takes to leave a stage. */
  predicate Passes(lower: Lowering, i: Initiative, stage: Stage, op: Op) {
    match stage
    case Dpia => op.ClearOp? && (RequiresDpia(lower, i) ==> op.approver.Some?)
    case Launch => op.ApproveOp?
    case LaunchedStage => false
    case _ => op.AdvanceOp? && op.gate.ok
  }

  /** A step passes the gate of its stage, halts there, or changes nothing at all. */
  lemma StepExactly(lower: Lowering, i: Initiative, s: PipelineState, op: Op)
    requires Inv(s)
    ensures var t := Step(lower, i, s, op);
      && Inv(t) && t.initiativeId == s.initiativeId && t.businessId == s.businessId
      && (t.stage != s.stage <==> s.status != Halted && Passes(lower, i, s.stage, op))
      && (t.stage != s.stage ==> t.stage == Next(s.stage) && t.status == StatusFor(t.stage))
      && (t.stage == s.stage && t != s <==> s.status == InProgress && op.AdvanceOp? && !op.gate.ok)
      && (t.stage == s.stage && t != s ==> t.status == Halted && t.reason == op.gate.reason)
  {}

  /** The human gate that is open for a plain approval: only the launch. */
  lemma CallExactly(lower: Lowering, i: Initiative, s: PipelineState, op: Op)
    requires Inv(s)
    ensures var r := Call(lower, i, s, op);
      match op
      case AdvanceOp(gate) =>
        && (r.Ok? <==> s.status == InProgress)
        && (r.Ok? ==> r.value.reason == if gate.ok then "" else gate.reason)
        && (r.Err? ==> r.error == CannotAdvance)
      case ApproveOp(actor) =>
        && (r.Ok? <==> s.stage == Launch && s.status == AwaitingHuman)
        && (r.Ok? ==> r.value.reason == "approved by " + actor)
        && (r.Err? ==> r.error == if s.stage == Dpia then DpiaNeedsAssessment else NoApprovalPending)
      case ClearOp(approver) =>
        && (r.Ok? <==> s.stage == Dpia)
        && (r.Err? ==> r.error == NotAtDpia)
        && (r.Ok? ==> r.value.reason == if !RequiresDpia(lower, i) then "no DPIA required"
                                        else if approver.Some? then "DPIA approved by " + approver.value
                                        else s.reason)
  {}

  lemma {:induction false} Reachable(lower: Lowering, i: Initiative, ops: seq<Op>, trace: seq<PipelineState>, n: nat)
    requires Behaviour(lower, i, ops, trace) && n <= |ops|
    ensures Inv(trace[n])
    ensures trace[n].initiativeId == trace[0].initiativeId && trace[n].businessId == trace[0].businessId
  {
    if n > 0 {
      Reachable(lower, i, ops, trace, n - 1);
      assert trace[n] == Step(lower, i, trace[n - 1], ops[n - 1]);
      StepExactly(lower, i, trace[n - 1], ops[n - 1]);
    }
  }

  /** The steps that changed the state, in order. */
  ghost function Effective(ops: seq<Op>, trace: seq<PipelineState>, n: nat): seq<Op>
    requires n <= |ops| < |trace|
  {
    if n == 0 then []
    else
      var before := Effective(ops, trace, n - 1);
      if trace[n] != trace[n - 1] then before + [ops[n - 1]] else before
  }

  /** The stages the run has been at, each noted on arrival. */
  ghost function Visited(trace: seq<PipelineState>, n: nat): seq<Stage>
    requires n < |trace|
  {
    if n == 0 then [trace[0].stage]
    else
      var before := Visited(trace, n - 1);
      if trace[n].stage != trace[n - 1].stage then before + [trace[n].stage] else before
  }

  /** A run has visited the stages in order, skipping none. */
  lemma {:induction false} VisitedInOrder(lower: Lowering, i: Initiative, ops: seq<Op>, trace: seq<PipelineState>,
                                          n: nat)
    requires Behaviour(lower, i, ops, trace) && n <= |ops|
    ensures Visited(trace, n) == ORDER[..Index(trace[n].stage) + 1]
  {
    if n > 0 {
      VisitedInOrder(lower, i, ops, trace, n - 1);
      Reachable(lower, i, ops, trace, n - 1);
      assert trace[n] == Step(lower, i, trace[n - 1], ops[n - 1]);
      StepExactly(lower, i, trace[n - 1], ops[n - 1]);
      if trace[n].stage != trace[n - 1].stage {
        NextIndex(trace[n - 1].stage);
      }
    }
  }

  /** Its effective steps passed the gates of the stages behind it one by one; a last one may have halted it. */
  lemma {:induction false} GatesPassed(lower: Lowering, i: Initiative, ops: seq<Op>, trace: seq<PipelineState>, n: nat)
    requires Behaviour(lower, i, ops, trace) && n <= |ops|
    ensures var at, moves := Index(trace[n].stage), Effective(ops, trace, n);
      && |moves| == at + (if trace[n].status == Halted then 1 else 0)
      && forall k :: 0 <= k < at ==> Passes(lower, i, ORDER[k], moves[k])
  {
    if n > 0 {
      GatesPassed(lower, i, ops, trace, n - 1);
      Reachable(lower, i, ops, trace, n - 1);
      assert trace[n] == Step(lower, i, trace[n - 1], ops[n - 1]);
      StepExactly(lower, i, trace[n - 1], ops[n - 1]);
      if trace[n].stage != trace[n - 1].stage {
        NextIndex(trace[n - 1].stage);
      }
    }
  }

  /**
   * A launched run took exactly eight effective steps through all stages in order: it passed the
   * personal-data gate only by clearing it, with an approver whenever an assessment was due, and
   * ended with a human's approval at launch.
   */
  lemma LaunchedProperly(lower: Lowering, i: Initiative, ops: seq<Op>, trace: seq<PipelineState>, n: nat)
    requires Behaviour(lower, i, ops, trace) && n <= |ops| && trace[n].stage == LaunchedStage
    ensures var moves := Effective(ops, trace, n);
      && Visited(trace, n) == ORDER && |moves| == 8
      && moves[3].ClearOp? && (RequiresDpia(lower, i) ==> moves[3].approver.Some?)
      && moves[7].ApproveOp?
      && (forall k :: 0 <= k < 8 && k != 3 && k != 7 ==> moves[k].AdvanceOp? && moves[k].gate.ok)
      && trace[n].status == Launched
  {
    VisitedInOrder(lower, i, ops, trace, n);
    GatesPassed(lower, i, ops, trace, n);
    Reachable(lower, i, ops, trace, n);
    assert ORDER[..9] == ORDER;
    var moves := Effective(ops, trace, n);
    forall k | 0 <= k < 8 ensures Passes(lower, i, ORDER[k], moves[k]) {}
  }

  /** Halting is for good, and never happens where a human decides; nor does a launched run change. */
  lemma {:induction false} FinalStays(lower: Lowering, i: Initiative, ops: seq<Op>, trace: seq<PipelineState>, m: nat,
                                      n: nat)
    requires Behaviour(lower, i, ops, trace) && m <= n <= |ops|
    requires trace[m].status == Halted || trace[m].stage == LaunchedStage
    ensures trace[n] == trace[m]
    ensures trace[m].status == Halted ==> !Human(trace[m].stage) && trace[m].stage != LaunchedStage
  {
    Reachable(lower, i, ops, trace, m);
    if m < n {
      FinalStays(lower, i, ops, trace, m, n - 1);
      assert trace[n] == Step(lower, i, trace[n - 1], ops[n - 1]);
      StepExactly(lower, i, trace[n - 1], ops[n - 1]);
    }
  }

  /**
   * From any unhalted, unlaunched state some operation passes the gate, so a launch is always at most
   * eight steps away.
   */
  function Way(s: PipelineState, approver: string): Op {
    match s.stage
    case Dpia => ClearOp(Some(approver))
    case Launch => ApproveOp(approver)
    case _ => AdvanceOp(GateResult(true, ""))
  }

  function Finish(lower: Lowering, i: Initiative, s: PipelineState, approver: string, steps: nat): PipelineState
    decreases steps
  {
    if steps == 0 then s else Finish(lower, i, Step(lower, i, s, Way(s, approver)), approver, steps - 1)
  }

  lemma {:induction false} LaunchReachable(lower: Lowering, i: Initiative, s: PipelineState, approver: string)
    requires Inv(s) && s.status != Halted
    ensures Finish(lower, i, s, approver, 8 - Index(s.stage)).stage == LaunchedStage
    decreases 8 - Index(s.stage)
  {
    if s.stage != LaunchedStage {
      StepExactly(lower, i, s, Way(s, approver));
      var t := Step(lower, i, s, Way(s, approver));
      NextIndex(s.stage);
      LaunchReachable(lower, i, t, approver);
    }
  }
}
