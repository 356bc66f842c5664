/**
 * The experiment store's write path (src/ab_growth/store.py) on top of idempotent
 * persist-and-emit (src/ab_common/eventstore.py): a guarded write commits, and an event is
 * published iff a row changed. Any number of callers interleave; one may die between its commit
 * and its publish.
 */
module Experiments {
  import opened Common

  type Id = string
  type Business = string

  datatype Decision = Scale | Pivot | Kill | Continue

  datatype RowStatus = Proposed | Running | Concluded

  datatype Record = Record(id: Id, business: Business, hypothesis: string, budget: int,
                           status: RowStatus, decision: Option<Decision>)

  /** What the decision engine was given; `assemble` takes the business from the record. */
  datatype Experiment = Experiment(id: Id, business: Business)

  datatype Event =
    | CreatedEvent(id: Id, business: Business, budget: int)
    | ConcludedEvent(id: Id, business: Business, action: Decision)

  /**
   * `table` in insertion order, `log` the published events; `inflight` are events of committed
   * writes still to be published, `lost` those whose publisher died. `emitted` is history: every
   * event some write called for, in commit order.
   */
  datatype State = State(table: seq<Record>, log: seq<Event>, inflight: seq<Event>, lost: seq<Event>,
                         emitted: seq<Event>)

  datatype Op =
    | CommitCreate(id: Id, business: Business, hypothesis: string, budget: int)
    | CommitConclude(exp: Experiment, decision: Decision)
    | Publish(k: nat)
    | Die(k: nat)

  const INIT := State([], [], [], [], [])

  // ---------------------------------------------------------------- steps

  /** The row of an experiment: its position, or the table's length. */
  function Find(table: seq<Record>, id: Id): (k: nat)
    ensures k <= |table|
    ensures k < |table| ==> table[k].id == id
    ensures forall j :: 0 <= j < k ==> table[j].id != id
  {
    if table == [] || table[0].id == id then 0 else 1 + Find(table[1..], id)
  }

  function Proposal(id: Id, business: Business, hypothesis: string, budget: int): Record {
    Record(id, business, hypothesis, budget, Proposed, None)
  }

  /** INSERT ... ON CONFLICT (experiment_id) DO NOTHING: the new table and whether a row changed. */
  function Insert(table: seq<Record>, row: Record): (seq<Record>, bool) {
    if Find(table, row.id) < |table| then (table, false) else (table + [row], true)
  }

  /** UPDATE ... WHERE experiment_id = id AND status <> 'concluded'. */
  function Update(table: seq<Record>, id: Id, decision: Decision): (seq<Record>, bool) {
    var k := Find(table, id);
    if k == |table| || table[k].status == Concluded then (table, false)
    else (table[k := table[k].(status := Concluded, decision := Some(decision))], true)
  }

  /** The commit half of persist-and-emit: the event is due iff the write changed a row. */
  function Commit(s: State, write: (seq<Record>, bool), event: Event): State {
    if write.1 then s.(table := write.0, inflight := s.inflight + [event], emitted := s.emitted + [event])
    else s.(table := write.0)
  }

  function Without(events: seq<Event>, k: nat): seq<Event>
    requires k < |events|
  {
    events[..k] + events[k + 1..]
  }

  predicate Enabled(s: State, op: Op) {
    match op
    case Publish(k) => k < |s.inflight|
    case Die(k) => k < |s.inflight|
    case _ => true
  }

  function Apply(s: State, op: Op): State
    requires Enabled(s, op)
  {
    match op
    case CommitCreate(id, business, hypothesis, budget) =>
      Commit(s, Insert(s.table, Proposal(id, business, hypothesis, budget)), CreatedEvent(id, business, budget))
    case CommitConclude(exp, decision) =>
      Commit(s, Update(s.table, exp.id, decision), ConcludedEvent(exp.id, exp.business, decision))
    case Publish(k) => s.(log := s.log + [s.inflight[k]], inflight := Without(s.inflight, k))
    case Die(k) => s.(lost := s.lost + [s.inflight[k]], inflight := Without(s.inflight, k))
  }

  ghost predicate Behaviour(ops: seq<Op>, trace: seq<State>) {
    && |trace| == |ops| + 1 && trace[0] == INIT
    && forall i {:trigger ops[i]} :: 0 <= i < |ops| ==>
        Enabled(trace[i], ops[i]) && trace[i + 1] == Apply(trace[i], ops[i])
  }

  // ---------------------------------------------------------------- counting

  /** The bus topic of conclusions carries these. */
  type Conclusion = e: Event | e.ConcludedEvent? witness ConcludedEvent("", "", Scale)

  function Created(id: Id): Event -> bool {
    (e: Event) => e.CreatedEvent? && e.id == id
  }

  function ConcludedFor(id: Id): Event -> bool {
    (e: Event) => e.ConcludedEvent? && e.id == id
  }

  /** The conclusions of a business with one outcome. */
  function Outcome(b: Business, d: Decision): Event -> bool {
    (e: Event) => e.ConcludedEvent? && e.business == b && e.action == d
  }

  lemma SplitAt(events: seq<Event>, k: nat)
    requires k < |events|
    ensures multiset(events) == multiset(Without(events, k)) + multiset{events[k]}
  {
    assert events == events[..k] + [events[k]] + events[k + 1..];
  }

  // ---------------------------------------------------------------- the invariant

  ghost predicate UniqueRows(table: seq<Record>) {
    forall j, k :: 0 <= j < k < |table| ==> table[j].id != table[k].id
  }

  predicate IsConcluded(table: seq<Record>, id: Id) {
    var k := Find(table, id); k < |table| && table[k].status == Concluded
  }

  /** A concluded event repeats its row's decision; a row has a decision iff it is concluded. */
  ghost predicate Agrees(table: seq<Record>, events: seq<Event>) {
    && (forall k :: 0 <= k < |table| ==> (table[k].decision.Some? <==> table[k].status == Concluded))
    && (forall i :: 0 <= i < |events| && events[i].ConcludedEvent? ==>
          exists k :: 0 <= k < |table| && table[k].id == events[i].id && table[k].decision == Some(events[i].action))
  }

  ghost predicate Once(table: seq<Record>, events: seq<Event>, id: Id) {
    && Count(events, Created(id)) == (if Find(table, id) < |table| then 1 else 0)
    && Count(events, ConcludedFor(id)) == (if IsConcluded(table, id) then 1 else 0)
  }

  /** One created event per row and one concluded event per concluded row; no others. */
  ghost predicate OncePerRow(table: seq<Record>, events: seq<Event>) {
    forall id {:trigger Once(table, events, id)} :: Once(table, events, id)
  }

  /** Every event called for is published, in flight or lost: nothing is duplicated or invented. */
  ghost predicate Conserved(s: State) {
    multiset(s.emitted) == multiset(s.log) + multiset(s.inflight) + multiset(s.lost)
  }

  ghost predicate Inv(s: State) {
    UniqueRows(s.table) && Agrees(s.table, s.emitted) && OncePerRow(s.table, s.emitted) && Conserved(s)
  }

  /** The first row of an id, or none: Find is determined by that. */
  lemma FindIs(table: seq<Record>, id: Id, k: nat)
    requires k <= |table| && (k < |table| ==> table[k].id == id) && forall j :: 0 <= j < k ==> table[j].id != id
    ensures Find(table, id) == k
  {}

  lemma FindAppend(table: seq<Record>, row: Record, id: Id)
    requires Find(table, row.id) == |table|
    ensures Find(table + [row], id)
      == if Find(table, id) < |table| then Find(table, id) else if id == row.id then |table| else |table| + 1
  {
    var k := Find(table, id);
    FindIs(table + [row], id, if k < |table| then k else if id == row.id then |table| else |table| + 1);
  }

  lemma InsertOnce(table: seq<Record>, row: Record, events: seq<Event>)
    requires OncePerRow(table, events) && row.status == Proposed && Find(table, row.id) == |table|
    ensures OncePerRow(table + [row], events + [CreatedEvent(row.id, row.business, row.budget)])
  {
    var rows, all := table + [row], events + [CreatedEvent(row.id, row.business, row.budget)];
    forall id ensures Once(rows, all, id) {
      assert Once(table, events, id);
      CountSnoc(events, all[|events|], Created(id));
      CountSnoc(events, all[|events|], ConcludedFor(id));
      FindAppend(table, row, id);
    }
  }

  lemma AgreesEmit(table: seq<Record>, events: seq<Event>, e: Event)
    requires Agrees(table, events)
    requires e.ConcludedEvent? ==>
        exists k :: 0 <= k < |table| && table[k].id == e.id && table[k].decision == Some(e.action)
    ensures Agrees(table, events + [e])
  {}

  lemma InsertKeeps(s: State, row: Record)
    requires Inv(s) && row.status == Proposed && row.decision == None
    ensures Inv(Commit(s, Insert(s.table, row), CreatedEvent(row.id, row.business, row.budget)))
  {
    if Insert(s.table, row).1 {
      InsertOnce(s.table, row, s.emitted);
      AgreesLater(s.table, s.table + [row], s.emitted);
      AgreesEmit(s.table + [row], s.emitted, CreatedEvent(row.id, row.business, row.budget));
    }
  }

  /** Rows keep their id and their decision once they have one. */
  ghost predicate Grows(before: seq<Record>, after: seq<Record>) {
    && |before| <= |after|
    && forall k :: 0 <= k < |before| ==>
         after[k].id == before[k].id && (before[k].decision.Some? ==> after[k].decision == before[k].decision)
  }

  lemma AgreesLater(before: seq<Record>, after: seq<Record>, events: seq<Event>)
    requires Agrees(before, events) && Grows(before, after)
    requires forall k :: 0 <= k < |after| ==> (after[k].decision.Some? <==> after[k].status == Concluded)
    ensures Agrees(after, events)
  {}

  lemma FindUpdated(table: seq<Record>, k: nat, row: Record, id: Id)
    requires k < |table| && row.id == table[k].id
    ensures Find(table[k := row], id) == Find(table, id)
  {
    FindIs(table[k := row], id, Find(table, id));
  }

  lemma UpdateOnce(table: seq<Record>, k: nat, row: Record, events: seq<Event>, e: Event)
    requires OncePerRow(table, events) && k < |table| && k == Find(table, row.id)
    requires table[k].status != Concluded && row.status == Concluded && e.ConcludedEvent? && e.id == row.id
    ensures OncePerRow(table[k := row], events + [e])
  {
    var rows, all := table[k := row], events + [e];
    forall id ensures Once(rows, all, id) {
      assert Once(table, events, id);
      CountSnoc(events, e, Created(id));
      CountSnoc(events, e, ConcludedFor(id));
      FindUpdated(table, k, row, id);
    }
  }

  lemma UpdateKeeps(s: State, exp: Experiment, decision: Decision)
    requires Inv(s)
    ensures Inv(Apply(s, CommitConclude(exp, decision)))
  {
    var e := ConcludedEvent(exp.id, exp.business, decision);
    var t := Apply(s, CommitConclude(exp, decision));
    if Update(s.table, exp.id, decision).1 {
      var k := Find(s.table, exp.id);
      UpdateOnce(s.table, k, t.table[k], s.emitted, e);
      AgreesLater(s.table, t.table, s.emitted);
      assert t.table[k].id == e.id;
      AgreesEmit(t.table, s.emitted, e);
    }
  }

  lemma StepKeeps(s: State, op: Op)
    requires Inv(s) && Enabled(s, op)
    ensures Inv(Apply(s, op))
  {
    match op {
      case CommitCreate(id, business, hypothesis, budget) => InsertKeeps(s, Proposal(id, business, hypothesis, budget));
      case CommitConclude(exp, decision) => UpdateKeeps(s, exp, decision);
      case Publish(k) => SplitAt(s.inflight, k);
      case Die(k) => SplitAt(s.inflight, k);
    }
  }

  lemma {:induction false} Reachable(ops: seq<Op>, trace: seq<State>, i: nat)
    requires Behaviour(ops, trace) && i < |trace|
    ensures Inv(trace[i])
  {
    if i > 0 {
      Reachable(ops, trace, i - 1);
      assert trace[i] == Apply(trace[i - 1], ops[i - 1]);
      StepKeeps(trace[i - 1], ops[i - 1]);
    }
  }

  // ---------------------------------------------------------------- exactly once

  /** A created event repeats its row: the business and the budget the experiment was proposed with. */
  lemma {:induction false} CreatedRepeatsRow(ops: seq<Op>, trace: seq<State>, i: nat, e: Event)
    requires Behaviour(ops, trace) && i < |trace| && e.CreatedEvent? && e in trace[i].emitted
    ensures var table := trace[i].table;
      exists k :: 0 <= k < |table| && table[k].id == e.id && table[k].business == e.business
        && table[k].budget == e.budget
  {
    if i > 0 {
      var s, op := trace[i - 1], ops[i - 1];
      assert Enabled(s, op) && trace[i] == Apply(s, op);
      if e in s.emitted {
        CreatedRepeatsRow(ops, trace, i - 1, e);
        var k :| 0 <= k < |s.table| && s.table[k].id == e.id && s.table[k].business == e.business
                 && s.table[k].budget == e.budget;
        assert trace[i].table[k].id == e.id;
      } else {
        assert op.CommitCreate? && trace[i].table[|s.table|].id == e.id;
      }
    }
  }

  /** A row is what was proposed under its id, for good: only its status and decision change. */
  lemma {:induction false} RowAsProposed(ops: seq<Op>, trace: seq<State>, i: nat, k: nat) returns (j: nat)
    requires Behaviour(ops, trace) && i < |trace| && k < |trace[i].table|
    ensures j < i && var row := trace[i].table[k];
      ops[j] == CommitCreate(row.id, row.business, row.hypothesis, row.budget)
  {
    var s, op := trace[i - 1], ops[i - 1];
    assert Enabled(s, op) && trace[i] == Apply(s, op);
    if k < |s.table| {
      j := RowAsProposed(ops, trace, i - 1, k);
    } else {
      j := i - 1;
    }
  }

  /**
   * Over every interleaving of creates, conclusions, replays, publishes and deaths: an experiment's
   * created event is in the log exactly once if its row exists, and its concluded event exactly once
   * if its row is concluded, unless it is still in flight or was lost; otherwise there is none. The
   * concluded event carries the row's decision.
   */
  lemma PublishedOnce(ops: seq<Op>, trace: seq<State>, i: nat, id: Id)
    requires Behaviour(ops, trace) && i < |trace|
    ensures var s := trace[i];
      var missing := s.inflight + s.lost;
      && Count(s.log, Created(id)) + Count(missing, Created(id)) == (if Find(s.table, id) < |s.table| then 1 else 0)
      && Count(s.log, ConcludedFor(id)) + Count(missing, ConcludedFor(id))
          == (if IsConcluded(s.table, id) then 1 else 0)
      && forall k :: 0 <= k < |s.log| && s.log[k].ConcludedEvent? && s.log[k].id == id ==>
           IsConcluded(s.table, id) && s.table[Find(s.table, id)].decision == Some(s.log[k].action)
  {
    Reachable(ops, trace, i);
    var s := trace[i];
    assert Once(s.table, s.emitted, id);
    Accounted(s, Created(id));
    Accounted(s, ConcludedFor(id));
    forall k | 0 <= k < |s.log| && s.log[k].ConcludedEvent? && s.log[k].id == id
      ensures IsConcluded(s.table, id) && s.table[Find(s.table, id)].decision == Some(s.log[k].action)
    {
      assert s.log[k] in multiset(s.emitted);
      var j :| 0 <= j < |s.emitted| && s.emitted[j] == s.log[k];
      var row :| 0 <= row < |s.table|
        && s.table[row].id == s.emitted[j].id && s.table[row].decision == Some(s.emitted[j].action);
      FindUnique(s.table, row);
    }
  }

  /** Any kind of event is called for as often as it is published or missing. */
  lemma Accounted(s: State, p: Event -> bool)
    requires Conserved(s)
    ensures Count(s.emitted, p) == Count(s.log, p) + Count(s.inflight + s.lost, p)
  {
    CountPermuted(s.emitted, s.log + (s.inflight + s.lost), p);
    CountConcat(s.log, s.inflight + s.lost, p);
  }

  lemma FindUnique(table: seq<Record>, k: nat)
    requires UniqueRows(table) && k < |table|
    ensures Find(table, table[k].id) == k
  {}

  // ---------------------------------------------------------------- the table and the events agree

  /** Rows of a business concluded with one outcome. */
  function Row(b: Business, d: Decision): Record -> bool {
    (r: Record) => r.business == b && r.status == RowStatus.Concluded && r.decision == Some(d)
  }

  /** The caller assembled the experiment from its record: same business. */
  ghost predicate Assembled(s: State, op: Op) {
    op.CommitConclude? ==>
      var k := Find(s.table, op.exp.id); k < |s.table| ==> op.exp.business == s.table[k].business
  }

  lemma InsertAligns(s: State, row: Record, b: Business, d: Decision)
    requires Count(s.emitted, Outcome(b, d)) == Count(s.table, Row(b, d)) && row.status == Proposed
    ensures var t := Commit(s, Insert(s.table, row), CreatedEvent(row.id, row.business, row.budget));
      Count(t.emitted, Outcome(b, d)) == Count(t.table, Row(b, d))
  {}

  /** Concluding an open row and calling for its event raises both counts alike. */
  lemma UpdateAligns(table: seq<Record>, events: seq<Event>, k: nat, e: Event, b: Business, d: Decision)
    requires k < |table| && table[k].status != Concluded && e.ConcludedEvent? && e.business == table[k].business
    requires Count(events, Outcome(b, d)) == Count(table, Row(b, d))
    ensures var row := table[k].(status := Concluded, decision := Some(e.action));
      Count(events + [e], Outcome(b, d)) == Count(table[k := row], Row(b, d))
  {
    CountUpdated(table, k, table[k].(status := Concluded, decision := Some(e.action)), Row(b, d));
    CountSnoc(events, e, Outcome(b, d));
  }

  /** If every conclusion was assembled from its record, events called for and rows tally per business. */
  lemma {:induction false} EventsMatchRows(ops: seq<Op>, trace: seq<State>, i: nat, b: Business, d: Decision)
    requires Behaviour(ops, trace) && i < |trace|
    requires forall k {:trigger ops[k]} :: 0 <= k < i ==> Assembled(trace[k], ops[k])
    ensures Count(trace[i].emitted, Outcome(b, d)) == Count(trace[i].table, Row(b, d))
  {
    if i > 0 {
      EventsMatchRows(ops, trace, i - 1, b, d);
      assert Assembled(trace[i - 1], ops[i - 1]) && trace[i] == Apply(trace[i - 1], ops[i - 1]);
      match ops[i - 1] {
        case CommitCreate(id, business, hypothesis, budget) =>
          InsertAligns(trace[i - 1], Proposal(id, business, hypothesis, budget), b, d);
        case CommitConclude(exp, decision) =>
          var s, k := trace[i - 1], Find(trace[i - 1].table, exp.id);
          if k < |s.table| && s.table[k].status != Concluded {
            UpdateAligns(s.table, s.emitted, k, ConcludedEvent(exp.id, exp.business, decision), b, d);
          }
        case _ =>
      }
    }
  }

  // ---------------------------------------------------------------- the store object

  /** A whole call of persist-and-emit: commit, then publish the event that is due, or die first. */
  function Call(s: State, write: (seq<Record>, bool), event: Event, dies: bool): State {
    var mid := Commit(s, write, event);
    if !write.1 then mid
    else if dies then Apply(mid, Die(|mid.inflight| - 1))
    else Apply(mid, Publish(|mid.inflight| - 1))
  }

  lemma CallIs(s: State, write: (seq<Record>, bool), event: Event, dies: bool)
    ensures var t := Call(s, write, event, dies);
      && t.table == write.0 && t.inflight == s.inflight
      && t.log == s.log + (if write.1 && !dies then [event] else [])
      && t.lost == s.lost + (if write.1 && dies then [event] else [])
      && t.emitted == s.emitted + (if write.1 then [event] else [])
  {}

  lemma CallKeeps(s: State, op: Op, write: (seq<Record>, bool), event: Event, dies: bool)
    requires Inv(s) && (op.CommitCreate? || op.CommitConclude?)
    requires Apply(s, op) == Commit(s, write, event) && (!write.1 ==> write.0 == s.table)
    ensures Inv(Call(s, write, event, dies))
  {
    StepKeeps(s, op);
    if write.1 {
      var mid := Commit(s, write, event);
      StepKeeps(mid, if dies then Die(|mid.inflight| - 1) else Publish(|mid.inflight| - 1));
    }
  }

  class GrowthStore {
    var table: seq<Record>
    var log: seq<Event>
    ghost var inflight: seq<Event>
    ghost var lost: seq<Event>
    ghost var emitted: seq<Event>

    ghost function Now(): State
      reads this
    {
      State(table, log, inflight, lost, emitted)
    }

    constructor ()
      ensures Now() == INIT
    {
      table, log, inflight, lost, emitted := [], [], [], [], [];
    }

    /** Run the guarded write, commit, and publish iff a row changed; `dies` before the publish. */
    method PersistAndEmit(write: (seq<Record>, bool), event: Event, dies: bool) returns (changed: bool)
      modifies this
      ensures changed == write.1
      ensures Now() == Call(old(Now()), write, event, dies)
    {
      CallIs(Now(), write, event, dies);
      changed := write.1;
      table := write.0;
      if changed {
        emitted := emitted + [event];
        if dies {
          lost := lost + [event];
        } else {
          log := log + [event];
        }
      }
    }

    method Create(id: Id, business: Business, hypothesis: string, budget: int, dies: bool) returns (created: bool)
      requires Inv(Now())
      modifies this
      ensures Inv(Now())
      ensures created <==> Find(old(table), id) == |old(table)|
      ensures table == old(table) + (if created then [Proposal(id, business, hypothesis, budget)] else [])
      ensures log == old(log) + (if created && !dies then [CreatedEvent(id, business, budget)] else [])
    {
      var write := Insert(table, Proposal(id, business, hypothesis, budget));
      var event := CreatedEvent(id, business, budget);
      CallKeeps(Now(), CommitCreate(id, business, hypothesis, budget), write, event, dies);
      CallIs(Now(), write, event, dies);
      created := PersistAndEmit(write, event, dies);
    }

    method Conclude(exp: Experiment, decision: Decision, dies: bool) returns (concluded: bool)
      requires Inv(Now())
      modifies this
      ensures Inv(Now())
      ensures concluded <==> Find(old(table), exp.id) < |old(table)| && !IsConcluded(old(table), exp.id)
      ensures var k := Find(old(table), exp.id);
        table == if concluded then old(table)[k := old(table)[k].(status := Concluded, decision := Some(decision))]
                 else old(table)
      ensures log == old(log) + (if concluded && !dies then [ConcludedEvent(exp.id, exp.business, decision)] else [])
    {
      var write := Update(table, exp.id, decision);
      var event := ConcludedEvent(exp.id, exp.business, decision);
      CallKeeps(Now(), CommitConclude(exp, decision), write, event, dies);
      CallIs(Now(), write, event, dies);
      concluded := PersistAndEmit(write, event, dies);
    }
  }

  /** What the guarded update does: it concludes the row of a known, open experiment and nothing else. */
  lemma UpdateConcludes(table: seq<Record>, id: Id, decision: Decision)
    ensures var (after, changed) := Update(table, id, decision);
      && (changed <==> Find(table, id) < |table| && !IsConcluded(table, id))
      && (IsConcluded(after, id) <==> Find(table, id) < |table|)
      && (changed ==> after[Find(after, id)].decision == Some(decision))
      && (!changed ==> after == table)
      && |after| == |table|
      && forall k :: 0 <= k < |table| && k != Find(table, id) ==> after[k] == table[k]
  {}
}
