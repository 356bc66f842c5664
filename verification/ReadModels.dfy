/**
 * The two read models of experiments: the outcome rollup folds the event log
 * (src/ab_portfolio/rollup.py), the fleet KPIs fold the table (src/ab_growth/kpis.py).
 */
module ReadModels {
  import opened Common
  import opened Experiments
  import Portfolio
  import PortfolioTheorems

  // ---------------------------------------------------------------- rollup

  datatype Tally = Tally(scale: nat, pivot: nat, kill: nat)

  const ZERO := Tally(0, 0, 0)

  function Bump(t: Tally, d: Decision): Tally {
    match d
    case Scale => t.(scale := t.scale + 1)
    case Pivot => t.(pivot := t.pivot + 1)
    case Kill => t.(kill := t.kill + 1)
    case Continue => t
  }

  /** Conclusive outcomes; a `continue` is none. */
  predicate Conclusive(e: Conclusion) {
    e.action != Continue
  }

  function TallyOf(events: seq<Conclusion>, b: Business): Tally {
    Tally(Count(events, Outcome(b, Scale)), Count(events, Outcome(b, Pivot)), Count(events, Outcome(b, Kill)))
  }

  /** The businesses with a conclusive event, by first appearance. */
  function FirstSeen(events: seq<Conclusion>): seq<Business> {
    if events == [] then []
    else
      var seen, e := FirstSeen(events[..|events| - 1]), events[|events| - 1];
      if Conclusive(e) && e.business !in seen then seen + [e.business] else seen
  }

  /** Capital comes from the ledger; a business it does not list has none. */
  function CapitalOf(capital: map<Business, int>, b: Business): int {
    if b in capital then capital[b] else 0
  }

  /** One performance per business seen, in that order: its capital and how often it had each outcome. */
  ghost predicate RolledUp(events: seq<Conclusion>, capital: map<Business, int>, ps: seq<Portfolio.Performance>) {
    && |ps| == |FirstSeen(events)|
    && forall k {:trigger ps[k]} :: 0 <= k < |ps| ==>
         var b := FirstSeen(events)[k];
         && ps[k].businessId == b
         && ps[k].capital == (if b in capital then capital[b] else 0)
         && ps[k].scaleCount == Count(events, Outcome(b, Scale))
         && ps[k].pivotCount == Count(events, Outcome(b, Pivot))
         && ps[k].killCount == Count(events, Outcome(b, Kill))
  }

  lemma TallySnoc(events: seq<Conclusion>, e: Conclusion, b: Business)
    ensures TallyOf(events + [e], b)
      == if e.business == b then Bump(TallyOf(events, b), e.action) else TallyOf(events, b)
  {}

  lemma FirstSeenSnoc(events: seq<Conclusion>, e: Conclusion)
    ensures var seen := FirstSeen(events);
      FirstSeen(events + [e]) == if Conclusive(e) && e.business !in seen then seen + [e.business] else seen
  {}

  lemma {:induction false} FirstSeenDistinct(events: seq<Conclusion>)
    ensures forall i, j :: 0 <= i < j < |FirstSeen(events)| ==> FirstSeen(events)[i] != FirstSeen(events)[j]
  {
    if events != [] {
      FirstSeenDistinct(events[..|events| - 1]);
    }
  }

  /** Where the first conclusive event of a business stands, or the end. */
  function FirstConclusion(events: seq<Conclusion>, b: Business): nat {
    if events == [] || (Conclusive(events[0]) && events[0].business == b) then 0
    else 1 + FirstConclusion(events[1..], b)
  }

  lemma {:induction false} FirstConclusionSnoc(events: seq<Conclusion>, e: Conclusion, b: Business)
    ensures FirstConclusion(events, b) <= |events|
    ensures FirstConclusion(events, b) < |events| ==> FirstConclusion(events + [e], b) == FirstConclusion(events, b)
    ensures FirstConclusion(events, b) == |events| ==>
      FirstConclusion(events + [e], b) == if Conclusive(e) && e.business == b then |events| else |events| + 1
  {
    if events != [] {
      FirstConclusionSnoc(events[1..], e, b);
      assert (events + [e])[1..] == events[1..] + [e];
    }
  }

  /** Businesses are seen in the order of their first conclusive events. */
  lemma {:induction false} SeenInOrder(events: seq<Conclusion>)
    ensures forall k :: 0 <= k < |FirstSeen(events)| ==> FirstConclusion(events, FirstSeen(events)[k]) < |events|
    ensures forall b :: FirstConclusion(events, b) < |events| ==> b in FirstSeen(events)
    ensures forall i, j :: 0 <= i < j < |FirstSeen(events)| ==>
      FirstConclusion(events, FirstSeen(events)[i]) < FirstConclusion(events, FirstSeen(events)[j])
  {
    if events != [] {
      var n := |events| - 1;
      SeenInOrder(events[..n]);
      assert events == events[..n] + [events[n]];
      forall b ensures FirstConclusion(events[..n], b) <= n
        ensures FirstConclusion(events[..n], b) < n ==> FirstConclusion(events, b) == FirstConclusion(events[..n], b)
        ensures FirstConclusion(events[..n], b) == n ==>
          FirstConclusion(events, b) == if Conclusive(events[n]) && events[n].business == b then n else n + 1
      {
        FirstConclusionSnoc(events[..n], events[n], b);
      }
    }
  }

  /** Exactly the businesses with a conclusive event are seen; the others have an empty tally. */
  lemma {:induction false} SeenIffTallied(events: seq<Conclusion>, b: Business)
    ensures b in FirstSeen(events) <==> TallyOf(events, b) != ZERO
  {
    if events != [] {
      var n := |events| - 1;
      SeenIffTallied(events[..n], b);
      TallySnoc(events[..n], events[n], b);
      assert events == events[..n] + [events[n]];
    }
  }

  ghost predicate Chargeable(events: seq<Conclusion>, capital: map<Business, int>) {
    forall b :: b in FirstSeen(events) ==> CapitalOf(capital, b) >= 0
  }

  /** `b` is the first business listed whose capital is negative. */
  ghost predicate FirstUncovered(order: seq<Business>, capital: map<Business, int>, b: Business) {
    exists k :: 0 <= k < |order| && order[k] == b && forall j :: 0 <= j < k ==> CapitalOf(capital, order[j]) >= 0
  }

  /** The tallies in progress: one per business seen. */
  ghost predicate Tallies(events: seq<Conclusion>, order: seq<Business>, tallies: map<Business, Tally>) {
    && order == FirstSeen(events)
    && forall b :: if b in order then b in tallies && tallies[b] == TallyOf(events, b) else b !in tallies
  }

  function TallySoFar(tallies: map<Business, Tally>, b: Business): Tally {
    if b in tallies then tallies[b] else ZERO
  }

  lemma TalliesStep(events: seq<Conclusion>, order: seq<Business>, tallies: map<Business, Tally>, e: Conclusion)
    requires Tallies(events, order, tallies)
    ensures Tallies(events + [e],
      if Conclusive(e) && e.business !in order then order + [e.business] else order,
      if Conclusive(e) then tallies[e.business := Bump(TallySoFar(tallies, e.business), e.action)] else tallies)
  {
    FirstSeenSnoc(events, e);
    SeenIffTallied(events, e.business);
    forall b ensures TallyOf(events + [e], b)
      == if e.business == b then Bump(TallyOf(events, b), e.action) else TallyOf(events, b)
    {
      TallySnoc(events, e, b);
    }
  }

  method TallyUp(events: seq<Conclusion>) returns (order: seq<Business>, tallies: map<Business, Tally>)
    ensures Tallies(events, order, tallies)
  {
    tallies, order := map[], [];
    for i := 0 to |events|
      invariant Tallies(events[..i], order, tallies)
    {
      var e := events[i];
      TalliesStep(events[..i], order, tallies, e);
      assert events[..i + 1] == events[..i] + [e];
      if e.action == Continue {
        continue;
      }
      if e.business !in tallies {
        tallies := tallies[e.business := ZERO];
        order := order + [e.business];
      }
      tallies := tallies[e.business := Bump(tallies[e.business], e.action)];
    }
    assert events[..|events|] == events;
  }

  /**
   * One performance per business seen, in that order, with the counts of its outcomes. It fails on
   * the first business whose capital is negative.
   */
  method Rollup(events: seq<Conclusion>, capital: map<Business, int>)
    returns (r: Result<seq<Portfolio.Performance>, Business>)
    ensures r.Ok? <==> Chargeable(events, capital)
    ensures r.Ok? ==> RolledUp(events, capital, r.value)
    ensures r.Err? ==> CapitalOf(capital, r.error) < 0 && FirstUncovered(FirstSeen(events), capital, r.error)
  {
    var order, tallies := TallyUp(events);
    var performances: seq<Portfolio.Performance> := [];
    for k := 0 to |order|
      invariant |performances| == k
      invariant forall j :: 0 <= j < k ==> CapitalOf(capital, order[j]) >= 0
      invariant forall j :: 0 <= j < k ==>
          var b, t := order[j], TallyOf(events, order[j]);
          performances[j] == Portfolio.Performance(b, CapitalOf(capital, b), t.scale, t.pivot, t.kill)
    {
      var b := order[k];
      if CapitalOf(capital, b) < 0 {
        return Err(b);
      }
      var t := tallies[b];
      performances := performances + [Portfolio.Performance(b, CapitalOf(capital, b), t.scale, t.pivot, t.kill)];
    }
    return Ok(performances);
  }

  /** What the allocator asks of its input: a rollup has distinct ids, and everyone in it has an outcome. */
  lemma RollupFeedsAllocator(events: seq<Conclusion>, capital: map<Business, int>, ps: seq<Portfolio.Performance>)
    requires RolledUp(events, capital, ps)
    ensures PortfolioTheorems.Distinct(ps)
    ensures forall k :: 0 <= k < |ps| ==> ps[k].Experiments() >= 1
  {
    FirstSeenDistinct(events);
    forall k | 0 <= k < |ps| ensures ps[k].Experiments() >= 1 {
      SeenIffTallied(events, FirstSeen(events)[k]);
    }
  }

  // ---------------------------------------------------------------- KPIs

  datatype Kpi = Kpi(business: Business, open: nat, concluded: nat, scaled: nat, winRate: nat, budget: int)

  datatype Figures = Figures(open: nat, concluded: nat, scaled: nat, budget: int)

  function Of(b: Business): Record -> bool {
    (r: Record) => r.business == b
  }

  function Open(b: Business): Record -> bool {
    (r: Record) => r.business == b && r.status != RowStatus.Concluded
  }

  function Closed(b: Business): Record -> bool {
    (r: Record) => r.business == b && r.status == RowStatus.Concluded
  }

  function Committed(records: seq<Record>, b: Business): int {
    if records == [] then 0
    else
      var r := records[|records| - 1];
      Committed(records[..|records| - 1], b) + (if r.business == b then r.budget else 0)
  }

  function FiguresOf(records: seq<Record>, b: Business): Figures {
    Figures(Count(records, Open(b)), Count(records, Closed(b)), Count(records, Row(b, Scale)), Committed(records, b))
  }

  function Add(f: Figures, r: Record): Figures {
    var g := f.(budget := f.budget + r.budget);
    if r.status == RowStatus.Concluded then
      g.(concluded := g.concluded + 1, scaled := g.scaled + (if r.decision == Some(Scale) then 1 else 0))
    else
      g.(open := g.open + 1)
  }

  /** n / d rounded to the nearest integer, a tie to the even neighbour. */
  function RoundHalfEven(n: nat, d: nat): nat
    requires d > 0
  {
    var q, rest := n / d, n % d;
    if 2 * rest < d || (2 * rest == d && q % 2 == 0) then q else q + 1
  }

  lemma RoundHalfEvenIs(n: nat, d: nat)
    requires d > 0
    ensures Nearest(n, d, RoundHalfEven(n, d))
  {}

  /** Scaled over concluded in basis points. */
  function WinRate(scaled: nat, concluded: nat): nat {
    if concluded == 0 then 0 else RoundHalfEven(10000 * scaled, concluded)
  }

  /** A win rate is a percentage: from none to all of the concluded. */
  lemma WinRateRange(scaled: nat, concluded: nat)
    requires scaled <= concluded
    ensures WinRate(scaled, concluded) <= 10000
    ensures concluded > 0 && scaled == concluded ==> WinRate(scaled, concluded) == 10000
    ensures scaled == 0 ==> WinRate(scaled, concluded) == 0
  {
    if concluded > 0 {
      var r := WinRate(scaled, concluded);
      RoundHalfEvenIs(10000 * scaled, concluded);
      if r > 10000 {
        PortfolioTheorems.TimesMonotone(10001, r, concluded);
      }
      if r < 10000 && scaled == concluded {
        PortfolioTheorems.TimesMonotone(r, 9999, concluded);
      }
      if r > 0 && scaled == 0 {
        PortfolioTheorems.TimesMonotone(1, r, concluded);
      }
    }
  }

  function KpiOf(b: Business, f: Figures): Kpi {
    Kpi(b, f.open, f.concluded, f.scaled, WinRate(f.scaled, f.concluded), f.budget)
  }

  /** The figures of a KPI row; the win rate is scaled over concluded to the nearest basis point, ties to even. */
  ghost predicate Reflects(records: seq<Record>, kpi: Kpi) {
    && kpi.open == Count(records, Open(kpi.business))
    && kpi.concluded == Count(records, Closed(kpi.business))
    && kpi.scaled == Count(records, Row(kpi.business, Scale))
    && kpi.budget == Committed(records, kpi.business)
    && (kpi.concluded == 0 ==> kpi.winRate == 0)
    && (kpi.concluded > 0 ==> Nearest(10000 * kpi.scaled, kpi.concluded, kpi.winRate))
  }

  /** r is n / d rounded to the nearest integer, a tie to the even one. */
  predicate Nearest(n: nat, d: nat, r: nat) {
    && 0 - d <= 2 * (n - r * d) <= d
    && (2 * (n - r * d) == d || 2 * (n - r * d) == 0 - d ==> r % 2 == 0)
  }

  lemma KpiReflects(records: seq<Record>, b: Business)
    ensures Reflects(records, KpiOf(b, FiguresOf(records, b)))
  {
    var f := FiguresOf(records, b);
    if f.concluded > 0 { RoundHalfEvenIs(10000 * f.scaled, f.concluded); }
  }

  lemma FiguresSnoc(records: seq<Record>, r: Record, b: Business)
    ensures FiguresOf(records + [r], b)
        == if r.business == b then Add(FiguresOf(records, b), r) else FiguresOf(records, b)
  {}

  lemma ScaledAreConcluded(records: seq<Record>, b: Business)
    ensures FiguresOf(records, b).scaled <= FiguresOf(records, b).concluded
    ensures FiguresOf(records, b).open + FiguresOf(records, b).concluded == Count(records, Of(b))
  {
    PortfolioTheorems.CountImplies(records, Row(b, Scale), Closed(b));
    CountSplit(records, b);
  }

  lemma {:induction false} CountSplit(records: seq<Record>, b: Business)
    ensures Count(records, Open(b)) + Count(records, Closed(b)) == Count(records, Of(b))
  {
    if records != [] {
      CountSplit(records[..|records| - 1], b);
    }
  }

  // ---------------------------------------------------------------- sorted by business

  function InsertName(names: seq<Business>, b: Business): seq<Business> {
    if names == [] then [b]
    else if LexLess(b, names[0]) then [b] + names
    else [names[0]] + InsertName(names[1..], b)
  }

  lemma {:induction false} InsertNameIs(names: seq<Business>, b: Business)
    requires SortedNames(names) && b !in names
    ensures SortedNames(InsertName(names, b))
    ensures forall x :: x in InsertName(names, b) <==> x == b || x in names
  {
    if names == [] {
    } else if LexLess(b, names[0]) {
      forall j | 0 <= j < |names| ensures LexLess(b, names[j]) {
        if j > 0 { LexTransitive(b, names[0], names[j]); }
      }
    } else {
      InsertNameIs(names[1..], b);
      LexTotal(b, names[0]);
      assert names == [names[0]] + names[1..];
      var rest := InsertName(names[1..], b);
      forall j | 0 <= j < |rest| ensures LexLess(names[0], rest[j]) {
        assert rest[j] in rest;
      }
    }
  }

  /** The businesses with a record, sorted. */
  function Names(records: seq<Record>): seq<Business> {
    if records == [] then []
    else
      var names, b := Names(records[..|records| - 1]), records[|records| - 1].business;
      if b in names then names else InsertName(names, b)
  }

  lemma {:induction false} NamesAre(records: seq<Record>)
    ensures SortedNames(Names(records))
    ensures forall b :: b in Names(records) <==> exists k :: 0 <= k < |records| && records[k].business == b
  {
    if records != [] {
      var n := |records| - 1;
      NamesAre(records[..n]);
      var names, b := Names(records[..n]), records[n].business;
      if b !in names {
        InsertNameIs(names, b);
      }
      forall x ensures x in Names(records) <==> exists k :: 0 <= k < |records| && records[k].business == x {
        if x in names {
          var k :| 0 <= k < n && records[..n][k].business == x;
          assert records[k].business == x;
        }
        if x != b && exists k :: 0 <= k < |records| && records[k].business == x {
          var k :| 0 <= k < |records| && records[k].business == x;
          assert records[..n][k].business == x;
        }
      }
    }
  }

  function KpisOf(records: seq<Record>): seq<Kpi> {
    var names := Names(records);
    seq(|names|, k requires 0 <= k < |names| => KpiOf(names[k], FiguresOf(records, names[k])))
  }

  ghost predicate Accumulated(records: seq<Record>, acc: map<Business, Figures>) {
    forall b :: if b in Names(records) then b in acc && acc[b] == FiguresOf(records, b)
                else b !in acc && FiguresOf(records, b) == Figures(0, 0, 0, 0)
  }

  lemma AccumulateStep(records: seq<Record>, acc: map<Business, Figures>, r: Record)
    requires Accumulated(records, acc)
    ensures var was := if r.business in acc then acc[r.business] else Figures(0, 0, 0, 0);
      Accumulated(records + [r], acc[r.business := Add(was, r)])
  {
    NamesAre(records);
    assert (records + [r])[..|records|] == records;
    if r.business !in Names(records) {
      InsertNameIs(Names(records), r.business);
    }
    forall b {
      FiguresSnoc(records, r, b);
    }
  }

  method Accumulate(records: seq<Record>) returns (acc: map<Business, Figures>)
    ensures Accumulated(records, acc)
  {
    acc := map[];
    for i := 0 to |records|
      invariant Accumulated(records[..i], acc)
    {
      var r := records[i];
      AccumulateStep(records[..i], acc, r);
      assert records[..i + 1] == records[..i] + [r];
      var b := if r.business in acc then acc[r.business] else Figures(0, 0, 0, 0);
      b := b.(budget := b.budget + r.budget);
      if r.status == RowStatus.Concluded {
        b := b.(concluded := b.concluded + 1);
        if r.decision == Some(Scale) {
          b := b.(scaled := b.scaled + 1);
        }
      } else {
        b := b.(open := b.open + 1);
      }
      acc := acc[r.business := b];
    }
    assert records[..|records|] == records;
  }

  predicate HasRow(kpis: seq<Kpi>, b: Business) {
    exists k :: 0 <= k < |kpis| && kpis[k].business == b
  }

  predicate HasRecord(records: seq<Record>, b: Business) {
    exists k :: 0 <= k < |records| && records[k].business == b
  }

  /** A row for exactly the businesses with a record, sorted, each with its figures. */
  ghost predicate KpiReport(records: seq<Record>, kpis: seq<Kpi>) {
    && (forall i, j :: 0 <= i < j < |kpis| ==> LexLess(kpis[i].business, kpis[j].business))
    && (forall k :: 0 <= k < |kpis| ==> Reflects(records, kpis[k]))
    && (forall b :: HasRow(kpis, b) <==> HasRecord(records, b))
  }

  lemma KpisAre(records: seq<Record>)
    ensures KpiReport(records, KpisOf(records))
  {
    var names, kpis := Names(records), KpisOf(records);
    NamesAre(records);
    forall k | 0 <= k < |names| ensures Reflects(records, kpis[k]) {
      KpiReflects(records, names[k]);
    }
    forall b ensures HasRow(kpis, b) <==> HasRecord(records, b) {
      if b in names {
        var k :| 0 <= k < |names| && names[k] == b;
        assert kpis[k].business == b;
      }
    }
  }

  /** The experiments the rows report, open and concluded. */
  function Tracked(kpis: seq<Kpi>): nat {
    if kpis == [] then 0
    else Tracked(kpis[..|kpis| - 1]) + kpis[|kpis| - 1].open + kpis[|kpis| - 1].concluded
  }

  function Budgets(kpis: seq<Kpi>): int {
    if kpis == [] then 0 else Budgets(kpis[..|kpis| - 1]) + kpis[|kpis| - 1].budget
  }

  function Budgeted(records: seq<Record>): int {
    if records == [] then 0 else Budgeted(records[..|records| - 1]) + records[|records| - 1].budget
  }

  /** One more record adds one experiment and its budget, to the one row of its business. */
  lemma {:induction false} OneMoreRecord(names: seq<Business>, before: seq<Kpi>, after: seq<Kpi>, records: seq<Record>,
                                         r: Record)
    requires SortedNames(names) && |before| == |after| == |names|
    requires forall k :: 0 <= k < |names| ==> before[k] == KpiOf(names[k], FiguresOf(records, names[k]))
    requires forall k :: 0 <= k < |names| ==> after[k] == KpiOf(names[k], FiguresOf(records + [r], names[k]))
    ensures Tracked(after) == Tracked(before) + (if r.business in names then 1 else 0)
    ensures Budgets(after) == Budgets(before) + (if r.business in names then r.budget else 0)
  {
    if names != [] {
      var n := |names| - 1;
      OneMoreRecord(names[..n], before[..n], after[..n], records, r);
      FiguresSnoc(records, r, names[n]);
      LexTotal(names[n], names[n]);
      assert names == names[..n] + [names[n]];
      assert r.business == names[n] ==> r.business !in names[..n];
    }
  }

  function RowsFor(names: seq<Business>, records: seq<Record>): seq<Kpi> {
    seq(|names|, k requires 0 <= k < |names| => KpiOf(names[k], FiguresOf(records, names[k])))
  }

  lemma {:induction false} RowsPartition(names: seq<Business>, records: seq<Record>)
    requires SortedNames(names) && forall k :: 0 <= k < |records| ==> records[k].business in names
    ensures Tracked(RowsFor(names, records)) == |records| && Budgets(RowsFor(names, records)) == Budgeted(records)
  {
    if records == [] {
      NoExperiments(RowsFor(names, records));
    } else {
      var n := |records| - 1;
      assert records == records[..n] + [records[n]];
      RowsPartition(names, records[..n]);
      OneMoreRecord(names, RowsFor(names, records[..n]), RowsFor(names, records), records[..n], records[n]);
    }
  }

  lemma {:induction false} NoExperiments(kpis: seq<Kpi>)
    requires forall k :: 0 <= k < |kpis| ==> kpis[k].open == kpis[k].concluded == kpis[k].budget == 0
    ensures Tracked(kpis) == 0 && Budgets(kpis) == 0
  {
    if kpis != [] { NoExperiments(kpis[..|kpis| - 1]); }
  }

  /** The rows split the fleet: over all of them the experiments are the records, and the budgets add up. */
  lemma KpisPartition(records: seq<Record>)
    ensures Tracked(KpisOf(records)) == |records| && Budgets(KpisOf(records)) == Budgeted(records)
  {
    NamesAre(records);
    RowsPartition(Names(records), records);
    assert KpisOf(records) == RowsFor(Names(records), records);
  }

  /** Per-business KPIs, sorted by business. */
  method ExperimentKpis(records: seq<Record>) returns (kpis: seq<Kpi>)
    ensures kpis == KpisOf(records)
    ensures KpiReport(records, kpis)
  {
    var acc := Accumulate(records);
    var names := Names(records);
    kpis := [];
    for k := 0 to |names|
      invariant |kpis| == k
      invariant forall j :: 0 <= j < k ==> kpis[j] == KpisOf(records)[j]
    {
      kpis := kpis + [KpiOf(names[k], acc[names[k]])];
    }
    KpisAre(records);
    assert kpis == KpisOf(records);
  }

  lemma {:induction false} CommittedInserted(before: seq<Record>, r: Record, after: seq<Record>, b: Business)
    ensures Committed(before + [r] + after, b)
        == Committed(before + after, b) + (if r.business == b then r.budget else 0)
  {
    if after == [] {
      assert before + [r] + after == before + [r] && before + after == before;
      assert (before + [r])[..|before|] == before;
    } else {
      var n := |after| - 1;
      CommittedInserted(before, r, after[..n], b);
      assert (before + [r] + after)[..|before| + 1 + n] == before + [r] + after[..n];
      assert (before + after)[..|before| + n] == before + after[..n];
    }
  }

  lemma {:induction false} CommittedPermuted(a: seq<Record>, b: seq<Record>, id: Business)
    requires multiset(a) == multiset(b)
    ensures Committed(a, id) == Committed(b, id)
    decreases |a|
  {
    if a == [] {
      assert |multiset(b)| == |b|;
    } else {
      var n := |a| - 1;
      assert a[n] in multiset(b);
      var k :| 0 <= k < |b| && b[k] == a[n];
      StrikeOut(a, b, k);
      CommittedPermuted(a[..n], b[..k] + b[k + 1..], id);
      CommittedInserted(b[..k], b[k], b[k + 1..], id);
      assert b == b[..k] + [b[k]] + b[k + 1..];
    }
  }

  /** The KPIs do not depend on the order the records were read in. */
  lemma KpisOrderFree(a: seq<Record>, b: seq<Record>)
    requires multiset(a) == multiset(b)
    ensures KpisOf(a) == KpisOf(b)
  {
    NamesAre(a);
    NamesAre(b);
    forall x ensures x in Names(a) <==> x in Names(b) {
      if x in Names(a) { SameBusinesses(a, b, x); }
      if x in Names(b) { SameBusinesses(b, a, x); }
    }
    SortedUnique(Names(a), Names(b));
    forall k | 0 <= k < |Names(a)| ensures KpisOf(a)[k] == KpisOf(b)[k] {
      var id := Names(a)[k];
      CountPermuted(a, b, Open(id));
      CountPermuted(a, b, Closed(id));
      CountPermuted(a, b, Row(id, Scale));
      CommittedPermuted(a, b, id);
    }
  }

  lemma SameBusinesses(a: seq<Record>, b: seq<Record>, x: Business)
    requires multiset(a) == multiset(b) && x in Names(a)
    ensures x in Names(b)
  {
    NamesAre(a);
    NamesAre(b);
    var k :| 0 <= k < |a| && a[k].business == x;
    assert a[k] in multiset(b);
    var j :| 0 <= j < |b| && b[j] == a[k];
  }

  // ---------------------------------------------------------------- the two agree

  /** The part of a log that reaches the rollup's topic. */
  function Conclusions(log: seq<Event>): seq<Conclusion> {
    if log == [] then []
    else
      var rest, e := Conclusions(log[..|log| - 1]), log[|log| - 1];
      if e.ConcludedEvent? then rest + [e] else rest
  }

  lemma {:induction false} ConclusionsCount(log: seq<Event>, b: Business, d: Decision)
    ensures Count(Conclusions(log), Outcome(b, d)) == Count(log, Outcome(b, d))
  {
    if log != [] {
      var rest, e := Conclusions(log[..|log| - 1]), log[|log| - 1];
      ConclusionsCount(log[..|log| - 1], b, d);
      if e.ConcludedEvent? {
        CountSnoc(rest, e, Outcome(b, d));
      }
    }
  }

  /**
   * In every reachable state whose conclusions were all assembled from their records, the scale count
   * the rollup reports of a business falls short of the `scaled` the KPIs report by exactly the
   * conclusions still in flight or lost between commit and publish. The records may be read in any order.
   */
  lemma RollupMatchesKpis(ops: seq<Op>, trace: seq<State>, i: nat, records: seq<Record>, capital: map<Business, int>,
                          ps: seq<Portfolio.Performance>, b: Business)
    requires Behaviour(ops, trace) && i < |trace|
    requires forall k {:trigger ops[k]} :: 0 <= k < i ==> Assembled(trace[k], ops[k])
    requires multiset(records) == multiset(trace[i].table)
    requires RolledUp(Conclusions(trace[i].log), capital, ps)
    ensures var s := trace[i];
      ReportedScale(ps, b) + Count(s.inflight + s.lost, Outcome(b, Scale)) == ReportedScaled(KpisOf(records), b)
  {
    var s := trace[i];
    EventsMatchRows(ops, trace, i, b, Scale);
    Reachable(ops, trace, i);
    Accounted(s, Outcome(b, Scale));
    ConclusionsCount(s.log, b, Scale);
    CountPermuted(records, s.table, Row(b, Scale));
    ReportedScaleIs(Conclusions(s.log), capital, ps, b);
    ReportedScaledIs(records, b);
  }

  /** The scale count a rollup reports of a business; a business it does not list has none. */
  function ReportedScale(ps: seq<Portfolio.Performance>, b: Business): nat {
    if ps == [] then 0
    else if ps[0].businessId == b then ps[0].scaleCount
    else ReportedScale(ps[1..], b)
  }

  /** The scaled experiments the KPIs report of a business. */
  function ReportedScaled(kpis: seq<Kpi>, b: Business): nat {
    if kpis == [] then 0
    else if kpis[0].business == b then kpis[0].scaled
    else ReportedScaled(kpis[1..], b)
  }

  lemma {:induction false} FirstReport(ps: seq<Portfolio.Performance>, b: Business)
    ensures (exists k :: 0 <= k < |ps| && ps[k].businessId == b && ps[k].scaleCount == ReportedScale(ps, b))
         || (ReportedScale(ps, b) == 0 && forall k :: 0 <= k < |ps| ==> ps[k].businessId != b)
  {
    if ps != [] {
      if ps[0].businessId != b {
        FirstReport(ps[1..], b);
        if exists k :: 0 <= k < |ps[1..]| && ps[1..][k].businessId == b {
          var k :| 0 <= k < |ps[1..]| && ps[1..][k].businessId == b
                   && ps[1..][k].scaleCount == ReportedScale(ps[1..], b);
          assert ps[k + 1] == ps[1..][k];
        }
      }
    }
  }

  lemma {:induction false} FirstRow(kpis: seq<Kpi>, b: Business)
    ensures (exists k :: 0 <= k < |kpis| && kpis[k].business == b && kpis[k].scaled == ReportedScaled(kpis, b))
         || (ReportedScaled(kpis, b) == 0 && forall k :: 0 <= k < |kpis| ==> kpis[k].business != b)
  {
    if kpis != [] {
      if kpis[0].business != b {
        FirstRow(kpis[1..], b);
        if exists k :: 0 <= k < |kpis[1..]| && kpis[1..][k].business == b {
          var k :| 0 <= k < |kpis[1..]| && kpis[1..][k].business == b
                   && kpis[1..][k].scaled == ReportedScaled(kpis[1..], b);
          assert kpis[k + 1] == kpis[1..][k];
        }
      }
    }
  }

  lemma ReportedScaleIs(events: seq<Conclusion>, capital: map<Business, int>, ps: seq<Portfolio.Performance>,
                        b: Business)
    requires RolledUp(events, capital, ps)
    ensures ReportedScale(ps, b) == Count(events, Outcome(b, Scale))
  {
    FirstReport(ps, b);
    SeenIffTallied(events, b);
    if b in FirstSeen(events) {
      var k :| 0 <= k < |ps| && FirstSeen(events)[k] == b;
      assert ps[k].businessId == b;
    }
  }

  lemma ReportedScaledIs(records: seq<Record>, b: Business)
    ensures ReportedScaled(KpisOf(records), b) == Count(records, Row(b, Scale))
  {
    KpisAre(records);
    FirstRow(KpisOf(records), b);
    if Count(records, Row(b, Scale)) > 0 {
      var k := FindCounted(records, Row(b, Scale));
      assert HasRecord(records, b) && HasRow(KpisOf(records), b);
    }
  }

  lemma {:induction false} FindCounted<T>(s: seq<T>, p: T -> bool) returns (k: nat)
    requires Count(s, p) > 0
    ensures k < |s| && p(s[k])
  {
    var n := |s| - 1;
    if p(s[n]) {
      k := n;
    } else {
      k := FindCounted(s[..n], p);
    }
  }

  /** The rollup says of a business what the table's rows say. */
  ghost predicate AgreesWith(p: Portfolio.Performance, table: seq<Record>) {
    var b := p.businessId;
    && p.scaleCount == Count(table, Row(b, Scale))
    && p.pivotCount == Count(table, Row(b, Pivot))
    && p.killCount == Count(table, Row(b, Kill))
    && p.Experiments() + Count(table, Row(b, Continue)) == Count(table, Closed(b))
  }

  /**
   * With nothing in flight or lost, the rollup agrees with the table outcome by outcome, the
   * experiments it counts are the concluded ones less those left to continue, and it lists every
   * business with a concluded row of another outcome.
   */
  lemma QuiescentAgreement(ops: seq<Op>, trace: seq<State>, i: nat, capital: map<Business, int>,
                           ps: seq<Portfolio.Performance>)
    requires Behaviour(ops, trace) && i < |trace| && trace[i].inflight == [] && trace[i].lost == []
    requires forall k {:trigger ops[k]} :: 0 <= k < i ==> Assembled(trace[k], ops[k])
    requires RolledUp(Conclusions(trace[i].log), capital, ps)
    ensures forall k :: 0 <= k < |ps| ==> AgreesWith(ps[k], trace[i].table)
    ensures forall b, d {:trigger Row(b, d)} :: d != Continue && Count(trace[i].table, Row(b, d)) > 0 ==>
        exists k :: 0 <= k < |ps| && ps[k].businessId == b
  {
    var s, events := trace[i], Conclusions(trace[i].log);
    forall b, d {:trigger Row(b, d)} ensures Count(events, Outcome(b, d)) == Count(s.table, Row(b, d)) {
      QuiescentCounts(ops, trace, i, b, d);
    }
    forall k | 0 <= k < |ps| ensures AgreesWith(ps[k], s.table) {
      ConcludedSplits(ops, trace, i, ps[k].businessId);
    }
    forall b, d {:trigger Row(b, d)} | d != Continue && Count(s.table, Row(b, d)) > 0
      ensures exists k :: 0 <= k < |ps| && ps[k].businessId == b
    {
      SeenIffTallied(events, b);
      var k :| 0 <= k < |ps| && FirstSeen(events)[k] == b;
      assert ps[k].businessId == b;
    }
  }

  lemma QuiescentCounts(ops: seq<Op>, trace: seq<State>, i: nat, b: Business, d: Decision)
    requires Behaviour(ops, trace) && i < |trace| && trace[i].inflight == [] && trace[i].lost == []
    requires forall k {:trigger ops[k]} :: 0 <= k < i ==> Assembled(trace[k], ops[k])
    ensures Count(Conclusions(trace[i].log), Outcome(b, d)) == Count(trace[i].table, Row(b, d))
  {
    var s := trace[i];
    Reachable(ops, trace, i);
    EventsMatchRows(ops, trace, i, b, d);
    Accounted(s, Outcome(b, d));
    assert s.inflight + s.lost == [];
    ConclusionsCount(s.log, b, d);
  }

  /** A business's concluded records are those of the four outcomes together, in every reachable state. */
  lemma ConcludedSplits(ops: seq<Op>, trace: seq<State>, i: nat, b: Business)
    requires Behaviour(ops, trace) && i < |trace|
    ensures var table := trace[i].table;
      FiguresOf(table, b).concluded
      == Count(table, Row(b, Scale)) + Count(table, Row(b, Pivot)) + Count(table, Row(b, Kill))
         + Count(table, Row(b, Continue))
  {
    Reachable(ops, trace, i);
    OutcomesSplit(trace[i].table, b);
  }

  lemma {:induction false} OutcomesSplit(table: seq<Record>, b: Business)
    requires forall k :: 0 <= k < |table| ==> (table[k].decision.Some? <==> table[k].status == RowStatus.Concluded)
    ensures Count(table, Closed(b))
      == Count(table, Row(b, Scale)) + Count(table, Row(b, Pivot)) + Count(table, Row(b, Kill))
         + Count(table, Row(b, Continue))
  {
    if table != [] {
      var n := |table| - 1;
      OutcomesSplit(table[..n], b);
      var d := table[n].decision;
      assert d.Some? ==> d.value == Scale || d.value == Pivot || d.value == Kill || d.value == Continue;
    }
  }

  lemma CountOne<T>(x: T, p: T -> bool)
    ensures Count([x], p) == if p(x) then 1 else 0
  {}

  lemma ConclusionsOne(e: Conclusion)
    ensures Conclusions([e]) == [e]
  {}

  const MISFILED := "e"

  /** A run that proposes an experiment for one business, concludes it under another and publishes that. */
  lemma MisfiledRun(a: Business, b: Business) returns (ops: seq<Op>, trace: seq<State>)
    ensures Behaviour(ops, trace) && |trace| == 4
    ensures trace[3].table == [Record(MISFILED, a, "", 0, RowStatus.Concluded, Some(Scale))]
    ensures trace[3].log == [ConcludedEvent(MISFILED, b, Scale)]
  {
    var c, e := CreatedEvent(MISFILED, a, 0), ConcludedEvent(MISFILED, b, Scale);
    var open := Record(MISFILED, a, "", 0, Proposed, None);
    var closed := Record(MISFILED, a, "", 0, RowStatus.Concluded, Some(Scale));
    ops := [CommitCreate(MISFILED, a, "", 0), CommitConclude(Experiment(MISFILED, b), Scale), Publish(1)];
    trace := [INIT, State([open], [], [c], [], [c]), State([closed], [], [c, e], [], [c, e]),
              State([closed], [e], [c], [], [c, e])];
    assert Apply(trace[0], ops[0]) == trace[1];
    assert Apply(trace[1], ops[1]) == trace[2];
    assert Apply(trace[2], ops[2]) == trace[3];
  }

  /** That the experiment is assembled from its record is needed: one filed under another business splits the two. */
  lemma MisfiledConclusionDiverges(a: Business, b: Business) returns (ops: seq<Op>, trace: seq<State>)
    requires a != b
    ensures Behaviour(ops, trace) && |trace| == 4
    ensures TallyOf(Conclusions(trace[3].log), a).scale == 0 && FiguresOf(trace[3].table, a).scaled == 1
    ensures TallyOf(Conclusions(trace[3].log), b).scale == 1 && FiguresOf(trace[3].table, b).scaled == 0
  {
    ops, trace := MisfiledRun(a, b);
    var e, r := ConcludedEvent(MISFILED, b, Scale), Record(MISFILED, a, "", 0, RowStatus.Concluded, Some(Scale));
    OneOfEach(e, r, a);
    OneOfEach(e, r, b);
  }

  lemma OneOfEach(e: Conclusion, r: Record, b: Business)
    ensures TallyOf(Conclusions([e]), b).scale == if Outcome(b, Scale)(e) then 1 else 0
    ensures FiguresOf([r], b).scaled == if Row(b, Scale)(r) then 1 else 0
  {
    ConclusionsOne(e);
    CountOne(e, Outcome(b, Scale));
    CountOne(r, Row(b, Scale));
  }
}
