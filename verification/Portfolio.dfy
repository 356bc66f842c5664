/**
 * The capital allocator (src/ab_portfolio/core.py): conclusive losers are sunset, winners are
 * funded greedily in stable score order while the freed and unused budget lasts.
 */
module Portfolio {
  import StableOrder

  /** Pydantic refuses negative capital and negative counts. */
  datatype Performance = Performance(businessId: string, capital: nat, scaleCount: nat, pivotCount: nat,
                                     killCount: nat) {
    function Score(): int { scaleCount - killCount }
    function Experiments(): nat { scaleCount + pivotCount + killCount }
  }

  datatype Action = Sunset | Starve | InvestMore | Hold

  datatype Reason =
    | ConclusiveLoser(score: int, experiments: nat)
    | NetNegative(score: int)
    | Inconclusive(score: int)
    | Unprofitable(score: int)
    | ConclusiveWinner(score: int)
    | BudgetExhausted(score: int)

  datatype Recommendation = Recommendation(businessId: string, action: Action, capitalDelta: int, reason: Reason)

  /** SUNSET_FLOOR, MIN_CONCLUSIVE and INVEST_THRESHOLD: read from the environment, so any integers. */
  datatype Policy = Policy(sunsetFloor: int, minConclusive: int, investThreshold: int)

  /** The call's keyword arguments. */
  datatype Terms = Terms(budget: int, increment: int, unprofitable: set<string>)

  predicate Loser(policy: Policy, p: Performance) {
    p.Score() <= policy.sunsetFloor && p.Experiments() >= policy.minConclusive
  }

  predicate Winner(policy: Policy, p: Performance) {
    !Loser(policy, p) && p.Score() >= policy.investThreshold
  }

  /** What is decided of a business that is no winner, before any capacity is known. */
  function Verdict(policy: Policy, p: Performance): Recommendation
    requires !Winner(policy, p)
  {
    if Loser(policy, p) then
      Recommendation(p.businessId, Sunset, 0 - p.capital, ConclusiveLoser(p.Score(), p.Experiments()))
    else if p.Score() < 0 then
      Recommendation(p.businessId, Starve, 0, NetNegative(p.Score()))
    else
      Recommendation(p.businessId, Hold, 0, Inconclusive(p.Score()))
  }

  // ---------------------------------------------------------------- the specification

  function Winners(policy: Policy, ps: seq<Performance>): seq<Performance> {
    if ps == [] then []
    else
      var p := ps[|ps| - 1];
      var ws := Winners(policy, ps[..|ps| - 1]);
      if Winner(policy, p) then ws + [p] else ws
  }

  function Settled(policy: Policy, ps: seq<Performance>): seq<Recommendation> {
    if ps == [] then []
    else
      var p := ps[|ps| - 1];
      var log := Settled(policy, ps[..|ps| - 1]);
      if Winner(policy, p) then log else log + [Verdict(policy, p)]
  }

  lemma {:induction false} WinnersIs(policy: Policy, ps: seq<Performance>)
    ensures forall w :: w in Winners(policy, ps) <==> w in ps && Winner(policy, w)
  {
    if ps != [] {
      WinnersIs(policy, ps[..|ps| - 1]);
      assert ps == ps[..|ps| - 1] + [ps[|ps| - 1]];
    }
  }

  lemma {:induction false} SettledIs(policy: Policy, ps: seq<Performance>)
    ensures forall p :: p in ps && !Winner(policy, p) ==> Verdict(policy, p) in Settled(policy, ps)
    ensures forall rec :: rec in Settled(policy, ps) ==>
        exists p :: p in ps && !Winner(policy, p) && rec == Verdict(policy, p)
  {
    if ps != [] {
      SettledIs(policy, ps[..|ps| - 1]);
      assert ps == ps[..|ps| - 1] + [ps[|ps| - 1]];
    }
  }

  function Scores(ws: seq<Performance>): seq<real> {
    seq(|ws|, k requires 0 <= k < |ws| => ws[k].Score() as real)
  }

  /** sorted(winners, key=score, reverse=True): stable, so equal scores keep their input order. */
  function Ranked(ws: seq<Performance>): (r: seq<Performance>)
    ensures |r| == |ws|
  {
    Pick(ws, StableOrder.Order(Scores(ws), |ws|))
  }

  predicate Eligible(terms: Terms, p: Performance) {
    p.businessId !in terms.unprofitable
  }

  /** The decision on one winner when `available` is left. */
  function Funding(terms: Terms, p: Performance, available: int): Recommendation {
    if !Eligible(terms, p) then Recommendation(p.businessId, Hold, 0, Unprofitable(p.Score()))
    else if available >= terms.increment then
      Recommendation(p.businessId, InvestMore, terms.increment, ConclusiveWinner(p.Score()))
    else Recommendation(p.businessId, Hold, 0, BudgetExhausted(p.Score()))
  }

  /** What is left after the first winners were decided. */
  function Left(terms: Terms, ws: seq<Performance>, headroom: int): int {
    if ws == [] then headroom
    else
      var before := Left(terms, ws[..|ws| - 1], headroom);
      before - Funding(terms, ws[|ws| - 1], before).capitalDelta
  }

  function Fund(terms: Terms, ws: seq<Performance>, headroom: int): (log: seq<Recommendation>)
    ensures |log| == |ws|
    ensures forall k :: 0 <= k < |ws| ==> log[k].businessId == ws[k].businessId
  {
    if ws == [] then []
    else
      var n := |ws| - 1;
      Fund(terms, ws[..n], headroom) + [Funding(terms, ws[n], Left(terms, ws[..n], headroom))]
  }

  function Deployed(ps: seq<Performance>): nat {
    if ps == [] then 0 else Deployed(ps[..|ps| - 1]) + ps[|ps| - 1].capital
  }

  function Reclaimed(policy: Policy, ps: seq<Performance>): (total: nat)
    ensures total <= Deployed(ps)
  {
    if ps == [] then 0
    else
      var p := ps[|ps| - 1];
      Reclaimed(policy, ps[..|ps| - 1]) + (if Loser(policy, p) then p.capital else 0)
  }

  /** Sunsets free capacity first. */
  function Headroom(policy: Policy, terms: Terms, ps: seq<Performance>): int {
    terms.budget - (Deployed(ps) - Reclaimed(policy, ps))
  }

  function Leaders(policy: Policy, ps: seq<Performance>): seq<Performance> {
    Ranked(Winners(policy, ps))
  }

  /** Every write to the decisions dictionary, in order. */
  function Writes(policy: Policy, terms: Terms, ps: seq<Performance>): seq<Recommendation> {
    Settled(policy, ps) + Fund(terms, Leaders(policy, ps), Headroom(policy, terms, ps))
  }

  /** A dictionary keeps the last write to each key. */
  function Latest(log: seq<Recommendation>): map<string, Recommendation> {
    if log == [] then map[]
    else
      var rec := log[|log| - 1];
      Latest(log[..|log| - 1])[rec.businessId := rec]
  }

  lemma {:induction false} LatestHas(log: seq<Recommendation>, k: nat)
    requires k < |log|
    ensures log[k].businessId in Latest(log)
  {
    if k < |log| - 1 {
      LatestHas(log[..|log| - 1], k);
    }
  }

  /** Ranking a list neither adds nor drops anyone, and puts higher scores first. */
  lemma RankedIs(ws: seq<Performance>)
    ensures forall w :: w in Ranked(ws) <==> w in ws
    ensures multiset(Ranked(ws)) == multiset(ws)
    ensures forall a, b :: 0 <= a < b < |ws| ==> Ranked(ws)[a].Score() >= Ranked(ws)[b].Score()
  {
    var order := StableOrder.Order(Scores(ws), |ws|);
    StableOrder.OrderIs(Scores(ws), |ws|);
    forall w | w in ws ensures w in Ranked(ws) {
      var i: nat :| i < |ws| && ws[i] == w;
      assert i in order;
      var k :| 0 <= k < |order| && order[k] == i;
      assert Ranked(ws)[k] == w;
    }
    forall a, b | 0 <= a < b < |ws| ensures Ranked(ws)[a].Score() >= Ranked(ws)[b].Score() {
      assert StableOrder.Before(Scores(ws), order[a], order[b]);
    }
    forall a, b | 0 <= a < b < |order| ensures order[a] != order[b] {
      assert StableOrder.Before(Scores(ws), order[a], order[b]);
    }
    PickPermutes(ws, order);
  }

  ghost predicate Positions(n: nat, order: seq<nat>) {
    && |order| == n
    && (forall k :: 0 <= k < |order| ==> order[k] < n)
    && (forall i: nat :: i < n ==> i in order)
    && (forall a, b :: 0 <= a < b < |order| ==> order[a] != order[b])
  }

  function Pick(ws: seq<Performance>, order: seq<nat>): seq<Performance>
    requires forall k :: 0 <= k < |order| ==> order[k] < |ws|
  {
    seq(|order|, k requires 0 <= k < |order| => ws[order[k]])
  }

  lemma WithoutLast(n: nat, order: seq<nat>, at: nat)
    requires n > 0 && Positions(n, order) && at < n && order[at] == n - 1
    ensures Positions(n - 1, order[..at] + order[at + 1..])
  {
    var rest := order[..at] + order[at + 1..];
    forall i: nat | i < n - 1 ensures i in rest {
      assert i in order;
      var k :| 0 <= k < n && order[k] == i;
      assert rest[if k < at then k else k - 1] == i;
    }
  }

  lemma PickSplit(ws: seq<Performance>, order: seq<nat>, at: nat)
    requires Positions(|ws|, order) && at < |ws| && order[at] == |ws| - 1
    requires Positions(|ws| - 1, order[..at] + order[at + 1..])
    ensures var fewer := Pick(ws[..|ws| - 1], order[..at] + order[at + 1..]);
      Pick(ws, order) == fewer[..at] + [ws[|ws| - 1]] + fewer[at..]
  {}

  lemma InsertedMultiset(ws: seq<Performance>, fewer: seq<Performance>, at: nat)
    requires ws != [] && at <= |fewer| && multiset(fewer) == multiset(ws[..|ws| - 1])
    ensures multiset(fewer[..at] + [ws[|ws| - 1]] + fewer[at..]) == multiset(ws)
  {
    assert fewer == fewer[..at] + fewer[at..];
    assert ws == ws[..|ws| - 1] + [ws[|ws| - 1]];
  }

  /** Reading a list through positions that are distinct and cover it is a permutation. */
  lemma {:induction false} PickPermutes(ws: seq<Performance>, order: seq<nat>)
    requires Positions(|ws|, order)
    ensures multiset(Pick(ws, order)) == multiset(ws)
  {
    var n := |ws|;
    if n > 0 {
      assert n - 1 in order;
      var at :| 0 <= at < n && order[at] == n - 1;
      var rest := order[..at] + order[at + 1..];
      WithoutLast(n, order, at);
      PickPermutes(ws[..n - 1], rest);
      PickSplit(ws, order, at);
      InsertedMultiset(ws, Pick(ws[..n - 1], rest), at);
    }
  }

  lemma WinnerAt(policy: Policy, ps: seq<Performance>, p: Performance) returns (k: nat)
    requires p in ps && Winner(policy, p)
    ensures k < |Leaders(policy, ps)| && Leaders(policy, ps)[k] == p
  {
    WinnersIs(policy, ps);
    RankedIs(Winners(policy, ps));
    k :| 0 <= k < |Leaders(policy, ps)| && Leaders(policy, ps)[k] == p;
  }

  /** Every business gets some decision, whatever the ids. */
  lemma EveryoneDecided(policy: Policy, terms: Terms, ps: seq<Performance>, i: nat)
    requires i < |ps|
    ensures ps[i].businessId in Latest(Writes(policy, terms, ps))
  {
    var log, settled, leaders := Writes(policy, terms, ps), Settled(policy, ps), Leaders(policy, ps);
    if Winner(policy, ps[i]) {
      var k := WinnerAt(policy, ps, ps[i]);
      assert log[|settled| + k].businessId == ps[i].businessId;
      LatestHas(log, |settled| + k);
    } else {
      SettledIs(policy, ps);
      assert Verdict(policy, ps[i]) in settled;
      var k :| 0 <= k < |settled| && settled[k] == Verdict(policy, ps[i]);
      LatestHas(log, k);
    }
  }

  function Decision(policy: Policy, terms: Terms, ps: seq<Performance>, i: nat): Recommendation
    requires i < |ps|
  {
    EveryoneDecided(policy, terms, ps, i);
    Latest(Writes(policy, terms, ps))[ps[i].businessId]
  }

  function Allocation(policy: Policy, terms: Terms, ps: seq<Performance>): seq<Recommendation> {
    seq(|ps|, i requires 0 <= i < |ps| => Decision(policy, terms, ps, i))
  }

  // ---------------------------------------------------------------- the loops

  lemma LatestSnoc(log: seq<Recommendation>, rec: Recommendation)
    ensures Latest(log + [rec]) == Latest(log)[rec.businessId := rec]
  {}

  lemma FirstPassStep(policy: Policy, ps: seq<Performance>, i: nat)
    requires i < |ps|
    ensures var ws, log := Winners(policy, ps[..i]), Settled(policy, ps[..i]);
      && Winners(policy, ps[..i + 1]) == (if Winner(policy, ps[i]) then ws + [ps[i]] else ws)
      && Settled(policy, ps[..i + 1]) == (if Winner(policy, ps[i]) then log else log + [Verdict(policy, ps[i])])
  {
    assert ps[..i + 1][..i] == ps[..i];
  }

  /** The first pass: everyone but the winners is decided. */
  method Triage(policy: Policy, performances: seq<Performance>)
    returns (decisions: map<string, Recommendation>, winners: seq<Performance>, reclaimed: int)
    ensures decisions == Latest(Settled(policy, performances))
    ensures winners == Winners(policy, performances)
    ensures reclaimed == Reclaimed(policy, performances)
  {
    decisions, winners, reclaimed := map[], [], 0;
    for i := 0 to |performances|
      invariant decisions == Latest(Settled(policy, performances[..i]))
      invariant winners == Winners(policy, performances[..i])
      invariant reclaimed == Reclaimed(policy, performances[..i])
    {
      var p := performances[i];
      assert performances[..i + 1][..i] == performances[..i];
      FirstPassStep(policy, performances, i);
      if Loser(policy, p) {
        LatestSnoc(Settled(policy, performances[..i]), Verdict(policy, p));
        decisions := decisions[p.businessId := Verdict(policy, p)];
        reclaimed := reclaimed + p.capital;
      } else if p.Score() >= policy.investThreshold {
        winners := winners + [p];
      } else {
        LatestSnoc(Settled(policy, performances[..i]), Verdict(policy, p));
        decisions := decisions[p.businessId := Verdict(policy, p)];
      }
    }
    assert performances[..|performances|] == performances;
  }

  lemma SecondPassStep(terms: Terms, log: seq<Recommendation>, ws: seq<Performance>, headroom: int, k: nat)
    requires k < |ws|
    ensures var rec := Funding(terms, ws[k], Left(terms, ws[..k], headroom));
      && Left(terms, ws[..k + 1], headroom) == Left(terms, ws[..k], headroom) - rec.capitalDelta
      && Latest(log + Fund(terms, ws[..k + 1], headroom))
      == Latest(log + Fund(terms, ws[..k], headroom))[rec.businessId := rec]
  {
    var rec := Funding(terms, ws[k], Left(terms, ws[..k], headroom));
    assert ws[..k + 1][..k] == ws[..k];
    LatestSnoc(log + Fund(terms, ws[..k], headroom), rec);
    assert log + Fund(terms, ws[..k + 1], headroom) == log + Fund(terms, ws[..k], headroom) + [rec];
  }

  /** The second pass: the ranked winners take what is available in turn. */
  method FundInTurn(terms: Terms, leaders: seq<Performance>, headroom: int,
                    triaged: map<string, Recommendation>, ghost log: seq<Recommendation>)
    returns (decisions: map<string, Recommendation>)
    requires triaged == Latest(log)
    ensures decisions == Latest(log + Fund(terms, leaders, headroom))
  {
    decisions := triaged;
    var available := headroom;
    assert log + Fund(terms, leaders[..0], headroom) == log;
    for k := 0 to |leaders|
      invariant available == Left(terms, leaders[..k], headroom)
      invariant decisions == Latest(log + Fund(terms, leaders[..k], headroom))
    {
      SecondPassStep(terms, log, leaders, headroom, k);
      var rec := Funding(terms, leaders[k], available);
      decisions := decisions[rec.businessId := rec];
      available := available - rec.capitalDelta;
    }
    assert leaders[..|leaders|] == leaders;
  }

  /** Output preserves input order. */
  method Collect(policy: Policy, terms: Terms, performances: seq<Performance>, decisions: map<string, Recommendation>)
    returns (r: seq<Recommendation>)
    requires decisions == Latest(Writes(policy, terms, performances))
    ensures r == Allocation(policy, terms, performances)
  {
    forall i | 0 <= i < |performances| ensures performances[i].businessId in decisions {
      EveryoneDecided(policy, terms, performances, i);
    }
    r := seq(|performances|, i requires 0 <= i < |performances| => decisions[performances[i].businessId]);
  }

  method Allocate(policy: Policy, performances: seq<Performance>, terms: Terms) returns (r: seq<Recommendation>)
    ensures r == Allocation(policy, terms, performances)
  {
    var triaged, winners, reclaimed := Triage(policy, performances);
    var available := terms.budget - (Deployed(performances) - reclaimed);
    ghost var log := Settled(policy, performances);
    var leaders := Ranked(winners);
    assert leaders == Leaders(policy, performances) && available == Headroom(policy, terms, performances);
    var decisions := FundInTurn(terms, leaders, available, triaged, log);
    assert log + Fund(terms, leaders, available) == Writes(policy, terms, performances);
    r := Collect(policy, terms, performances, decisions);
  }
}
