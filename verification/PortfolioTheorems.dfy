/**
 * What the capital allocator guarantees when the business ids are distinct, as `rollup` makes
 * them: who exactly is funded, feasibility, optimality, and the effect of one more money-loser.
 */
module PortfolioTheorems {
  import opened Common
  import opened Portfolio

  ghost predicate Distinct(ps: seq<Performance>) {
    forall i, j :: 0 <= i < j < |ps| ==> ps[i].businessId != ps[j].businessId
  }

  /** How many increments fit the headroom. */
  function Slots(headroom: int, increment: int): nat
    requires increment >= 1
    decreases if headroom < 0 then 0 else headroom
  {
    if headroom < increment then 0 else 1 + Slots(headroom - increment, increment)
  }

  lemma {:induction false} SlotsAreTheQuotient(headroom: int, increment: int)
    requires increment >= 1
    ensures Slots(headroom, increment) * increment <= (if headroom < 0 then 0 else headroom)
    ensures headroom < Slots(headroom, increment) * increment + increment
    decreases if headroom < 0 then 0 else headroom
  {
    if headroom >= increment {
      SlotsAreTheQuotient(headroom - increment, increment);
      var n := Slots(headroom - increment, increment);
      assert (1 + n) * increment == n * increment + increment;
    }
  }

  lemma {:induction false} SlotsMost(headroom: int, increment: int, n: nat)
    requires increment >= 1 && (n * increment <= headroom || n == 0)
    ensures n <= Slots(headroom, increment)
  {
    if n > 0 {
      assert n * increment == (n - 1) * increment + increment;
      assert 0 <= (n - 1) * increment;
      SlotsMost(headroom - increment, increment, n - 1);
    }
  }

  function CanBeFunded(policy: Policy, terms: Terms): Performance -> bool {
    (p: Performance) => Winner(policy, p) && Eligible(terms, p)
  }

  function EligibleFor(terms: Terms): Performance -> bool {
    (p: Performance) => Eligible(terms, p)
  }

  function Least(a: nat, b: nat): nat {
    if a <= b then a else b
  }

  // ---------------------------------------------------------------- the greedy pass

  /** After the first winners, the increments left are those not yet taken. */
  lemma {:induction false} LeftIs(terms: Terms, ws: seq<Performance>, headroom: int)
    requires terms.increment >= 1
    ensures Slots(Left(terms, ws, headroom), terms.increment)
      == Slots(headroom, terms.increment) - Least(Count(ws, EligibleFor(terms)), Slots(headroom, terms.increment))
  {
    if ws != [] {
      LeftIs(terms, ws[..|ws| - 1], headroom);
    }
  }

  lemma {:induction false} FundAt(terms: Terms, ws: seq<Performance>, headroom: int, k: nat)
    requires k < |ws|
    ensures Fund(terms, ws, headroom)[k] == Funding(terms, ws[k], Left(terms, ws[..k], headroom))
  {
    if k < |ws| - 1 {
      FundAt(terms, ws[..|ws| - 1], headroom, k);
      assert ws[..|ws| - 1][..k] == ws[..k];
    }
  }

  /** Winner k is funded iff it is profitable and fewer profitable winners precede it than there are slots. */
  lemma FundedByRank(terms: Terms, ws: seq<Performance>, headroom: int, k: nat)
    requires k < |ws| && terms.increment >= 1
    ensures var rec := Fund(terms, ws, headroom)[k];
      var ahead := Count(ws[..k], EligibleFor(terms));
      && (rec.action == InvestMore <==> Eligible(terms, ws[k]) && ahead < Slots(headroom, terms.increment))
      && rec == (if !Eligible(terms, ws[k]) then Recommendation(ws[k].businessId, Hold, 0, Unprofitable(ws[k].Score()))
                 else if ahead < Slots(headroom, terms.increment) then
                   Recommendation(ws[k].businessId, InvestMore, terms.increment, ConclusiveWinner(ws[k].Score()))
                 else Recommendation(ws[k].businessId, Hold, 0, BudgetExhausted(ws[k].Score())))
  {
    FundAt(terms, ws, headroom, k);
    LeftIs(terms, ws[..k], headroom);
  }

  lemma {:induction false} FreeLeftIs(terms: Terms, ws: seq<Performance>, headroom: int)
    requires terms.increment <= 0
    ensures if headroom >= terms.increment then Left(terms, ws, headroom) >= headroom
            else Left(terms, ws, headroom) == headroom
  {
    if ws != [] {
      FreeLeftIs(terms, ws[..|ws| - 1], headroom);
    }
  }

  /** Nothing keeps the increment positive; without that, the first test decides for all winners alike. */
  lemma NonPositiveIncrement(terms: Terms, ws: seq<Performance>, headroom: int, k: nat)
    requires k < |ws| && terms.increment <= 0
    ensures Fund(terms, ws, headroom)[k].action == InvestMore <==> Eligible(terms, ws[k]) && headroom >= terms.increment
  {
    FundAt(terms, ws, headroom, k);
    FreeLeftIs(terms, ws[..k], headroom);
  }

  // ---------------------------------------------------------------- one decision per business

  lemma {:induction false} LatestIs(log: seq<Recommendation>, id: string, rec: Recommendation)
    requires rec in log && rec.businessId == id
    requires forall k :: 0 <= k < |log| && log[k].businessId == id ==> log[k] == rec
    ensures id in Latest(log) && Latest(log)[id] == rec
  {
    var n := |log| - 1;
    if log[n].businessId != id {
      assert log == log[..n] + [log[n]];
      LatestIs(log[..n], id, rec);
    }
  }

  lemma SameId(ps: seq<Performance>, p: Performance, q: Performance)
    requires Distinct(ps) && p in ps && q in ps && p.businessId == q.businessId
    ensures p == q
  {}

  /** Nobody else's entry in the ranked list bears this id. */
  lemma LeaderIsNot(policy: Policy, ps: seq<Performance>, p: Performance, k: nat)
    requires Distinct(ps) && p in ps && !Winner(policy, p) && k < |Leaders(policy, ps)|
    ensures Leaders(policy, ps)[k].businessId != p.businessId
  {
    var w := Leaders(policy, ps)[k];
    WinnersIs(policy, ps);
    RankedIs(Winners(policy, ps));
    assert w in Leaders(policy, ps);
    if w.businessId == p.businessId { SameId(ps, w, p); }
  }

  /** An early verdict bearing this id is this business's own. */
  lemma SettledIsOwn(policy: Policy, ps: seq<Performance>, p: Performance, k: nat)
    requires Distinct(ps) && p in ps && k < |Settled(policy, ps)| && Settled(policy, ps)[k].businessId == p.businessId
    ensures !Winner(policy, p) && Settled(policy, ps)[k] == Verdict(policy, p)
  {
    SettledIs(policy, ps);
    assert Settled(policy, ps)[k] in Settled(policy, ps);
    var q :| q in ps && !Winner(policy, q) && Settled(policy, ps)[k] == Verdict(policy, q);
    SameId(ps, p, q);
  }

  /** A business that is no winner gets its verdict. */
  lemma LoserDecision(policy: Policy, terms: Terms, ps: seq<Performance>, i: nat)
    requires Distinct(ps) && i < |ps| && !Winner(policy, ps[i])
    ensures Decision(policy, terms, ps, i) == Verdict(policy, ps[i])
  {
    var settled, leaders, log := Settled(policy, ps), Leaders(policy, ps), Writes(policy, terms, ps);
    var p, rec := ps[i], Verdict(policy, ps[i]);
    SettledIs(policy, ps);
    assert rec in settled && rec in log;
    forall k | 0 <= k < |log| && log[k].businessId == p.businessId ensures log[k] == rec {
      if k < |settled| {
        SettledIsOwn(policy, ps, p, k);
      } else {
        LeaderIsNot(policy, ps, p, k - |settled|);
      }
    }
    LatestIs(log, p.businessId, rec);
  }

  /** A winner gets the decision of its place in the greedy pass. */
  lemma WinnerDecision(policy: Policy, terms: Terms, ps: seq<Performance>, i: nat) returns (k: nat)
    requires Distinct(ps) && i < |ps| && Winner(policy, ps[i])
    ensures k < |Leaders(policy, ps)| && Leaders(policy, ps)[k] == ps[i]
    ensures Decision(policy, terms, ps, i)
      == Fund(terms, Leaders(policy, ps), Headroom(policy, terms, ps))[k]
  {
    var settled, leaders, log := Settled(policy, ps), Leaders(policy, ps), Writes(policy, terms, ps);
    var p := ps[i];
    k := WinnerAt(policy, ps, p);
    var rec := Fund(terms, leaders, Headroom(policy, terms, ps))[k];
    assert log[|settled| + k] == rec;
    forall j | 0 <= j < |log| && log[j].businessId == p.businessId ensures log[j] == rec {
      if j < |settled| {
        SettledIsOwn(policy, ps, p, j);
      } else {
        LeadersDistinct(policy, ps, j - |settled|, k);
      }
    }
    LatestIs(log, p.businessId, rec);
  }

  // ---------------------------------------------------------------- rank in the stable order

  /** Where an id first appears. */
  function Place(ps: seq<Performance>, id: string): nat {
    if ps == [] || ps[0].businessId == id then 0 else 1 + Place(ps[1..], id)
  }

  /** The stable descending order of scores. */
  predicate Precedes(ps: seq<Performance>, q: Performance, p: Performance) {
    q.Score() > p.Score() || (q.Score() == p.Score() && Place(ps, q.businessId) < Place(ps, p.businessId))
  }

  function InFront(policy: Policy, terms: Terms, ps: seq<Performance>, p: Performance): Performance -> bool {
    (q: Performance) => Winner(policy, q) && Eligible(terms, q) && Precedes(ps, q, p)
  }

  /** How many profitable winners precede a business. */
  function Ahead(policy: Policy, terms: Terms, ps: seq<Performance>, p: Performance): nat {
    Count(ps, InFront(policy, terms, ps, p))
  }

  lemma {:induction false} PlaceIs(ps: seq<Performance>, i: nat)
    requires Distinct(ps) && i < |ps|
    ensures Place(ps, ps[i].businessId) == i
  {
    if i > 0 {
      assert ps[1..][i - 1] == ps[i];
      PlaceIs(ps[1..], i - 1);
    }
  }

  /** Filtering keeps the input order. */
  lemma {:induction false} WinnersInOrder(policy: Policy, ps: seq<Performance>, n: nat, a: nat, b: nat)
    requires Distinct(ps) && n <= |ps| && a < b < |Winners(policy, ps[..n])|
    ensures var ws := Winners(policy, ps[..n]);
      Place(ps, ws[a].businessId) < Place(ps, ws[b].businessId)
  {
    assert ps[..n][..n - 1] == ps[..n - 1];
    var ws, before := Winners(policy, ps[..n]), Winners(policy, ps[..n - 1]);
    if b < |before| {
      WinnersInOrder(policy, ps, n - 1, a, b);
    } else {
      assert ws[b] == ps[n - 1];
      PlaceIs(ps, n - 1);
      WinnersIs(policy, ps[..n - 1]);
      assert before[a] in before;
      var j :| 0 <= j < n - 1 && ps[..n - 1][j] == ws[a];
      PlaceIs(ps, j);
    }
  }

  /** The leaders are strictly ordered. */
  lemma LeadersInOrder(policy: Policy, ps: seq<Performance>, a: nat, b: nat)
    requires Distinct(ps) && a < b < |Leaders(policy, ps)|
    ensures Precedes(ps, Leaders(policy, ps)[a], Leaders(policy, ps)[b])
  {
    var ws := Winners(policy, ps);
    var order := StableOrder.Order(Scores(ws), |ws|);
    StableOrder.OrderIs(Scores(ws), |ws|);
    assert StableOrder.Before(Scores(ws), order[a], order[b]);
    assert ps[..|ps|] == ps;
    if ws[order[a]].Score() == ws[order[b]].Score() {
      WinnersInOrder(policy, ps, |ps|, order[a], order[b]);
    }
  }

  lemma LeadersDistinct(policy: Policy, ps: seq<Performance>, a: nat, b: nat)
    requires Distinct(ps) && a < |Leaders(policy, ps)| && b < |Leaders(policy, ps)|
    requires Leaders(policy, ps)[a].businessId == Leaders(policy, ps)[b].businessId
    ensures a == b
  {
    var leaders := Leaders(policy, ps);
    WinnersIs(policy, ps);
    RankedIs(Winners(policy, ps));
    assert leaders[a] in leaders && leaders[b] in leaders;
    SameId(ps, leaders[a], leaders[b]);
    if a < b { LeadersInOrder(policy, ps, a, b); }
    if b < a { LeadersInOrder(policy, ps, b, a); }
  }

  lemma {:induction false} CountSame<T>(s: seq<T>, p: T -> bool, q: T -> bool)
    requires forall x :: x in s ==> p(x) == q(x)
    ensures Count(s, p) == Count(s, q)
  {
    if s != [] {
      CountSame(s[..|s| - 1], p, q);
      assert s[|s| - 1] in s;
    }
  }

  /** Counting what only winners can be, the others may be left out. */
  lemma {:induction false} CountWinners(policy: Policy, ps: seq<Performance>, p: Performance -> bool)
    requires forall x :: x in ps && p(x) ==> Winner(policy, x)
    ensures Count(Leaders(policy, ps), p) == Count(ps, p)
  {
    RankedIs(Winners(policy, ps));
    CountPermuted(Leaders(policy, ps), Winners(policy, ps), p);
    CountFiltered(policy, ps, p);
  }

  lemma {:induction false} CountFiltered(policy: Policy, ps: seq<Performance>, p: Performance -> bool)
    requires forall x :: x in ps && p(x) ==> Winner(policy, x)
    ensures Count(Winners(policy, ps), p) == Count(ps, p)
  {
    if ps != [] {
      var last := ps[|ps| - 1];
      assert ps == ps[..|ps| - 1] + [last] && last in ps;
      CountFiltered(policy, ps[..|ps| - 1], p);
      CountSnoc(Winners(policy, ps[..|ps| - 1]), last, p);
    }
  }

  lemma BeforeAreInFront(policy: Policy, terms: Terms, ps: seq<Performance>, k: nat)
    requires Distinct(ps) && k < |Leaders(policy, ps)|
    ensures var leaders := Leaders(policy, ps);
      Count(leaders[..k], InFront(policy, terms, ps, leaders[k])) == Count(leaders[..k], EligibleFor(terms))
  {
    var leaders := Leaders(policy, ps);
    var front := InFront(policy, terms, ps, leaders[k]);
    WinnersIs(policy, ps);
    RankedIs(Winners(policy, ps));
    forall x | x in leaders[..k] ensures front(x) == EligibleFor(terms)(x) {
      var a :| 0 <= a < k && leaders[..k][a] == x;
      LeadersInOrder(policy, ps, a, k);
      assert x in leaders;
    }
    CountSame(leaders[..k], front, EligibleFor(terms));
  }

  lemma AfterAreNot(policy: Policy, terms: Terms, ps: seq<Performance>, k: nat)
    requires Distinct(ps) && k < |Leaders(policy, ps)|
    ensures var leaders := Leaders(policy, ps);
      Count(leaders[k..], InFront(policy, terms, ps, leaders[k])) == 0
  {
    var leaders := Leaders(policy, ps);
    var front := InFront(policy, terms, ps, leaders[k]);
    forall x | x in leaders[k..] ensures !front(x) {
      var b :| 0 <= b < |leaders| - k && leaders[k..][b] == x;
      if b > 0 { LeadersInOrder(policy, ps, k, k + b); }
    }
    CountNone(leaders[k..], front);
  }

  /** In the ranked list, those in front are those that stand before. */
  lemma RankIsPosition(policy: Policy, terms: Terms, ps: seq<Performance>, k: nat)
    requires Distinct(ps) && k < |Leaders(policy, ps)|
    ensures Count(Leaders(policy, ps)[..k], EligibleFor(terms)) == Ahead(policy, terms, ps, Leaders(policy, ps)[k])
  {
    var leaders := Leaders(policy, ps);
    var front := InFront(policy, terms, ps, leaders[k]);
    CountWinners(policy, ps, front);
    assert leaders == leaders[..k] + leaders[k..];
    CountConcat(leaders[..k], leaders[k..], front);
    BeforeAreInFront(policy, terms, ps, k);
    AfterAreNot(policy, terms, ps, k);
  }

  lemma {:induction false} CountNone<T>(s: seq<T>, p: T -> bool)
    requires forall x :: x in s ==> !p(x)
    ensures Count(s, p) == 0
  {
    if s != [] {
      CountNone(s[..|s| - 1], p);
      assert s[|s| - 1] in s;
    }
  }

  // ---------------------------------------------------------------- who is funded

  function Funded(policy: Policy, terms: Terms, ps: seq<Performance>): Performance -> bool
    requires terms.increment >= 1
  {
    (p: Performance) => Winner(policy, p) && Eligible(terms, p)
      && Ahead(policy, terms, ps, p) < Slots(Headroom(policy, terms, ps), terms.increment)
  }

  /** The capital of the businesses whose own figures do not condemn them. */
  function Staying(policy: Policy, ps: seq<Performance>): nat {
    if ps == [] then 0
    else
      var p := ps[|ps| - 1];
      var sunset := p.scaleCount - p.killCount <= policy.sunsetFloor
                    && p.scaleCount + p.pivotCount + p.killCount >= policy.minConclusive;
      Staying(policy, ps[..|ps| - 1]) + (if sunset then 0 else p.capital)
  }

  lemma {:induction false} HeadroomIs(policy: Policy, terms: Terms, ps: seq<Performance>)
    ensures Headroom(policy, terms, ps) == terms.budget - Staying(policy, ps)
  {
    if ps != [] {
      HeadroomIs(policy, terms, ps[..|ps| - 1]);
    }
  }

  /** One more increment after n fits iff n is fewer than the slots. */
  lemma OneMoreFits(headroom: int, increment: int, n: nat)
    requires increment >= 1
    ensures n < Slots(headroom, increment) <==> (n + 1) * increment <= headroom
  {
    SlotsAreTheQuotient(headroom, increment);
    if (n + 1) * increment <= headroom { SlotsMost(headroom, increment, n + 1); }
    if n < Slots(headroom, increment) { TimesMonotone(n + 1, Slots(headroom, increment), increment); }
  }

  /** What a business's own figures call for, given whether an increment for it fits the budget. */
  function CalledFor(policy: Policy, terms: Terms, p: Performance, fits: bool): Recommendation {
    var score, runs := p.scaleCount - p.killCount, p.scaleCount + p.pivotCount + p.killCount;
    if score <= policy.sunsetFloor && runs >= policy.minConclusive then
      Recommendation(p.businessId, Sunset, 0 - p.capital, ConclusiveLoser(score, runs))
    else if score < policy.investThreshold then
      if score < 0 then Recommendation(p.businessId, Starve, 0, NetNegative(score))
      else Recommendation(p.businessId, Hold, 0, Inconclusive(score))
    else if p.businessId in terms.unprofitable then Recommendation(p.businessId, Hold, 0, Unprofitable(score))
    else if fits then Recommendation(p.businessId, InvestMore, terms.increment, ConclusiveWinner(score))
    else Recommendation(p.businessId, Hold, 0, BudgetExhausted(score))
  }

  /** After an increment for each profitable winner in front of it, one for this business still fits. */
  predicate Fits(policy: Policy, terms: Terms, ps: seq<Performance>, p: Performance) {
    (Ahead(policy, terms, ps, p) + 1) * terms.increment <= terms.budget - Staying(policy, ps)
  }

  lemma FitsIff(policy: Policy, terms: Terms, ps: seq<Performance>, p: Performance)
    requires terms.increment >= 1
    ensures Fits(policy, terms, ps, p) <==>
      Ahead(policy, terms, ps, p) < Slots(Headroom(policy, terms, ps), terms.increment)
  {
    HeadroomIs(policy, terms, ps);
    OneMoreFits(Headroom(policy, terms, ps), terms.increment, Ahead(policy, terms, ps, p));
  }

  lemma LoserCalledFor(policy: Policy, terms: Terms, p: Performance, fits: bool)
    requires !Winner(policy, p)
    ensures Verdict(policy, p) == CalledFor(policy, terms, p, fits)
    ensures CalledFor(policy, terms, p, fits).action != InvestMore
  {}

  lemma WinnerCalledFor(policy: Policy, terms: Terms, p: Performance, fits: bool)
    requires Winner(policy, p)
    ensures CalledFor(policy, terms, p, fits)
      == if !Eligible(terms, p) then Recommendation(p.businessId, Hold, 0, Unprofitable(p.Score()))
         else if fits then Recommendation(p.businessId, InvestMore, terms.increment, ConclusiveWinner(p.Score()))
         else Recommendation(p.businessId, Hold, 0, BudgetExhausted(p.Score()))
  {}

  lemma WinnerRecommendation(policy: Policy, terms: Terms, ps: seq<Performance>, i: nat)
    requires Distinct(ps) && i < |ps| && terms.increment >= 1 && Winner(policy, ps[i])
    ensures Decision(policy, terms, ps, i) == CalledFor(policy, terms, ps[i], Fits(policy, terms, ps, ps[i]))
  {
    var k := WinnerDecision(policy, terms, ps, i);
    FitsIff(policy, terms, ps, ps[i]);
    FundedByRank(terms, Leaders(policy, ps), Headroom(policy, terms, ps), k);
    RankIsPosition(policy, terms, ps, k);
    WinnerCalledFor(policy, terms, ps[i], Fits(policy, terms, ps, ps[i]));
  }

  /**
   * The whole outcome of a business, from its own figures and its rank: sunset, starved or held when
   * it is no winner; a winner is funded iff it is profitable and, after one increment for each
   * profitable winner that precedes it in stable score order, one more fits what the budget leaves
   * above the capital that stays.
   */
  lemma AllocationExactly(policy: Policy, terms: Terms, ps: seq<Performance>, i: nat)
    requires Distinct(ps) && i < |ps| && terms.increment >= 1
    ensures Allocation(policy, terms, ps)[i] == CalledFor(policy, terms, ps[i], Fits(policy, terms, ps, ps[i]))
    ensures Funded(policy, terms, ps)(ps[i]) <==> Allocation(policy, terms, ps)[i].action == InvestMore
  {
    var fits := Fits(policy, terms, ps, ps[i]);
    FitsIff(policy, terms, ps, ps[i]);
    if Winner(policy, ps[i]) {
      WinnerRecommendation(policy, terms, ps, i);
      WinnerCalledFor(policy, terms, ps[i], fits);
    } else {
      LoserDecision(policy, terms, ps, i);
      LoserCalledFor(policy, terms, ps[i], fits);
    }
  }

  lemma {:induction false} FundedAmong(policy: Policy, terms: Terms, ps: seq<Performance>, k: nat)
    requires Distinct(ps) && terms.increment >= 1 && k <= |Leaders(policy, ps)|
    ensures var before := Leaders(policy, ps)[..k];
      Count(before, Funded(policy, terms, ps))
      == Least(Count(before, EligibleFor(terms)), Slots(Headroom(policy, terms, ps), terms.increment))
  {
    if k > 0 {
      var leaders := Leaders(policy, ps);
      FundedAmong(policy, terms, ps, k - 1);
      RankIsPosition(policy, terms, ps, k - 1);
      WinnersIs(policy, ps);
      RankedIs(Winners(policy, ps));
      assert leaders[k - 1] in leaders;
      assert leaders[..k][..k - 1] == leaders[..k - 1];
    }
  }

  /** Exactly min(n, headroom div increment) of the n profitable winners are funded. */
  lemma FundedCount(policy: Policy, terms: Terms, ps: seq<Performance>)
    requires Distinct(ps) && terms.increment >= 1
    ensures Count(ps, Funded(policy, terms, ps))
      == Least(Count(ps, CanBeFunded(policy, terms)), Slots(Headroom(policy, terms, ps), terms.increment))
  {
    var leaders := Leaders(policy, ps);
    assert leaders[..|leaders|] == leaders;
    FundedAmong(policy, terms, ps, |leaders|);
    CountWinners(policy, ps, Funded(policy, terms, ps));
    CountWinners(policy, ps, CanBeFunded(policy, terms));
    WinnersIs(policy, ps);
    RankedIs(Winners(policy, ps));
    CountSame(leaders, CanBeFunded(policy, terms), EligibleFor(terms));
  }

  // ---------------------------------------------------------------- feasibility

  function Deltas(r: seq<Recommendation>): int {
    if r == [] then 0 else Deltas(r[..|r| - 1]) + r[|r| - 1].capitalDelta
  }

  /** Adding up moves that are an increment, a reclaimed capital or nothing. */
  lemma {:induction false} DeltasAdd(policy: Policy, ps: seq<Performance>, r: seq<Recommendation>,
                                     f: Performance -> bool, increment: int)
    requires |r| == |ps|
    requires forall i :: 0 <= i < |ps| ==>
      r[i].capitalDelta == (if f(ps[i]) then increment else if Loser(policy, ps[i]) then 0 - ps[i].capital else 0)
    requires forall i :: 0 <= i < |ps| && f(ps[i]) ==> !Loser(policy, ps[i])
    ensures Deltas(r) == Count(ps, f) * increment - Reclaimed(policy, ps)
  {
    if ps != [] {
      var n := |ps| - 1;
      DeltasAdd(policy, ps[..n], r[..n], f, increment);
      OneMore(Count(ps[..n], f), increment);
    }
  }

  lemma OneMore(n: int, increment: int)
    ensures (n + 1) * increment == n * increment + increment
  {}

  /**
   * Capital is conserved and the cap is kept: the recommended moves are the increments of the
   * funded less the capital of the sunset, and after them the fleet deploys no more than the
   * budget, or than what already stays deployed.
   */
  lemma WithinBudget(policy: Policy, terms: Terms, ps: seq<Performance>)
    requires Distinct(ps) && terms.increment >= 1
    ensures var invested := Count(ps, Funded(policy, terms, ps)) * terms.increment;
      var staying := Staying(policy, ps);
      && Deltas(Allocation(policy, terms, ps)) == invested - Reclaimed(policy, ps)
      && invested <= (if terms.budget < staying then 0 else terms.budget - staying)
      && Deployed(ps) + Deltas(Allocation(policy, terms, ps))
         <= (if terms.budget < staying then staying else terms.budget)
  {
    var r, f := Allocation(policy, terms, ps), Funded(policy, terms, ps);
    forall i | 0 <= i < |ps|
      ensures f(ps[i]) ==> !Loser(policy, ps[i])
      ensures r[i].capitalDelta
        == (if f(ps[i]) then terms.increment else if Loser(policy, ps[i]) then 0 - ps[i].capital else 0)
    {
      AllocationExactly(policy, terms, ps, i);
    }
    DeltasAdd(policy, ps, r, f, terms.increment);
    FundedCount(policy, terms, ps);
    var h := Headroom(policy, terms, ps);
    HeadroomIs(policy, terms, ps);
    SlotsAreTheQuotient(h, terms.increment);
    TimesMonotone(Count(ps, Funded(policy, terms, ps)), Slots(h, terms.increment), terms.increment);
  }

  lemma TimesMonotone(a: int, b: int, c: int)
    requires a <= b && c >= 0
    ensures a * c <= b * c
  {}

  // ---------------------------------------------------------------- optimality

  function ScoreTotal(ps: seq<Performance>, pick: Performance -> bool): int {
    if ps == [] then 0
    else
      var p := ps[|ps| - 1];
      ScoreTotal(ps[..|ps| - 1], pick) + (if pick(p) then p.Score() else 0)
  }

  /** If every swap goes from above c to below it, the totals differ by c per member at least. */
  lemma {:induction false} Exchange(ps: seq<Performance>, best: Performance -> bool, pick: Performance -> bool, c: int)
    requires forall p :: p in ps && best(p) && !pick(p) ==> p.Score() >= c
    requires forall p :: p in ps && pick(p) && !best(p) ==> p.Score() <= c
    ensures ScoreTotal(ps, best) - ScoreTotal(ps, pick) >= c * (Count(ps, best) - Count(ps, pick))
  {
    if ps != [] {
      var n := |ps| - 1;
      assert ps == ps[..n] + [ps[n]] && ps[n] in ps;
      Exchange(ps[..n], best, pick, c);
      var d := Count(ps[..n], best) - Count(ps[..n], pick);
      assert c * (d + 1) == c * d + c && c * (d - 1) == c * d - c;
    }
  }

  /** Higher ranks come first, so whoever precedes a funded business is no further back. */
  lemma AheadMonotone(policy: Policy, terms: Terms, ps: seq<Performance>, q: Performance, p: Performance)
    requires q.Score() > p.Score()
    ensures Ahead(policy, terms, ps, q) <= Ahead(policy, terms, ps, p)
  {
    CountImplies(ps, InFront(policy, terms, ps, q), InFront(policy, terms, ps, p));
  }

  lemma {:induction false} CountImplies<T>(s: seq<T>, p: T -> bool, q: T -> bool)
    requires forall x :: x in s && p(x) ==> q(x)
    ensures Count(s, p) <= Count(s, q)
  {
    if s != [] {
      CountImplies(s[..|s| - 1], p, q);
      assert s[|s| - 1] in s;
    }
  }

  /** The best score among those that qualify but are not funded. */
  lemma {:induction false} BestLeftOut(ps: seq<Performance>, can: Performance -> bool, best: Performance -> bool)
    returns (c: int, q: Performance)
    requires exists p :: p in ps && can(p) && !best(p)
    ensures q in ps && can(q) && !best(q) && c == q.Score()
    ensures forall p :: p in ps && can(p) && !best(p) ==> p.Score() <= c
  {
    var n := |ps| - 1;
    assert ps == ps[..n] + [ps[n]];
    if exists p :: p in ps[..n] && can(p) && !best(p) {
      c, q := BestLeftOut(ps[..n], can, best);
      if can(ps[n]) && !best(ps[n]) && ps[n].Score() > c {
        c, q := ps[n].Score(), ps[n];
      }
    } else {
      c, q := ps[n].Score(), ps[n];
    }
  }

  /**
   * No other choice of profitable winners that fits the same headroom has a larger total score,
   * provided no funded score is negative, which a winning threshold of zero or more ensures.
   */
  lemma FundedIsOptimal(policy: Policy, terms: Terms, ps: seq<Performance>, pick: Performance -> bool)
    requires Distinct(ps) && terms.increment >= 1
    requires policy.investThreshold >= 0 || forall p :: p in ps && Funded(policy, terms, ps)(p) ==> p.Score() >= 0
    requires forall p :: p in ps && pick(p) ==> Winner(policy, p) && Eligible(terms, p)
    requires Count(ps, pick) == 0 || Count(ps, pick) * terms.increment <= Headroom(policy, terms, ps)
    ensures ScoreTotal(ps, pick) <= ScoreTotal(ps, Funded(policy, terms, ps))
  {
    var can, best := CanBeFunded(policy, terms), Funded(policy, terms, ps);
    if exists p :: p in ps && can(p) && !best(p) {
      var c, q := BestLeftOut(ps, can, best);
      forall p | p in ps && best(p) ensures p.Score() >= c {
        if p.Score() < c { AheadMonotone(policy, terms, ps, q, p); }
      }
      NoneLeftOver(policy, terms, ps, pick, q);
      Outscored(ps, best, pick, if c < 0 then 0 else c);
    } else {
      CountImplies(ps, pick, best);
      Outscored(ps, best, pick, 0);
    }
  }

  /** If someone qualified is left out, all slots are taken, so no choice that fits has more members. */
  lemma NoneLeftOver(policy: Policy, terms: Terms, ps: seq<Performance>, pick: Performance -> bool, q: Performance)
    requires Distinct(ps) && terms.increment >= 1
    requires Count(ps, pick) == 0 || Count(ps, pick) * terms.increment <= Headroom(policy, terms, ps)
    requires q in ps && CanBeFunded(policy, terms)(q) && !Funded(policy, terms, ps)(q)
    ensures Count(ps, pick) <= Count(ps, Funded(policy, terms, ps))
  {
    SlotsMost(Headroom(policy, terms, ps), terms.increment, Count(ps, pick));
    FundedCount(policy, terms, ps);
    CountFewer(ps, Funded(policy, terms, ps), CanBeFunded(policy, terms), q);
  }

  /** With as many members and every swap across c, the total is no smaller. */
  lemma Outscored(ps: seq<Performance>, best: Performance -> bool, pick: Performance -> bool, c: nat)
    requires forall p :: p in ps && best(p) && !pick(p) ==> p.Score() >= c
    requires forall p :: p in ps && pick(p) && !best(p) ==> p.Score() <= c
    requires Count(ps, pick) <= Count(ps, best)
    ensures ScoreTotal(ps, pick) <= ScoreTotal(ps, best)
  {
    Exchange(ps, best, pick, c);
    ProductNotNegative(c, Count(ps, best) - Count(ps, pick));
  }

  /** That proviso is exact: dropping a funded business with a negative score fits and totals more. */
  lemma NegativeScoreNotOptimal(policy: Policy, terms: Terms, ps: seq<Performance>, p: Performance)
    returns (pick: Performance -> bool)
    requires Distinct(ps) && terms.increment >= 1
    requires p in ps && Funded(policy, terms, ps)(p) && p.Score() < 0
    ensures forall q :: q in ps && pick(q) ==> Winner(policy, q) && Eligible(terms, q)
    ensures Count(ps, pick) == 0 || Count(ps, pick) * terms.increment <= Headroom(policy, terms, ps)
    ensures ScoreTotal(ps, pick) > ScoreTotal(ps, Funded(policy, terms, ps))
  {
    var best := Funded(policy, terms, ps);
    pick := (q: Performance) => best(q) && q != p;
    DroppedTotal(ps, best, pick, p);
    CountFewer(ps, pick, best, p);
    FundedCount(policy, terms, ps);
    var h := Headroom(policy, terms, ps);
    SlotsAreTheQuotient(h, terms.increment);
    TimesMonotone(Count(ps, pick), Slots(h, terms.increment), terms.increment);
  }

  lemma {:induction false} DroppedTotal(ps: seq<Performance>, best: Performance -> bool, pick: Performance -> bool,
                                        p: Performance)
    requires p.Score() < 0 && best(p) && forall q :: q in ps ==> pick(q) == (best(q) && q != p)
    ensures ScoreTotal(ps, pick) >= ScoreTotal(ps, best)
    ensures p in ps ==> ScoreTotal(ps, pick) > ScoreTotal(ps, best)
  {
    if ps != [] {
      var n := |ps| - 1;
      assert ps == ps[..n] + [ps[n]] && ps[n] in ps;
      DroppedTotal(ps[..n], best, pick, p);
    }
  }

  lemma ProductNotNegative(a: int, b: int)
    requires a >= 0 && b >= 0
    ensures a * b >= 0
  {}

  lemma {:induction false} CountFewer<T>(s: seq<T>, p: T -> bool, q: T -> bool, x: T)
    requires forall y :: y in s && p(y) ==> q(y)
    requires x in s && q(x) && !p(x)
    ensures Count(s, p) < Count(s, q)
  {
    var n := |s| - 1;
    assert s == s[..n] + [s[n]] && s[n] in s;
    if s[n] == x {
      CountImplies(s[..n], p, q);
    } else {
      CountFewer(s[..n], p, q, x);
    }
  }

  // ---------------------------------------------------------------- one more money-loser

  function Shunned(terms: Terms, id: string): Terms {
    terms.(unprofitable := terms.unprofitable + {id})
  }

  /** Striking one business out of a count takes one off iff that business is counted. */
  lemma {:induction false} CountWithout(ps: seq<Performance>, p: Performance -> bool, q: Performance -> bool,
                                        id: string)
    requires Distinct(ps)
    requires forall x :: x in ps ==> q(x) == (p(x) && x.businessId != id)
    ensures Count(ps, p) == Count(ps, q) + (if exists x :: x in ps && x.businessId == id && p(x) then 1 else 0)
  {
    if ps != [] {
      var n := |ps| - 1;
      assert ps == ps[..n] + [ps[n]] && ps[n] in ps;
      CountWithout(ps[..n], p, q, id);
    }
  }

  /**
   * Marking one more business unprofitable takes funding from no other business, and the only one
   * that can gain it is the next in line: the profitable winner whom exactly the funded preceded,
   * and only if the marked business was one of them.
   */
  lemma OneMoreMoneyLoser(policy: Policy, terms: Terms, ps: seq<Performance>, id: string, p: Performance)
    requires Distinct(ps) && terms.increment >= 1 && p in ps && p.businessId != id
    ensures var was, now := Funded(policy, terms, ps)(p), Funded(policy, Shunned(terms, id), ps)(p);
      && (was ==> now)
      && (now && !was <==>
            && Winner(policy, p) && Eligible(terms, p)
            && Ahead(policy, terms, ps, p) == Slots(Headroom(policy, terms, ps), terms.increment)
            && exists x :: x in ps && x.businessId == id && InFront(policy, terms, ps, p)(x))
  {
    CountWithout(ps, InFront(policy, terms, ps, p), InFront(policy, Shunned(terms, id), ps, p), id);
  }

  /** Headroom never changes hands twice: two businesses cannot both be next in line. */
  lemma NextInLineIsUnique(policy: Policy, terms: Terms, ps: seq<Performance>, p: Performance, q: Performance)
    requires Distinct(ps) && p in ps && q in ps
    requires CanBeFunded(policy, terms)(p) && CanBeFunded(policy, terms)(q)
    requires Ahead(policy, terms, ps, p) == Ahead(policy, terms, ps, q)
    ensures p == q
  {
    if p != q {
      var i :| 0 <= i < |ps| && ps[i] == p;
      var j :| 0 <= j < |ps| && ps[j] == q;
      PlaceIs(ps, i);
      PlaceIs(ps, j);
      if Precedes(ps, p, q) {
        CountFewer(ps, InFront(policy, terms, ps, p), InFront(policy, terms, ps, q), p);
      } else {
        CountFewer(ps, InFront(policy, terms, ps, q), InFront(policy, terms, ps, p), q);
      }
    }
  }

  // ---------------------------------------------------------------- shared ids

  /** Position k holds the last of the list with this id. */
  predicate LastWith(ps: seq<Performance>, id: string, k: nat) {
    && k < |ps| && ps[k].businessId == id
    && forall m :: k < m < |ps| ==> ps[m].businessId != id
  }

  /** Some winner has this id. */
  ghost predicate WonBy(policy: Policy, ps: seq<Performance>, id: string) {
    exists p :: p in ps && Winner(policy, p) && p.businessId == id
  }

  lemma {:induction false} FindLast(ps: seq<Performance>, id: string, i: nat) returns (k: nat)
    requires i < |ps| && ps[i].businessId == id
    ensures LastWith(ps, id, k)
  {
    var n := |ps| - 1;
    if ps[n].businessId == id {
      k := n;
    } else {
      k := FindLast(ps[..n], id, i);
    }
  }

  /** The last write under an id is the one that stays. */
  lemma {:induction false} LatestLast(log: seq<Recommendation>, k: nat)
    requires k < |log| && forall m :: k < m < |log| ==> log[m].businessId != log[k].businessId
    ensures log[k].businessId in Latest(log) && Latest(log)[log[k].businessId] == log[k]
  {
    if k < |log| - 1 {
      LatestLast(log[..|log| - 1], k);
    }
  }

  /** Writes under other ids do not touch an entry. */
  lemma {:induction false} LatestSkips(log: seq<Recommendation>, more: seq<Recommendation>, id: string)
    requires id in Latest(log) && forall m :: 0 <= m < |more| ==> more[m].businessId != id
    ensures id in Latest(log + more) && Latest(log + more)[id] == Latest(log)[id]
  {
    if more == [] {
      assert log + more == log;
    } else {
      var n := |more| - 1;
      LatestSkips(log, more[..n], id);
      LatestSnoc(log + more[..n], more[n]);
      assert log + more == log + more[..n] + [more[n]];
    }
  }

  /** Among the early verdicts the last non-winner with an id has the last word. */
  lemma {:induction false} SettledLast(policy: Policy, ps: seq<Performance>, id: string, k: nat)
    requires LastWith(ps, id, k) && !Winner(policy, ps[k])
    ensures id in Latest(Settled(policy, ps)) && Latest(Settled(policy, ps))[id] == Verdict(policy, ps[k])
  {
    var n := |ps| - 1;
    if !Winner(policy, ps[n]) {
      LatestSnoc(Settled(policy, ps[..n]), Verdict(policy, ps[n]));
    }
    if k < n {
      SettledLast(policy, ps[..n], id, k);
    }
  }

  /** The leader with an id that is ranked last has the last word of all. */
  lemma LeaderHasLastWord(policy: Policy, terms: Terms, ps: seq<Performance>, k: nat)
    requires k < |Leaders(policy, ps)| && LastWith(Leaders(policy, ps), Leaders(policy, ps)[k].businessId, k)
    ensures var id := Leaders(policy, ps)[k].businessId;
      var fund := Fund(terms, Leaders(policy, ps), Headroom(policy, terms, ps));
      id in Latest(Writes(policy, terms, ps)) && Latest(Writes(policy, terms, ps))[id] == fund[k]
  {
    LatestLast(Writes(policy, terms, ps), |Settled(policy, ps)| + k);
  }

  lemma LeadersWithId(policy: Policy, ps: seq<Performance>, id: string)
    ensures WonBy(policy, ps, id) <==>
        exists k :: 0 <= k < |Leaders(policy, ps)| && Leaders(policy, ps)[k].businessId == id
  {
    var leaders := Leaders(policy, ps);
    WinnersIs(policy, ps);
    RankedIs(Winners(policy, ps));
    forall k | 0 <= k < |leaders| ensures leaders[k] in ps && Winner(policy, leaders[k]) {
      assert leaders[k] in leaders;
    }
    if WonBy(policy, ps, id) {
      var p :| p in ps && Winner(policy, p) && p.businessId == id;
      assert p in leaders;
    }
  }

  /**
   * Whatever the ids, whose decision a position gets: that of the winner ranked last among those with
   * its id if there is one, else that of the last business in the list with its id.
   */
  lemma WhoseDecision(policy: Policy, terms: Terms, ps: seq<Performance>, i: nat) returns (k: nat)
    requires i < |ps|
    ensures var id, leaders := ps[i].businessId, Leaders(policy, ps);
      if WonBy(policy, ps, id) then
        && LastWith(leaders, id, k)
        && Decision(policy, terms, ps, i) == Fund(terms, leaders, Headroom(policy, terms, ps))[k]
      else
        && LastWith(ps, id, k) && !Winner(policy, ps[k])
        && Decision(policy, terms, ps, i) == Verdict(policy, ps[k])
  {
    var id, leaders := ps[i].businessId, Leaders(policy, ps);
    var settled, fund := Settled(policy, ps), Fund(terms, leaders, Headroom(policy, terms, ps));
    LeadersWithId(policy, ps, id);
    if WonBy(policy, ps, id) {
      var j :| 0 <= j < |leaders| && leaders[j].businessId == id;
      k := FindLast(leaders, id, j);
      LeaderHasLastWord(policy, terms, ps, k);
    } else {
      k := FindLast(ps, id, i);
      assert ps[k] in ps;
      SettledLast(policy, ps, id, k);
      LatestSkips(settled, fund, id);
    }
  }

  /**
   * A business that is no winner keeps its own verdict iff no winner has its id and the last with its id
   * gets the same.
   */
  lemma LoserKeepsOwnIff(policy: Policy, terms: Terms, ps: seq<Performance>, i: nat) returns (k: nat)
    requires i < |ps| && !Winner(policy, ps[i])
    ensures LastWith(ps, ps[i].businessId, k)
    ensures Decision(policy, terms, ps, i) == Verdict(policy, ps[i]) <==>
      && !WonBy(policy, ps, ps[i].businessId)
      && !Winner(policy, ps[k]) && Verdict(policy, ps[k]) == Verdict(policy, ps[i])
  {
    var j := WhoseDecision(policy, terms, ps, i);
    k := FindLast(ps, ps[i].businessId, i);
    if WonBy(policy, ps, ps[i].businessId) {
      FundAt(terms, Leaders(policy, ps), Headroom(policy, terms, ps), j);
    } else {
      assert j == k;
    }
  }

  /**
   * A ranked winner's own decision stands for its id iff the winner ranked last with that id has the
   * same score and is funded alike.
   */
  lemma WinnerKeepsOwnIff(policy: Policy, terms: Terms, ps: seq<Performance>, i: nat, j: nat) returns (k: nat)
    requires i < |ps| && j < |Leaders(policy, ps)| && Leaders(policy, ps)[j].businessId == ps[i].businessId
    ensures LastWith(Leaders(policy, ps), ps[i].businessId, k)
    ensures var leaders := Leaders(policy, ps);
      var fund := Fund(terms, leaders, Headroom(policy, terms, ps));
      Decision(policy, terms, ps, i) == fund[j] <==>
        leaders[k].Score() == leaders[j].Score() && fund[k].action == fund[j].action
  {
    var leaders, headroom := Leaders(policy, ps), Headroom(policy, terms, ps);
    LeadersWithId(policy, ps, ps[i].businessId);
    k := WhoseDecision(policy, terms, ps, i);
    FundAt(terms, leaders, headroom, j);
    FundAt(terms, leaders, headroom, k);
  }
}
