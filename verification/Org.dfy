/**
 * Authority routing (src/ab_org/core.py): a decision walks up the reporting chain to the first
 * agent with enough authority, else to a human; and the publish gate on top of it
 * (src/ab_social/governance.py).
 */
module Org {
  import opened Common

  type Agent = string

  datatype Charter = Charter(authorityLevel: int, reportsTo: Option<Agent>)

  /** Any reporting graph: cycles and unknown managers included. */
  type Charters = map<Agent, Charter>

  datatype Routing = Routing(decider: Option<Agent>, path: seq<Agent>, escalatedToHuman: bool)

  // ---------------------------------------------------------------- the reporting chain

  /** From `current` upwards, stopping at the top, at an unknown agent or at one already seen. */
  function ChainFrom(org: Charters, current: Option<Agent>, seen: set<Agent>): seq<Agent>
    decreases |org.Keys - seen|
  {
    if current == None || current.value in seen || current.value !in org then []
    else
      var a := current.value;
      Shrinks(org.Keys, seen, a);
      [a] + ChainFrom(org, org[a].reportsTo, seen + {a})
  }

  lemma Shrinks(keys: set<Agent>, seen: set<Agent>, a: Agent)
    requires a in keys && a !in seen
    ensures |keys - (seen + {a})| < |keys - seen|
  {
    assert keys - (seen + {a}) == (keys - seen) - {a};
  }

  function Chain(org: Charters, initiator: Agent): seq<Agent> {
    ChainFrom(org, Some(initiator), {})
  }

  /** Where the walk stops after the chain: nobody above, nobody known, or somebody already on it. */
  ghost predicate StopsAt(org: Charters, next: Option<Agent>, seen: set<Agent>, chain: seq<Agent>) {
    next == None || next.value !in org || next.value in seen || next.value in chain
  }

  /** Agent k of the chain reports to the next one. */
  ghost predicate Reports(org: Charters, chain: seq<Agent>, k: nat)
    requires k < |chain| - 1
  {
    chain[k] in org && org[chain[k]].reportsTo == Some(chain[k + 1])
  }

  /** The step of the walk: `a` in front of the chain from its manager. */
  lemma ChainStep(org: Charters, a: Agent, seen: set<Agent>)
    requires a in org && a !in seen
    ensures ChainFrom(org, Some(a), seen) == [a] + ChainFrom(org, org[a].reportsTo, seen + {a})
  {}

  lemma {:induction false} ChainMembers(org: Charters, current: Option<Agent>, seen: set<Agent>)
    ensures var chain := ChainFrom(org, current, seen);
      && (forall a :: a in chain ==> a in org && a !in seen)
      && (forall i, j :: 0 <= i < j < |chain| ==> chain[i] != chain[j])
    decreases |org.Keys - seen|
  {
    if current != None && current.value !in seen && current.value in org {
      var a := current.value;
      Shrinks(org.Keys, seen, a);
      ChainStep(org, a, seen);
      ChainMembers(org, org[a].reportsTo, seen + {a});
    }
  }

  lemma {:induction false} ChainLinks(org: Charters, current: Option<Agent>, seen: set<Agent>)
    ensures var chain := ChainFrom(org, current, seen);
      && (chain != [] ==> current == Some(chain[0]))
      && (forall k: nat {:trigger Reports(org, chain, k)} :: k < |chain| - 1 ==> Reports(org, chain, k))
    decreases |org.Keys - seen|
  {
    if current != None && current.value !in seen && current.value in org {
      var a := current.value;
      Shrinks(org.Keys, seen, a);
      ChainStep(org, a, seen);
      ChainLinks(org, org[a].reportsTo, seen + {a});
      var chain, rest := ChainFrom(org, current, seen), ChainFrom(org, org[a].reportsTo, seen + {a});
      forall k: nat | k < |chain| - 1 ensures Reports(org, chain, k) {
        if k > 0 { assert Reports(org, rest, k - 1); }
      }
    }
  }

  lemma {:induction false} ChainStops(org: Charters, current: Option<Agent>, seen: set<Agent>)
    ensures var chain := ChainFrom(org, current, seen);
      && (chain != [] ==> chain[|chain| - 1] in org)
      && StopsAt(org, if chain == [] then current else org[chain[|chain| - 1]].reportsTo, seen, chain)
    decreases |org.Keys - seen|
  {
    if current != None && current.value !in seen && current.value in org {
      var a := current.value;
      Shrinks(org.Keys, seen, a);
      ChainStep(org, a, seen);
      ChainStops(org, org[a].reportsTo, seen + {a});
    }
  }

  /** The chain is the duplicate-free walk along `reports_to`, as far as it goes. */
  lemma ChainIsReportingLine(org: Charters, initiator: Agent)
    ensures var chain := Chain(org, initiator);
      && (chain != [] <==> initiator in org)
      && (chain != [] ==> chain[0] == initiator)
      && (forall a :: a in chain ==> a in org)
      && (forall i, j :: 0 <= i < j < |chain| ==> chain[i] != chain[j])
      && (forall k: nat {:trigger Reports(org, chain, k)} :: k < |chain| - 1 ==> Reports(org, chain, k))
      && (chain != [] ==> chain[|chain| - 1] in org
                          && StopsAt(org, org[chain[|chain| - 1]].reportsTo, {}, chain))
  {
    ChainMembers(org, Some(initiator), {});
    ChainLinks(org, Some(initiator), {});
    ChainStops(org, Some(initiator), {});
  }

  // ---------------------------------------------------------------- routing

  predicate Holds(org: Charters, a: Agent, level: int) {
    a in org && org[a].authorityLevel >= level
  }

  /** The chain up to its first agent with the authority. */
  function UpTo(org: Charters, chain: seq<Agent>, level: int): seq<Agent> {
    if chain == [] then []
    else if Holds(org, chain[0], level) then [chain[0]]
    else [chain[0]] + UpTo(org, chain[1..], level)
  }

  function Routed(org: Charters, initiator: Agent, level: int): Routing {
    var path := UpTo(org, Chain(org, initiator), level);
    if path != [] && Holds(org, path[|path| - 1], level) then Routing(Some(path[|path| - 1]), path, false)
    else Routing(None, path, true)
  }

  method Route(org: Charters, initiator: Agent, level: int) returns (r: Routing)
    ensures r == Routed(org, initiator, level)
  {
    var path: seq<Agent> := [];
    var seen: set<Agent> := {};
    var current := Some(initiator);
    ghost var chain := Chain(org, initiator);
    assert path + chain == chain;
    while current != None && current.value !in seen
      invariant path + ChainFrom(org, current, seen) == chain
      invariant forall k :: 0 <= k < |path| ==> !Holds(org, path[k], level)
      decreases |org.Keys - seen|
    {
      var a := current.value;
      if a !in org {
        seen := seen + {a};
        break;
      }
      Shrinks(org.Keys, seen, a);
      assert path + ChainFrom(org, current, seen) == path + [a] + ChainFrom(org, org[a].reportsTo, seen + {a});
      ghost var rest := ChainFrom(org, org[a].reportsTo, seen + {a});
      seen := seen + {a};
      path := path + [a];
      if org[a].authorityLevel >= level {
        StopsHere(org, path, rest, level);
        return Routing(Some(a), path, false);
      }
      current := org[a].reportsTo;
    }
    assert path == chain;
    NobodyHolds(org, path, level);
    return Routing(None, path, true);
  }

  lemma {:induction false} StopsHere(org: Charters, path: seq<Agent>, rest: seq<Agent>, level: int)
    requires path != [] && Holds(org, path[|path| - 1], level)
    requires forall k :: 0 <= k < |path| - 1 ==> !Holds(org, path[k], level)
    ensures UpTo(org, path + rest, level) == path
  {
    assert (path + rest)[1..] == path[1..] + rest;
    if |path| > 1 {
      StopsHere(org, path[1..], rest, level);
    }
  }

  lemma {:induction false} NobodyHolds(org: Charters, path: seq<Agent>, level: int)
    requires forall k :: 0 <= k < |path| ==> !Holds(org, path[k], level)
    ensures UpTo(org, path, level) == path
  {
    if path != [] {
      NobodyHolds(org, path[1..], level);
    }
  }

  lemma {:induction false} UpToIs(org: Charters, chain: seq<Agent>, level: int)
    ensures var path := UpTo(org, chain, level);
      && path <= chain
      && (forall k :: 0 <= k < |path| - 1 ==> !Holds(org, path[k], level))
      && (path != [] && !Holds(org, path[|path| - 1], level) ==> path == chain)
      && (path == [] ==> chain == [])
  {
    if chain != [] && !Holds(org, chain[0], level) {
      UpToIs(org, chain[1..], level);
      assert chain == [chain[0]] + chain[1..];
    }
  }

  /**
   * The decider is the first agent of the reporting chain whose authority covers the level; a human
   * is asked iff no agent of the chain holds it, and then the whole chain was asked.
   */
  lemma RouteFindsFirst(org: Charters, initiator: Agent, level: int)
    ensures var r, chain := Routed(org, initiator, level), Chain(org, initiator);
      && r.path <= chain
      && (r.escalatedToHuman <==> r.decider == None)
      && (r.escalatedToHuman <==> forall k :: 0 <= k < |chain| ==> !Holds(org, chain[k], level))
      && (r.escalatedToHuman ==> r.path == chain)
      && (!r.escalatedToHuman ==>
          r.path != [] && r.decider == Some(r.path[|r.path| - 1]) && Holds(org, r.decider.value, level))
      && (forall k :: 0 <= k < |r.path| - 1 ==> !Holds(org, r.path[k], level))
  {
    var r, chain := Routed(org, initiator, level), Chain(org, initiator);
    UpToIs(org, chain, level);
    if !r.escalatedToHuman {
      assert chain[|r.path| - 1] == r.path[|r.path| - 1];
    } else {
      forall k | 0 <= k < |chain| ensures !Holds(org, chain[k], level) {
        assert r.path == chain;
      }
    }
  }

  lemma {:induction false} UpToMonotone(org: Charters, chain: seq<Agent>, low: int, high: int)
    requires low <= high
    ensures UpTo(org, chain, low) <= UpTo(org, chain, high)
  {
    if chain != [] {
      UpToMonotone(org, chain[1..], low, high);
    }
  }

  /** Asking for less authority stops no later, on the same way up; what one level escalates, a higher one does too. */
  lemma RouteMonotone(org: Charters, initiator: Agent, low: int, high: int)
    requires low <= high
    ensures Routed(org, initiator, low).path <= Routed(org, initiator, high).path
    ensures Routed(org, initiator, low).escalatedToHuman ==> Routed(org, initiator, high).escalatedToHuman
  {
    UpToMonotone(org, Chain(org, initiator), low, high);
    RouteFindsFirst(org, initiator, low);
    RouteFindsFirst(org, initiator, high);
    var chain := Chain(org, initiator);
    if Routed(org, initiator, low).escalatedToHuman {
      forall k | 0 <= k < |chain| ensures !Holds(org, chain[k], high) {
        assert !Holds(org, chain[k], low);
      }
    }
  }

  // ---------------------------------------------------------------- the publish gate

  datatype ReviewMode = Always | Never | FirstN

  datatype Review = Review(mode: ReviewMode, firstN: int)

  datatype Reason = ReviewModeAsks(mode: ReviewMode) | NoAgentHolds(level: int)

  /** Autonomous iff there is no reason for a human. */
  datatype Authorization = Authorization(requiresHuman: bool, reasons: seq<Reason>)

  predicate ReviewRequiresHuman(review: Review, published: int) {
    match review.mode
    case Always => true
    case Never => false
    case FirstN => published < review.firstN
  }

  /** Some agent on the reporting chain has at least the level. */
  ghost predicate ChainReaches(org: Charters, initiator: Agent, level: int) {
    exists k :: 0 <= k < |Chain(org, initiator)|
      && Chain(org, initiator)[k] in org && org[Chain(org, initiator)[k]].authorityLevel >= level
  }

  /**
   * Always asks for a human; never leaves it to the chain; first-n asks while fewer posts than that
   * were published and then leaves it to the chain. The chain lets a post through iff somebody on it
   * has the level.
   */
  method AuthorizePublish(review: Review, published: int, initiator: Agent, org: Charters, level: int)
    returns (a: Authorization)
    ensures a.requiresHuman <==> NeedsHuman(review, published, initiator, org, level)
    ensures review.mode == Always ==> a.requiresHuman
    ensures review.mode == Never ==> (a.requiresHuman <==> !ChainReaches(org, initiator, level))
    ensures review.mode == FirstN ==>
      (a.requiresHuman <==> published < review.firstN || !ChainReaches(org, initiator, level))
    ensures a.requiresHuman <==> a.reasons != []
    ensures var asks := review.mode == Always || (review.mode == FirstN && published < review.firstN);
      a.reasons == (if asks then [ReviewModeAsks(review.mode)] else [])
                   + (if ChainReaches(org, initiator, level) then [] else [NoAgentHolds(level)])
  {
    var reasons: seq<Reason> := [];
    if ReviewRequiresHuman(review, published) {
      reasons := reasons + [ReviewModeAsks(review.mode)];
    }
    var routing := Route(org, initiator, level);
    RouteFindsFirst(org, initiator, level);
    if routing.escalatedToHuman {
      reasons := reasons + [NoAgentHolds(level)];
    }
    return Authorization(reasons != [], reasons);
  }

  /** The review mode asks for a human, or nobody on the reporting chain holds the level. */
  ghost predicate NeedsHuman(review: Review, published: int, initiator: Agent, org: Charters, level: int) {
    || ReviewRequiresHuman(review, published)
    || forall k :: 0 <= k < |Chain(org, initiator)| ==> !Holds(org, Chain(org, initiator)[k], level)
  }

  /** Raising the level never drops the human; publishing more never adds one. */
  lemma HumanMonotone(review: Review, fewer: int, more: int, initiator: Agent, org: Charters, low: int, high: int)
    requires low <= high && fewer <= more
    ensures NeedsHuman(review, more, initiator, org, low) ==> NeedsHuman(review, fewer, initiator, org, high)
  {}
}
