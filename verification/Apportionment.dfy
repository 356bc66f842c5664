/**
 * Largest-remainder apportionment of content slots (src/ab_social/core.py) and the reweighting
 * that feeds experiment outcomes back into the next plan (src/ab_social/optimize.py). Weights are
 * exact reals.
 */
module Apportionment {
  import opened Common
  import StableOrder

  // ---------------------------------------------------------------- shares

  function Total(weights: seq<real>): real {
    var t := SumReal(weights);
    if t == 0.0 then 1.0 else t
  }

  function Share(weight: real, total: real, count: real): real
    requires total != 0.0
  {
    weight / total * count
  }

  /** Each weight's exact share of `count`. */
  function Shares(weights: seq<real>, count: nat): seq<real> {
    seq(|weights|, i requires 0 <= i < |weights| => Share(weights[i], Total(weights), count as real))
  }

  /** int(x) for x >= 0. */
  function Floors(raw: seq<real>): seq<int> {
    seq(|raw|, i requires 0 <= i < |raw| => raw[i].Floor)
  }

  function Fractions(raw: seq<real>): seq<real> {
    seq(|raw|, i requires 0 <= i < |raw| => raw[i] - raw[i].Floor as real)
  }

  ghost predicate Positive(weights: seq<real>) {
    forall i :: 0 <= i < |weights| ==> weights[i] > 0.0
  }

  /** What the rounding step is given: nonnegative shares that add up to the count. */
  ghost predicate SharesOf(raw: seq<real>, count: nat) {
    && raw != []
    && (forall i :: 0 <= i < |raw| ==> raw[i] >= 0.0)
    && SumReal(raw) == count as real
  }

  lemma {:induction false} SumPositive(weights: seq<real>)
    requires Positive(weights)
    ensures SumReal(weights) >= 0.0 && (weights != [] ==> SumReal(weights) > 0.0)
  {
    if weights != [] {
      SumPositive(weights[1..]);
    }
  }

  lemma {:induction false} SumScaled(weights: seq<real>, total: real, count: real, raw: seq<real>)
    requires total > 0.0 && |raw| == |weights|
    requires forall i :: 0 <= i < |weights| ==> raw[i] == Share(weights[i], total, count)
    ensures SumReal(raw) == Share(SumReal(weights), total, count)
  {
    if weights != [] {
      SumScaled(weights[1..], total, count, raw[1..]);
      ShareAdds(weights[0], SumReal(weights[1..]), total, count);
    }
  }

  lemma ShareAdds(a: real, b: real, total: real, count: real)
    requires total > 0.0
    ensures Share(a + b, total, count) == Share(a, total, count) + Share(b, total, count)
  {
    assert (a + b) / total == a / total + b / total;
    Distribute(a / total, b / total, count);
  }

  lemma Distribute(a: real, b: real, c: real)
    ensures (a + b) * c == a * c + b * c
  {}

  lemma ProductNonNegative(a: real, b: real)
    requires a >= 0.0 && b >= 0.0
    ensures a * b >= 0.0
  {}

  lemma ShareBounds(w: real, total: real, count: real)
    requires w > 0.0 && total > 0.0 && count >= 0.0
    ensures Share(w, total, count) >= 0.0
    ensures Share(total, total, count) == count
  {
    assert w / total > 0.0;
    ProductNonNegative(w / total, count);
    assert total / total == 1.0;
  }

  lemma SharesAddUp(weights: seq<real>, count: nat)
    requires weights != [] && Positive(weights)
    ensures SharesOf(Shares(weights, count), count)
  {
    SumPositive(weights);
    var raw := Shares(weights, count);
    SumScaled(weights, Total(weights), count as real, raw);
    ShareBounds(weights[0], Total(weights), count as real);
    forall i | 0 <= i < |weights| ensures raw[i] >= 0.0 {
      ShareBounds(weights[i], Total(weights), count as real);
    }
  }

  // ---------------------------------------------------------------- rounding

  lemma {:induction false} FloorsBelow(raw: seq<real>)
    ensures SumReal(raw) - |raw| as real <= Sum(Floors(raw)) as real <= SumReal(raw)
    ensures raw != [] ==> SumReal(raw) - |raw| as real < Sum(Floors(raw)) as real
  {
    if raw != [] {
      assert Floors(raw)[1..] == Floors(raw[1..]);
      FloorsBelow(raw[1..]);
    }
  }

  /** The slots left over after every share is rounded down: none, or fewer than the pillars. */
  lemma RemainderRange(raw: seq<real>, count: nat)
    requires SharesOf(raw, count)
    ensures 0 <= count - Sum(Floors(raw)) < |raw|
  {
    FloorsBelow(raw);
  }

  /** The positions that get one of the leftover slots: the largest fractions, ties by position. */
  ghost function Lucky(raw: seq<real>, count: nat): (chosen: seq<nat>)
    requires SharesOf(raw, count)
  {
    RemainderRange(raw, count);
    StableOrder.Order(Fractions(raw), |raw|)[..count - Sum(Floors(raw))]
  }

  ghost function Rounded(raw: seq<real>, count: nat): seq<int>
    requires SharesOf(raw, count)
  {
    seq(|raw|, i requires 0 <= i < |raw| => raw[i].Floor + (if i in Lucky(raw, count) then 1 else 0))
  }

  /** What `_allocate` computes. */
  ghost function Allocation(weights: seq<real>, count: nat): seq<int>
    requires Positive(weights)
  {
    if weights == [] then [] else
      SharesAddUp(weights, count);
      Rounded(Shares(weights, count), count)
  }

  /** `s` with one more at each listed position. */
  ghost function Bumped(s: seq<int>, at: seq<nat>): seq<int> {
    seq(|s|, i requires 0 <= i < |s| => s[i] + (if i in at then 1 else 0))
  }

  /** Stepping through a duplicate-free order, one more position is bumped. */
  lemma BumpStep(s: seq<int>, keys: seq<real>, order: seq<nat>, k: nat)
    requires |s| == |keys| && StableOrder.IsOrder(keys, |keys|, order) && k < |order|
    ensures order[k] < |s|
    ensures Bumped(s, order[..k + 1]) == Bumped(s, order[..k])[order[k] := Bumped(s, order[..k])[order[k]] + 1]
  {
    var i := order[k];
    assert order[..k + 1] == order[..k] + [i];
    assert i !in order[..k] by {
      assert forall a :: 0 <= a < k ==> StableOrder.Before(keys, order[a], i);
    }
  }

  method Allocate(weights: seq<real>, count: nat) returns (floors: seq<int>)
    requires Positive(weights)
    ensures floors == Allocation(weights, count)
  {
    var raw := Shares(weights, count);
    floors := Floors(raw);
    var remainder := count - Sum(floors);
    var keys := Fractions(raw);
    var order := StableOrder.Order(keys, |raw|);
    StableOrder.OrderIs(keys, |raw|);
    ghost var down := floors;
    AllocationIsBumped(weights, count);
    var k := 0;
    while k < |order| && k < remainder
      invariant 0 <= k <= |order| && (k <= remainder || k == 0)
      invariant floors == Bumped(down, order[..k])
    {
      BumpStep(down, keys, order, k);
      floors := floors[order[k] := floors[order[k]] + 1];
      k := k + 1;
    }
  }

  /** The allocation bumps the floors at the first `remainder` positions of the order. */
  lemma AllocationIsBumped(weights: seq<real>, count: nat)
    requires Positive(weights)
    ensures var raw := Shares(weights, count);
      var remainder := count - Sum(Floors(raw));
      && (weights == [] ==> Allocation(weights, count) == [])
      && (weights != [] ==>
           && 0 <= remainder < |raw|
           && Allocation(weights, count)
              == Bumped(Floors(raw), StableOrder.Order(Fractions(raw), |raw|)[..remainder]))
  {
    if weights != [] {
      SharesAddUp(weights, count);
      RemainderRange(Shares(weights, count), count);
      RoundedIsBumped(Shares(weights, count), count);
    }
  }

  lemma RoundedIsBumped(raw: seq<real>, count: nat)
    requires SharesOf(raw, count)
    ensures Rounded(raw, count) == Bumped(Floors(raw), Lucky(raw, count))
  {}

  lemma {:induction false} BumpedSum(s: seq<int>, at: seq<nat>)
    requires forall a :: 0 <= a < |at| ==> at[a] < |s|
    requires forall a, b :: 0 <= a < b < |at| ==> at[a] != at[b]
    ensures Sum(Bumped(s, at)) == Sum(s) + |at|
  {
    if at == [] {
      assert Bumped(s, at) == s;
    } else {
      var last := at[|at| - 1];
      var rest := at[..|at| - 1];
      BumpedSum(s, rest);
      assert at == rest + [last];
      var before := Bumped(s, rest);
      assert last !in rest;
      assert Bumped(s, at) == before[last := before[last] + 1];
      SumUpdate(before, last, before[last] + 1);
    }
  }

  /** Every slot is handed out, to the last one. */
  lemma RoundedTotal(raw: seq<real>, count: nat)
    requires SharesOf(raw, count)
    ensures Sum(Rounded(raw, count)) == count
  {
    RemainderRange(raw, count);
    var chosen := Lucky(raw, count);
    var order := StableOrder.Order(Fractions(raw), |raw|);
    StableOrder.OrderIs(Fractions(raw), |raw|);
    forall a, b | 0 <= a < b < |chosen| ensures chosen[a] != chosen[b] && chosen[b] < |raw| {
      assert StableOrder.Before(Fractions(raw), order[a], order[b]);
    }
    if |chosen| > 0 { assert chosen[0] == order[0]; }
    assert Rounded(raw, count) == Bumped(Floors(raw), chosen);
    BumpedSum(Floors(raw), chosen);
  }

  /** Total and quota: all slots are allocated, and each pillar gets its exact share rounded down or up. */
  lemma AllocationQuota(weights: seq<real>, count: nat)
    requires weights != [] && Positive(weights)
    ensures var a := Allocation(weights, count);
      && |a| == |weights|
      && Sum(a) == count
      && forall i :: 0 <= i < |weights| ==>
           && 0 <= a[i]
           && (a[i] as real) - 1.0 < Shares(weights, count)[i] < a[i] as real + 1.0
  {
    SharesAddUp(weights, count);
    SumPositive(weights);
    var raw := Shares(weights, count);
    RoundedTotal(raw, count);
    forall i | 0 <= i < |weights|
      ensures 0 <= Allocation(weights, count)[i]
      ensures (Allocation(weights, count)[i] as real) - 1.0 < raw[i] < Allocation(weights, count)[i] as real + 1.0
    {
      if i in Lucky(raw, count) {
        LuckyHasFraction(raw, count, i);
      }
    }
  }

  /** The exact shares are the weights in proportion: share over count is weight over total weight. */
  lemma SharesProportional(weights: seq<real>, count: nat, i: nat)
    requires Positive(weights) && i < |weights|
    ensures Shares(weights, count)[i] * SumReal(weights) == weights[i] * count as real
  {
    SumPositive(weights);
    var total := SumReal(weights);
    assert Total(weights) == total;
    assert Shares(weights, count)[i] == Share(weights[i], total, count as real);
    ShareTimesTotal(weights[i], total, count as real);
  }

  lemma ShareTimesTotal(w: real, total: real, count: real)
    requires total > 0.0
    ensures Share(w, total, count) * total == w * count
  {
    var q := w / total;
    assert q * total == w;
    assert q * count * total == (q * total) * count;
  }

  lemma {:induction false} ZeroFractions(raw: seq<real>, order: seq<nat>, m: nat)
    requires StableOrder.IsOrder(Fractions(raw), |raw|, order)
    requires m < |order| && Fractions(raw)[order[m]] == 0.0
    ensures Sum(Floors(raw)) as real + m as real >= SumReal(raw)
  {
    // Positions outside order[..m] have no fraction, and those inside have less than one each.
    forall i | 0 <= i < |raw| && i !in order[..m] ensures raw[i] <= raw[i].Floor as real {
      assert i in order;
      var b :| 0 <= b < |order| && order[b] == i;
      assert forall k :: 0 <= k < m ==> order[..m][k] == order[k];
      if m < b { assert StableOrder.Before(Fractions(raw), order[m], order[b]); }
    }
    var at := order[..m];
    forall a, b | 0 <= a < b < |at| ensures at[a] != at[b] {
      assert StableOrder.Before(Fractions(raw), order[a], order[b]);
    }
    BumpedSum(Floors(raw), at);
    SumDominated(raw, Bumped(Floors(raw), at));
  }

  lemma {:induction false} SumDominated(raw: seq<real>, s: seq<int>)
    requires |raw| == |s| && forall i :: 0 <= i < |raw| ==> raw[i] <= s[i] as real
    ensures SumReal(raw) <= Sum(s) as real
  {
    if raw != [] {
      SumDominated(raw[1..], s[1..]);
    }
  }

  /** No pillar whose share is already whole is rounded up. */
  lemma LuckyHasFraction(raw: seq<real>, count: nat, i: nat)
    requires SharesOf(raw, count) && i < |raw| && i in Lucky(raw, count)
    ensures raw[i] > raw[i].Floor as real
  {
    RemainderRange(raw, count);
    var order := StableOrder.Order(Fractions(raw), |raw|);
    StableOrder.OrderIs(Fractions(raw), |raw|);
    var m :| 0 <= m < count - Sum(Floors(raw)) && order[m] == i;
    if raw[i] == raw[i].Floor as real {
      ZeroFractions(raw, order, m);
      assert false;
    }
  }

  /** A heavier pillar never gets fewer slots than a lighter one. */
  lemma HeavierNotFewer(weights: seq<real>, count: nat, i: nat, j: nat)
    requires Positive(weights) && i < |weights| && j < |weights|
    requires weights[i] > weights[j]
    ensures Allocation(weights, count)[i] >= Allocation(weights, count)[j]
  {
    SharesAddUp(weights, count);
    SumPositive(weights);
    var raw := Shares(weights, count);
    HeavierShare(weights[i], weights[j], Total(weights), count as real);
    assert raw[i] == Share(weights[i], Total(weights), count as real);
    assert raw[j] == Share(weights[j], Total(weights), count as real);
    if j in Lucky(raw, count) && i !in Lucky(raw, count) {
      LuckyPrecedes(raw, count, j, i);
      if raw[i] == raw[j] {
        EqualShares(weights, count, i, j);
        LuckyHasFraction(raw, count, j);
      }
    }
  }

  lemma MonotoneProduct(a: real, b: real, c: real)
    requires a <= b && c >= 0.0
    ensures a * c <= b * c
  {}

  lemma HeavierShare(w: real, v: real, t: real, count: real)
    requires w > v && t > 0.0 && count >= 0.0
    ensures Share(w, t, count) >= Share(v, t, count)
    ensures Share(w, t, count) == Share(v, t, count) ==> count == 0.0
  {
    DivideStrict(v, w, t);
    MonotoneProduct(v / t, w / t, count);
    if count > 0.0 {
      StrictProduct(v / t, w / t, count);
    }
  }

  /** Different weights have the same share only when nothing is handed out. */
  lemma EqualShares(weights: seq<real>, count: nat, i: nat, j: nat)
    requires Positive(weights) && i < |weights| && j < |weights| && weights[i] > weights[j]
    requires Shares(weights, count)[i] == Shares(weights, count)[j]
    ensures count == 0 && Shares(weights, count)[j] == 0.0
  {
    SumPositive(weights);
    HeavierShare(weights[i], weights[j], Total(weights), count as real);
  }

  lemma DivideStrict(a: real, b: real, t: real)
    requires a < b && t > 0.0
    ensures a / t < b / t
  {
    var p, q := a / t, b / t;
    assert p * t == a && q * t == b;
    if q <= p {
      MonotoneProduct(q, p, t);
    }
  }

  lemma StrictProduct(a: real, b: real, c: real)
    requires a < b && c > 0.0
    ensures a * c < b * c
  {}

  /** Whoever is rounded up comes before whoever is not, in the order of the fractions. */
  lemma LuckyPrecedes(raw: seq<real>, count: nat, i: nat, j: nat)
    requires SharesOf(raw, count) && i < |raw| && j < |raw|
    requires i in Lucky(raw, count) && j !in Lucky(raw, count)
    ensures StableOrder.Before(Fractions(raw), i, j)
  {
    RemainderRange(raw, count);
    StableOrder.OrderIs(Fractions(raw), |raw|);
    StableOrder.PrefixClosed(Fractions(raw), |raw|, StableOrder.Order(Fractions(raw), |raw|),
                             count - Sum(Floors(raw)), i, j);
  }

  // ---------------------------------------------------------------- monotonicity across two plans

  /** The slots of the positions marked in `mask`. */
  function GroupSum(s: seq<int>, mask: seq<bool>): int
    requires |s| == |mask|
  {
    if s == [] then 0 else (if mask[0] then s[0] else 0) + GroupSum(s[1..], mask[1..])
  }

  function Complement(mask: seq<bool>): seq<bool> {
    seq(|mask|, i requires 0 <= i < |mask| => !mask[i])
  }

  lemma {:induction false} GroupSplit(s: seq<int>, mask: seq<bool>)
    requires |s| == |mask|
    ensures GroupSum(s, mask) + GroupSum(s, Complement(mask)) == Sum(s)
  {
    if s != [] {
      assert Complement(mask)[1..] == Complement(mask[1..]);
      GroupSplit(s[1..], mask[1..]);
    }
  }

  /** A group whose total drops has a member that drops. */
  lemma {:induction false} FindDrop(s: seq<int>, t: seq<int>, mask: seq<bool>) returns (k: nat)
    requires |s| == |t| == |mask|
    requires GroupSum(t, mask) < GroupSum(s, mask)
    ensures k < |s| && mask[k] && t[k] < s[k]
  {
    if mask[0] && t[0] < s[0] {
      k := 0;
    } else {
      k := FindDrop(s[1..], t[1..], mask[1..]);
      k := k + 1;
    }
  }

  /** `raw1` gives every marked position at least as much as `raw0`, and every other one at most as much. */
  ghost predicate Shifted(raw0: seq<real>, raw1: seq<real>, mask: seq<bool>) {
    && |raw0| == |raw1| == |mask|
    && forall i :: 0 <= i < |mask| ==> if mask[i] then raw0[i] <= raw1[i] else raw1[i] <= raw0[i]
  }

  /** If k drops and j rises although their shares moved the other way, both orders tie in a cycle. */
  lemma NoSwap(raw0: seq<real>, raw1: seq<real>, mask: seq<bool>, count: nat, k: nat, j: nat)
    requires SharesOf(raw0, count) && SharesOf(raw1, count) && Shifted(raw0, raw1, mask)
    requires k < |mask| && j < |mask| && mask[k] && !mask[j]
    ensures Rounded(raw1, count)[k] < Rounded(raw0, count)[k]
      ==> Rounded(raw1, count)[j] <= Rounded(raw0, count)[j]
  {
    var a, b := Rounded(raw0, count), Rounded(raw1, count);
    if b[k] < a[k] && b[j] > a[j] {
      assert raw0[k].Floor == raw1[k].Floor && raw0[j].Floor == raw1[j].Floor;
      LuckyPrecedes(raw0, count, k, j);
      LuckyPrecedes(raw1, count, j, k);
    }
  }

  /** Shifting exact shares towards a group never lowers the group's slots, for any count and tie pattern. */
  lemma GroupNeverLoses(raw0: seq<real>, raw1: seq<real>, mask: seq<bool>, count: nat)
    requires SharesOf(raw0, count) && SharesOf(raw1, count) && Shifted(raw0, raw1, mask)
    ensures GroupSum(Rounded(raw0, count), mask) <= GroupSum(Rounded(raw1, count), mask)
  {
    var a, b := Rounded(raw0, count), Rounded(raw1, count);
    if GroupSum(b, mask) < GroupSum(a, mask) {
      RoundedTotal(raw0, count);
      RoundedTotal(raw1, count);
      GroupSplit(a, mask);
      GroupSplit(b, mask);
      var k := FindDrop(a, b, mask);
      var j := FindDrop(b, a, Complement(mask));
      NoSwap(raw0, raw1, mask, count, k, j);
    }
  }

  function Reweighted(weight: real, marked: bool, factor: real): real {
    if marked then weight * factor else weight
  }

  /** `weights` with the marked ones multiplied by `factor`. */
  function Scaled(weights: seq<real>, mask: seq<bool>, factor: real): seq<real>
    requires |weights| == |mask|
  {
    seq(|weights|, i requires 0 <= i < |weights| => Reweighted(weights[i], mask[i], factor))
  }

  lemma {:induction false} ScaledSum(weights: seq<real>, mask: seq<bool>, factor: real)
    requires |weights| == |mask| && Positive(weights) && factor >= 1.0
    ensures SumReal(weights) <= SumReal(Scaled(weights, mask, factor)) <= factor * SumReal(weights)
  {
    if weights != [] {
      ScaledTail(weights, mask, factor);
      ScaledSum(weights[1..], mask[1..], factor);
      GrowBy(weights[0], factor);
      assert factor * SumReal(weights) == factor * weights[0] + factor * SumReal(weights[1..]);
    }
  }

  lemma ScaledTail(weights: seq<real>, mask: seq<bool>, factor: real)
    requires |weights| == |mask| > 0
    ensures Scaled(weights, mask, factor)[1..] == Scaled(weights[1..], mask[1..], factor)
  {
    forall i | 0 <= i < |weights| - 1
      ensures Scaled(weights, mask, factor)[1..][i] == Scaled(weights[1..], mask[1..], factor)[i]
    {
      assert weights[1..][i] == weights[i + 1] && mask[1..][i] == mask[i + 1];
    }
  }

  lemma GrowBy(w: real, factor: real)
    requires w > 0.0 && factor >= 1.0
    ensures w <= w * factor
  {
    assert w * factor == w + w * (factor - 1.0);
    ProductNonNegative(w, factor - 1.0);
  }

  lemma PositiveProduct(w: real, factor: real)
    requires w > 0.0 && factor > 0.0
    ensures w * factor > 0.0
  {}

  lemma ScaledPositive(weights: seq<real>, mask: seq<bool>, factor: real)
    requires |weights| == |mask| && Positive(weights) && factor > 0.0
    ensures Positive(Scaled(weights, mask, factor))
  {
    forall i | 0 <= i < |weights| ensures Scaled(weights, mask, factor)[i] > 0.0 {
      PositiveProduct(weights[i], factor);
    }
  }

  /** w / t <= w * f / u whenever u <= f * t. */
  lemma ShareUp(w: real, f: real, t: real, u: real)
    requires w > 0.0 && t > 0.0 && u > 0.0 && f > 0.0 && u <= f * t
    ensures w / t <= w * f / u
  {
    var q := w / t;
    assert w == q * t;
    assert q > 0.0;
    MonotoneProduct(u, f * t, q);
    assert q * t * f == (f * t) * q;
    assert (w * f) >= q * u;
    DivideUp(q, u, w * f);
  }

  lemma DivideUp(q: real, u: real, x: real)
    requires u > 0.0 && q * u <= x
    ensures q <= x / u
  {
    var r := x / u;
    assert r * u == x;
    if r < q {
      StrictProduct(r, q, u);
      assert false;
    }
  }

  /** w / u <= w / t whenever t <= u. */
  lemma ShareDown(w: real, t: real, u: real)
    requires w > 0.0 && 0.0 < t <= u
    ensures w / u <= w / t
  {
    var q := w / u;
    assert q * u == w && q > 0.0;
    MonotoneProduct(t, u, q);
    DivideUp(q, t, w);
  }

  /** A weight's share when the total moves from t to u and the weight is scaled or not. */
  lemma ShareMoves(w: real, marked: bool, factor: real, t: real, u: real, count: real)
    requires w > 0.0 && factor >= 1.0 && 0.0 < t <= u <= factor * t && count >= 0.0
    ensures marked ==> Share(w, t, count) <= Share(Reweighted(w, marked, factor), u, count)
    ensures !marked ==> Share(Reweighted(w, marked, factor), u, count) <= Share(w, t, count)
  {
    if marked {
      ShareUp(w, factor, t, u);
      MonotoneProduct(w / t, w * factor / u, count);
    } else {
      ShareDown(w, t, u);
      MonotoneProduct(w / u, w / t, count);
    }
  }

  lemma ScaledTotals(weights: seq<real>, mask: seq<bool>, factor: real)
    requires |weights| == |mask| && Positive(weights) && factor >= 1.0 && weights != []
    ensures 0.0 < Total(weights) <= Total(Scaled(weights, mask, factor)) <= factor * Total(weights)
  {
    ScaledPositive(weights, mask, factor);
    ScaledSum(weights, mask, factor);
    SumPositive(weights);
  }

  lemma ScaledShifts(weights: seq<real>, mask: seq<bool>, factor: real, count: nat)
    requires |weights| == |mask| && Positive(weights) && factor >= 1.0
    ensures Shifted(Shares(weights, count), Shares(Scaled(weights, mask, factor), count), mask)
  {
    var scaled := Scaled(weights, mask, factor);
    var raw0, raw1 := Shares(weights, count), Shares(scaled, count);
    forall i | 0 <= i < |mask|
      ensures mask[i] ==> raw0[i] <= raw1[i]
      ensures !mask[i] ==> raw1[i] <= raw0[i]
    {
      ScaledTotals(weights, mask, factor);
      ShareMoves(weights[i], mask[i], factor, Total(weights), Total(scaled), count as real);
      assert raw0[i] == Share(weights[i], Total(weights), count as real);
      assert raw1[i] == Share(Reweighted(weights[i], mask[i], factor), Total(scaled), count as real);
    }
  }

  /** Scaling the marked weights up never lowers the slots they get together. */
  lemma ScaleUpNeverLoses(weights: seq<real>, mask: seq<bool>, factor: real, count: nat)
    requires |weights| == |mask| && Positive(weights) && factor >= 1.0
    ensures Positive(Scaled(weights, mask, factor))
    ensures |Allocation(weights, count)| == |Allocation(Scaled(weights, mask, factor), count)| == |mask|
    ensures GroupSum(Allocation(weights, count), mask)
         <= GroupSum(Allocation(Scaled(weights, mask, factor), count), mask)
  {
    ScaledPositive(weights, mask, factor);
    if weights != [] {
      var scaled := Scaled(weights, mask, factor);
      SharesAddUp(weights, count);
      SharesAddUp(scaled, count);
      ScaledShifts(weights, mask, factor, count);
      GroupNeverLoses(Shares(weights, count), Shares(scaled, count), mask, count);
    }
  }

  /** Scaling the marked weights down never raises the slots they get together. */
  lemma ScaleDownNeverGains(weights: seq<real>, mask: seq<bool>, factor: real, count: nat)
    requires |weights| == |mask| && Positive(weights) && 0.0 < factor <= 1.0
    ensures Positive(Scaled(weights, mask, factor))
    ensures |Allocation(weights, count)| == |Allocation(Scaled(weights, mask, factor), count)| == |mask|
    ensures GroupSum(Allocation(Scaled(weights, mask, factor), count), mask)
         <= GroupSum(Allocation(weights, count), mask)
  {
    var scaled := Scaled(weights, mask, factor);
    ScaledPositive(weights, mask, factor);
    var inverse := Undo(weights, mask, factor);
    ScaleUpNeverLoses(scaled, mask, inverse, count);
  }

  lemma Cancel(w: real, f: real, g: real)
    requires f * g == 1.0
    ensures w * f * g == w
  {
    assert w * f * g == w * (f * g);
  }

  // ---------------------------------------------------------------- a scaled group gains in the long run

  /** The exact shares of the positions marked in `mask`. */
  ghost function GroupShare(raw: seq<real>, mask: seq<bool>): real
    requires |raw| == |mask|
  {
    if raw == [] then 0.0 else (if mask[0] then raw[0] else 0.0) + GroupShare(raw[1..], mask[1..])
  }

  /** Rounding moves a group by less than one slot a member. */
  lemma {:induction false} GroupNearShare(s: seq<int>, raw: seq<real>, mask: seq<bool>)
    requires |s| == |raw| == |mask|
    requires forall i :: 0 <= i < |s| ==> (s[i] as real) - 1.0 <= raw[i] <= s[i] as real + 1.0
    ensures (GroupSum(s, mask) as real) - |mask| as real <= GroupShare(raw, mask)
         <= GroupSum(s, mask) as real + |mask| as real
  {
    if s != [] {
      GroupNearShare(s[1..], raw[1..], mask[1..]);
    }
  }

  /** Shares shifted towards a group raise its total by what any one member gains, or more. */
  lemma {:induction false} GroupShareGains(raw0: seq<real>, raw1: seq<real>, mask: seq<bool>, i: nat)
    requires Shifted(raw0, raw1, mask) && i < |mask| && mask[i]
    ensures GroupShare(raw1, mask) - GroupShare(raw0, mask) >= raw1[i] - raw0[i]
  {
    if i > 0 {
      GroupShareGains(raw0[1..], raw1[1..], mask[1..], i - 1);
    } else {
      GroupShareShifts(raw0[1..], raw1[1..], mask[1..]);
    }
  }

  lemma {:induction false} GroupShareShifts(raw0: seq<real>, raw1: seq<real>, mask: seq<bool>)
    requires Shifted(raw0, raw1, mask)
    ensures GroupShare(raw1, mask) >= GroupShare(raw0, mask)
  {
    if raw0 != [] {
      GroupShareShifts(raw0[1..], raw1[1..], mask[1..]);
    }
  }

  /** An unmarked weight keeps the scaled total strictly below the factor's multiple. */
  lemma {:induction false} ScaledSumBelow(weights: seq<real>, mask: seq<bool>, factor: real, j: nat)
    requires |weights| == |mask| && Positive(weights) && factor > 1.0 && j < |mask| && !mask[j]
    ensures SumReal(Scaled(weights, mask, factor)) < factor * SumReal(weights)
  {
    ScaledSumStep(weights, mask, factor);
    var w, rest := weights[0], SumReal(weights[1..]);
    var scaled := SumReal(Scaled(weights[1..], mask[1..], factor));
    if j > 0 {
      ScaledSumBelow(weights[1..], mask[1..], factor, j - 1);
      BelowTail(Reweighted(w, mask[0], factor), w, rest, scaled, factor);
    } else {
      ScaledSum(weights[1..], mask[1..], factor);
      BelowHead(w, rest, scaled, factor);
    }
  }

  lemma ScaledSumStep(weights: seq<real>, mask: seq<bool>, factor: real)
    requires |weights| == |mask| > 0
    ensures SumReal(weights) == weights[0] + SumReal(weights[1..])
    ensures SumReal(Scaled(weights, mask, factor))
      == Reweighted(weights[0], mask[0], factor) + SumReal(Scaled(weights[1..], mask[1..], factor))
  {
    ScaledTail(weights, mask, factor);
  }

  lemma BelowTail(h: real, w: real, rest: real, scaled: real, factor: real)
    requires w > 0.0 && factor > 1.0 && (h == w || h == w * factor) && scaled < factor * rest
    ensures h + scaled < factor * (w + rest)
  {
    GrowBy(w, factor);
    assert factor * (w + rest) == w * factor + factor * rest;
  }

  lemma BelowHead(w: real, rest: real, scaled: real, factor: real)
    requires w > 0.0 && factor > 1.0 && scaled <= factor * rest
    ensures w + scaled < factor * (w + rest)
  {
    StrictProduct(1.0, factor, w);
    assert factor * (w + rest) == factor * w + factor * rest;
  }

  /** What a marked weight gains per slot planned, as a fraction of the plan. */
  ghost function Gain(weights: seq<real>, mask: seq<bool>, factor: real, i: nat): real
    requires |weights| == |mask| && i < |mask| && Total(weights) != 0.0 && Total(Scaled(weights, mask, factor)) != 0.0
  {
    weights[i] * factor / Total(Scaled(weights, mask, factor)) - weights[i] / Total(weights)
  }

  lemma GainPositive(weights: seq<real>, mask: seq<bool>, factor: real, i: nat, j: nat)
    requires |weights| == |mask| && Positive(weights) && factor > 1.0
    requires i < |mask| && j < |mask| && mask[i] && !mask[j]
    ensures Total(weights) > 0.0 && Total(Scaled(weights, mask, factor)) > 0.0
    ensures Gain(weights, mask, factor, i) > 0.0
  {
    ScaledTotals(weights, mask, factor);
    ScaledSumBelow(weights, mask, factor, j);
    SumPositive(weights);
    ScaledPositive(weights, mask, factor);
    SumPositive(Scaled(weights, mask, factor));
    ShareUpStrict(weights[i], factor, Total(weights), Total(Scaled(weights, mask, factor)));
  }

  /** w / t < w * f / u whenever u < f * t. */
  lemma ShareUpStrict(w: real, f: real, t: real, u: real)
    requires w > 0.0 && t > 0.0 && u > 0.0 && f > 0.0 && u < f * t
    ensures w / t < w * f / u
  {
    var q, r := w / t, w * f / u;
    assert w == q * t && r * u == w * f && q > 0.0;
    StrictProduct(u, f * t, q);
    assert (f * t) * q == w * f;
    if r <= q { MonotoneProduct(r, q, u); }
  }

  lemma SharesGain(weights: seq<real>, mask: seq<bool>, factor: real, i: nat, j: nat, count: nat)
    requires |weights| == |mask| && Positive(weights) && factor > 1.0
    requires i < |mask| && j < |mask| && mask[i] && !mask[j]
    ensures Total(weights) > 0.0 && Total(Scaled(weights, mask, factor)) > 0.0
    ensures Shares(Scaled(weights, mask, factor), count)[i] - Shares(weights, count)[i]
         == Gain(weights, mask, factor, i) * count as real
  {
    GainPositive(weights, mask, factor, i, j);
    var scaled, n := Scaled(weights, mask, factor), count as real;
    var t, u := Total(weights), Total(scaled);
    assert Shares(scaled, count)[i] == Share(weights[i] * factor, u, n);
    assert Shares(weights, count)[i] == Share(weights[i], t, n);
    ShareDifference(weights[i] * factor, u, weights[i], t, n);
  }

  lemma ShareDifference(v: real, u: real, w: real, t: real, count: real)
    requires t > 0.0 && u > 0.0
    ensures Share(v, u, count) - Share(w, t, count) == (v / u - w / t) * count
  {
    Distribute(v / u - w / t, w / t, count);
  }

  /** In a plan of this many slots, the gain of one member outweighs the rounding of a group in two plans. */
  ghost predicate Outweighs(gain: real, count: nat, size: nat) {
    gain * count as real > 2.0 * size as real
  }

  lemma Enough(gain: real, size: nat) returns (enough: nat)
    requires gain > 0.0
    ensures forall count: nat :: count >= enough ==> Outweighs(gain, count, size)
  {
    var q := 2.0 * size as real / gain;
    assert q * gain == 2.0 * size as real && q >= 0.0;
    enough := q.Floor + 1;
    forall count: nat | count >= enough ensures Outweighs(gain, count, size) {
      StrictProduct(q, count as real, gain);
    }
  }

  /** Unless it marks nothing or everything, scaling up raises the marked slots in every plan that is large enough. */
  lemma ScaleUpGains(weights: seq<real>, mask: seq<bool>, factor: real, i: nat, j: nat) returns (enough: nat)
    requires |weights| == |mask| && Positive(weights) && factor > 1.0
    requires i < |mask| && j < |mask| && mask[i] && !mask[j]
    ensures Positive(Scaled(weights, mask, factor))
    ensures forall count: nat {:trigger Allocation(weights, count)} :: count >= enough ==>
      && |Allocation(weights, count)| == |Allocation(Scaled(weights, mask, factor), count)| == |mask|
      && GroupSum(Allocation(weights, count), mask)
         < GroupSum(Allocation(Scaled(weights, mask, factor), count), mask)
  {
    ScaledPositive(weights, mask, factor);
    GainPositive(weights, mask, factor, i, j);
    enough := Enough(Gain(weights, mask, factor, i), |mask|);
    forall count: nat {:trigger Allocation(weights, count)} | count >= enough
      ensures |Allocation(weights, count)| == |Allocation(Scaled(weights, mask, factor), count)| == |mask|
      ensures GroupSum(Allocation(weights, count), mask)
            < GroupSum(Allocation(Scaled(weights, mask, factor), count), mask)
    {
      LargePlanGains(weights, mask, factor, i, j, count);
    }
  }

  lemma LargePlanGains(weights: seq<real>, mask: seq<bool>, factor: real, i: nat, j: nat, count: nat)
    requires |weights| == |mask| && Positive(weights) && factor > 1.0
    requires i < |mask| && j < |mask| && mask[i] && !mask[j]
    requires Total(weights) > 0.0 && Total(Scaled(weights, mask, factor)) > 0.0
    requires Outweighs(Gain(weights, mask, factor, i), count, |mask|)
    ensures Positive(Scaled(weights, mask, factor))
    ensures |Allocation(weights, count)| == |Allocation(Scaled(weights, mask, factor), count)| == |mask|
    ensures GroupSum(Allocation(weights, count), mask)
         < GroupSum(Allocation(Scaled(weights, mask, factor), count), mask)
  {
    var scaled := Scaled(weights, mask, factor);
    ScaledPositive(weights, mask, factor);
    AllocationQuota(weights, count);
    AllocationQuota(scaled, count);
    ScaledShifts(weights, mask, factor, count);
    SharesGain(weights, mask, factor, i, j, count);
    GroupShareGains(Shares(weights, count), Shares(scaled, count), mask, i);
    GroupNearShare(Allocation(weights, count), Shares(weights, count), mask);
    GroupNearShare(Allocation(scaled, count), Shares(scaled, count), mask);
  }

  /** Scaling down likewise lowers them. */
  lemma ScaleDownLoses(weights: seq<real>, mask: seq<bool>, factor: real, i: nat, j: nat) returns (enough: nat)
    requires |weights| == |mask| && Positive(weights) && 0.0 < factor < 1.0
    requires i < |mask| && j < |mask| && mask[i] && !mask[j]
    ensures Positive(Scaled(weights, mask, factor))
    ensures forall count: nat {:trigger Allocation(weights, count)} :: count >= enough ==>
      && |Allocation(weights, count)| == |Allocation(Scaled(weights, mask, factor), count)| == |mask|
      && GroupSum(Allocation(Scaled(weights, mask, factor), count), mask)
         < GroupSum(Allocation(weights, count), mask)
  {
    var scaled := Scaled(weights, mask, factor);
    ScaledPositive(weights, mask, factor);
    var inverse := Undo(weights, mask, factor);
    enough := ScaleUpGains(scaled, mask, inverse, i, j);
    forall count: nat {:trigger Allocation(weights, count)} | count >= enough
      ensures |Allocation(weights, count)| == |Allocation(scaled, count)| == |mask|
      ensures GroupSum(Allocation(scaled, count), mask) < GroupSum(Allocation(weights, count), mask)
    {
      assert |Allocation(scaled, count)| == |mask|;
    }
  }

  /** The factor that takes a scaling down back. */
  lemma Undo(weights: seq<real>, mask: seq<bool>, factor: real) returns (inverse: real)
    requires |weights| == |mask| && 0.0 < factor <= 1.0
    ensures inverse >= 1.0 && (factor < 1.0 ==> inverse > 1.0)
    ensures Scaled(Scaled(weights, mask, factor), mask, inverse) == weights
  {
    var scaled := Scaled(weights, mask, factor);
    inverse := 1.0 / factor;
    assert inverse * factor == 1.0 && inverse >= 1.0;
    forall i | 0 <= i < |weights| ensures Scaled(scaled, mask, inverse)[i] == weights[i] {
      if mask[i] { Cancel(weights[i], factor, inverse); }
    }
    assert Scaled(scaled, mask, inverse) == weights;
  }
}
