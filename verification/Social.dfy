/**
 * The content plan drawn from a social profile (src/ab_social/core.py) and its self-optimization
 * (src/ab_social/optimize.py): slots per pillar, platforms in rotation, each platform's top format.
 */
module Social {
  import opened Common
  import opened Apportionment

  datatype Pillar = Pillar(name: string, weight: real)

  datatype FormatShare = FormatShare(format: string, share: real)

  /** `formatMix` lists a dictionary's entries in insertion order. */
  datatype PlatformConfig = PlatformConfig(name: string, formatMix: seq<FormatShare>)

  datatype Profile = Profile(businessId: string, pillars: seq<Pillar>, platforms: seq<PlatformConfig>)

  datatype PlanItem = PlanItem(businessId: string, pillar: string, platform: string, format: string,
                               keyMessage: string)

  /** The two ways drawing an item fails: `% 0` on no platforms, `max` of an empty format mix. */
  datatype PlanError = NoPlatforms | NoFormats

  datatype Action = Scale | Pivot | Kill | Continue

  const SCALE_FACTOR := 1.5
  const KILL_FACTOR := 0.5

  function Weights(pillars: seq<Pillar>): seq<real> {
    seq(|pillars|, i requires 0 <= i < |pillars| => pillars[i].weight)
  }

  /** Pillar weights are validated to be positive when a profile is built. */
  ghost predicate WellFormed(profile: Profile) {
    Positive(Weights(profile.pillars))
  }

  // ---------------------------------------------------------------- top format

  predicate Ranked(x: FormatShare, y: FormatShare) {
    x.share < y.share || (x.share == y.share && LexLess(x.format, y.format))
  }

  /** The largest share, equal shares broken by the larger format name. */
  function TopFormat(mix: seq<FormatShare>): (top: FormatShare)
    requires mix != []
    ensures top in mix
    ensures forall k :: 0 <= k < |mix| ==> !Ranked(top, mix[k])
    ensures forall k :: 0 <= k < |mix| ==>
      mix[k].share <= top.share && (mix[k].share == top.share ==> !LexLess(top.format, mix[k].format))
  {
    var n := |mix| - 1;
    if n == 0 then
      LexTotal(mix[0].format, mix[0].format);
      mix[0]
    else
      var top := TopFormat(mix[..n]);
      assert forall k :: 0 <= k < n ==> mix[..n][k] == mix[k];
      LexTotal(top.format, mix[n].format);
      if Ranked(top, mix[n]) then
        assert forall k :: 0 <= k < n ==> !Ranked(mix[n], mix[k]) by {
          forall k | 0 <= k < n ensures !Ranked(mix[n], mix[k]) { RankedTransitive(top, mix[n], mix[k]); }
        }
        LexTotal(mix[n].format, mix[n].format);
        mix[n]
      else
        top
  }

  lemma RankedTransitive(x: FormatShare, y: FormatShare, z: FormatShare)
    requires Ranked(x, y)
    ensures Ranked(y, z) ==> Ranked(x, z)
  {
    if x.share == y.share == z.share && LexLess(y.format, z.format) {
      LexTransitive(x.format, y.format, z.format);
    }
  }

  // ---------------------------------------------------------------- plan

  function Repeat(x: string, n: nat): seq<string> {
    seq(n, _ => x)
  }

  ghost predicate Allotted(pillars: seq<Pillar>, alloc: seq<int>) {
    |pillars| == |alloc| && forall i :: 0 <= i < |alloc| ==> alloc[i] >= 0
  }

  /** The pillar of every slot of the first n pillars, in plan order. */
  ghost function Slots(pillars: seq<Pillar>, alloc: seq<int>, n: nat): seq<string>
    requires Allotted(pillars, alloc) && n <= |alloc|
  {
    if n == 0 then [] else Slots(pillars, alloc, n - 1) + Repeat(pillars[n - 1].name, alloc[n - 1])
  }

  lemma AllocationShape(weights: seq<real>, count: nat)
    requires Positive(weights)
    ensures |Allocation(weights, count)| == |weights|
    ensures forall i :: 0 <= i < |weights| ==> Allocation(weights, count)[i] >= 0
    ensures weights != [] ==> Sum(Allocation(weights, count)) == count
  {
    if weights != [] {
      AllocationQuota(weights, count);
    }
  }

  ghost function PlanSlots(profile: Profile, count: nat): seq<string>
    requires WellFormed(profile)
  {
    AllocationShape(Weights(profile.pillars), count);
    Slots(profile.pillars, Allocation(Weights(profile.pillars), count), |profile.pillars|)
  }

  function Item(profile: Profile, pillar: string, platform: PlatformConfig): PlanItem
    requires platform.formatMix != []
  {
    PlanItem(profile.businessId, pillar, platform.name, TopFormat(platform.formatMix).format,
             pillar + " for " + profile.businessId)
  }

  /** Whose turn it is after t turns round a circle of P. */
  function Turn(t: nat, P: nat): (p: nat)
    requires P > 0
    ensures p < P
  {
    if t == 0 then 0 else
      var p := Turn(t - 1, P);
      if p + 1 == P then 0 else p + 1
  }

  lemma {:induction false} TurnIsRemainder(t: nat, P: nat) returns (laps: nat)
    requires P > 0
    ensures t == laps * P + Turn(t, P)
    ensures Turn(t, P) == t % P
  {
    if t == 0 {
      laps := 0;
    } else {
      laps := TurnIsRemainder(t - 1, P);
      if Turn(t, P) == 0 {
        assert (laps + 1) * P == laps * P + P;
        laps := laps + 1;
      }
    }
    UniqueRemainder(t / P, t % P, laps, Turn(t, P), P);
  }

  lemma UniqueRemainder(d: int, m: int, q: int, r: int, P: nat)
    requires P > 0 && d * P + m == q * P + r && 0 <= m < P && 0 <= r < P
    ensures m == r
  {
    assert (d - q) * P == r - m;
    if d > q { AtLeastOneLap(d - q, P); }
    if d < q { AtLeastOneLap(q - d, P); }
  }

  lemma AtLeastOneLap(a: int, P: nat)
    requires a >= 1
    ensures a * P >= P
  {}

  /** Slot t can be drawn: its platform in the rotation exists and has a format. */
  predicate Drawable(profile: Profile, t: nat) {
    profile.platforms != [] && profile.platforms[Turn(t, |profile.platforms|)].formatMix != []
  }

  function ItemAt(profile: Profile, slots: seq<string>, t: nat): PlanItem
    requires t < |slots| && Drawable(profile, t)
  {
    Item(profile, slots[t], profile.platforms[Turn(t, |profile.platforms|)])
  }

  ghost function PlanOf(profile: Profile, count: nat): Result<seq<PlanItem>, PlanError>
    requires WellFormed(profile)
  {
    var slots := PlanSlots(profile, count);
    if forall t: nat :: t < |slots| ==> Drawable(profile, t) then
      Ok(seq(|slots|, t requires 0 <= t < |slots| => ItemAt(profile, slots, t)))
    else
      Err(if profile.platforms == [] then NoPlatforms else NoFormats)
  }

  /** `items` are the items of the first slots. */
  ghost predicate DrawnSoFar(profile: Profile, slots: seq<string>, items: seq<PlanItem>) {
    && |items| <= |slots|
    && forall t: nat :: t < |items| ==> Drawable(profile, t) && items[t] == ItemAt(profile, slots, t)
  }

  lemma DrawOne(profile: Profile, slots: seq<string>, items: seq<PlanItem>, item: PlanItem)
    requires DrawnSoFar(profile, slots, items) && |items| < |slots| && Drawable(profile, |items|)
    requires item == ItemAt(profile, slots, |items|)
    ensures DrawnSoFar(profile, slots, items + [item])
  {}

  lemma DrawnAll(profile: Profile, count: nat, items: seq<PlanItem>)
    requires WellFormed(profile) && DrawnSoFar(profile, PlanSlots(profile, count), items)
    requires |items| == |PlanSlots(profile, count)|
    ensures PlanOf(profile, count) == Ok(items)
  {
    assert PlanOf(profile, count).Ok?;
    assert items == PlanOf(profile, count).value;
  }

  lemma DrawFails(profile: Profile, count: nat, t: nat)
    requires WellFormed(profile) && t < |PlanSlots(profile, count)| && !Drawable(profile, t)
    ensures PlanOf(profile, count) == Err(if profile.platforms == [] then NoPlatforms else NoFormats)
  {}

  method Plan(profile: Profile, count: nat) returns (r: Result<seq<PlanItem>, PlanError>)
    requires WellFormed(profile)
    ensures r == PlanOf(profile, count)
  {
    var alloc := Allocate(Weights(profile.pillars), count);
    AllocationShape(Weights(profile.pillars), count);
    ghost var slots := PlanSlots(profile, count);
    var items: seq<PlanItem> := [];
    var platformIdx: nat := 0;
    for j := 0 to |alloc|
      invariant platformIdx == |items| == |Slots(profile.pillars, alloc, j)|
      invariant DrawnSoFar(profile, slots, items)
    {
      ghost var base := platformIdx;
      SlotsOfPillar(profile.pillars, alloc, |alloc|, j);
      for m := 0 to alloc[j]
        invariant platformIdx == |items| == base + m
        invariant DrawnSoFar(profile, slots, items)
      {
        if |profile.platforms| == 0 {
          DrawFails(profile, count, platformIdx);
          return Err(NoPlatforms);
        }
        var platform := profile.platforms[platformIdx % |profile.platforms|];
        ghost var laps := TurnIsRemainder(platformIdx, |profile.platforms|);
        if platform.formatMix == [] {
          DrawFails(profile, count, platformIdx);
          return Err(NoFormats);
        }
        DrawOne(profile, slots, items, Item(profile, profile.pillars[j].name, platform));
        items := items + [Item(profile, profile.pillars[j].name, platform)];
        platformIdx := platformIdx + 1;
      }
    }
    DrawnAll(profile, count, items);
    return Ok(items);
  }

  /** The slots of pillar j follow those of the pillars before it. */
  lemma {:induction false} SlotsOfPillar(pillars: seq<Pillar>, alloc: seq<int>, n: nat, j: nat)
    requires Allotted(pillars, alloc) && j < n <= |alloc|
    ensures var before, slots := |Slots(pillars, alloc, j)|, Slots(pillars, alloc, n);
      && |Slots(pillars, alloc, j + 1)| == before + alloc[j] <= |slots|
      && forall t: nat :: before <= t < before + alloc[j] ==> slots[t] == pillars[j].name
  {
    if j < n - 1 {
      SlotsOfPillar(pillars, alloc, n - 1, j);
    }
  }

  lemma {:induction false} SlotsLength(pillars: seq<Pillar>, alloc: seq<int>, n: nat)
    requires Allotted(pillars, alloc) && n <= |alloc|
    ensures |Slots(pillars, alloc, n)| == Sum(alloc[..n])
  {
    if n > 0 {
      SlotsLength(pillars, alloc, n - 1);
      assert alloc[..n] == alloc[..n - 1] + [alloc[n - 1]];
      SumConcat(alloc[..n - 1], [alloc[n - 1]]);
    }
  }

  /** A plan has exactly `count` items, and fails iff some slot it must fill cannot be drawn. */
  lemma PlanSize(profile: Profile, count: nat)
    requires WellFormed(profile)
    ensures var n := if profile.pillars == [] then 0 else count;
      && |PlanSlots(profile, count)| == n
      && (PlanOf(profile, count).Ok? ==> |PlanOf(profile, count).value| == n)
      && (PlanOf(profile, count).Ok? <==>
            n == 0 || (profile.platforms != [] &&
                       forall p: nat :: p < |profile.platforms| && p < n ==> profile.platforms[p].formatMix != []))
      && (PlanOf(profile, count) == Err(NoPlatforms) <==> n > 0 && profile.platforms == [])
  {
    AllocationShape(Weights(profile.pillars), count);
    var alloc := Allocation(Weights(profile.pillars), count);
    SlotsLength(profile.pillars, alloc, |alloc|);
    assert alloc[..|alloc|] == alloc;
    var n, P := |PlanSlots(profile, count)|, |profile.platforms|;
    if n > 0 {
      if P == 0 {
        assert !Drawable(profile, 0);
      } else {
        forall t: nat | t < n ensures Turn(t, P) < n { TurnBelow(t, P); }
        forall t: nat | t < P ensures Turn(t, P) == t { TurnFirstLap(t, P); }
        assert forall t: nat :: t < P && t < n ==> (Drawable(profile, t) <==> profile.platforms[t].formatMix != []);
      }
    }
  }

  /**
   * Which item stands where: the pillars in order, each with its slots in one stretch; the platforms in
   * turn; the format with the largest share of the platform's mix, and the message that names both.
   */
  lemma PlanItems(profile: Profile, count: nat, j: nat, t: nat)
    requires WellFormed(profile) && PlanOf(profile, count).Ok? && j < |profile.pillars|
    ensures |Allocation(Weights(profile.pillars), count)| == |profile.pillars|
    ensures var alloc, items := Allocation(Weights(profile.pillars), count), PlanOf(profile, count).value;
      Sum(alloc[..j]) <= t < Sum(alloc[..j]) + alloc[j] ==>
        && profile.platforms != [] && t < |items|
        && items[t].pillar == profile.pillars[j].name
        && items[t].businessId == profile.businessId
        && items[t].keyMessage == profile.pillars[j].name + " for " + profile.businessId
        && DrawnFrom(items[t], profile.platforms[t % |profile.platforms|])
  {
    AllocationShape(Weights(profile.pillars), count);
    var alloc, items := Allocation(Weights(profile.pillars), count), PlanOf(profile, count).value;
    SlotsLength(profile.pillars, alloc, j);
    if Sum(alloc[..j]) <= t < Sum(alloc[..j]) + alloc[j] {
      SlotsOfPillar(profile.pillars, alloc, |alloc|, j);
      assert PlanSlots(profile, count)[t] == profile.pillars[j].name;
      assert Drawable(profile, t);
      ItemInTurn(profile, count, t);
      var laps := TurnIsRemainder(t, |profile.platforms|);
    }
  }

  lemma {:induction false} TurnBelow(t: nat, P: nat)
    requires P > 0
    ensures Turn(t, P) <= t
  {
    if t > 0 { TurnBelow(t - 1, P); }
  }

  lemma {:induction false} TurnFirstLap(t: nat, P: nat)
    requires t < P
    ensures Turn(t, P) == t
  {
    if t > 0 { TurnFirstLap(t - 1, P); }
  }

  // ---------------------------------------------------------------- platform rotation

  /** How many of the first n slots of the rotation land on position p of P. */
  function Usage(n: nat, P: nat, p: nat): nat
    requires p < P
  {
    if n == 0 then 0 else Usage(n - 1, P, p) + (if Turn(n - 1, P) == p then 1 else 0)
  }

  lemma {:induction false} UsageBalanced(n: nat, P: nat, p: nat, q: nat)
    requires p < q < P
    ensures Usage(n, P, p) == Usage(n, P, q) + (if p < Turn(n, P) <= q then 1 else 0)
  {
    if n > 0 { UsageBalanced(n - 1, P, p, q); }
  }

  /** The platforms a plan uses, in item order. */
  function PlatformsOf(items: seq<PlanItem>): seq<string> {
    seq(|items|, i requires 0 <= i < |items| => items[i].platform)
  }

  function PillarsOf(items: seq<PlanItem>): seq<string> {
    seq(|items|, i requires 0 <= i < |items| => items[i].pillar)
  }

  ghost predicate DistinctPlatforms(profile: Profile) {
    forall p, q :: 0 <= p < q < |profile.platforms| ==> profile.platforms[p].name != profile.platforms[q].name
  }

  function Named(name: string): string -> bool {
    (x: string) => x == name
  }

  lemma {:induction false} RotationCounts(profile: Profile, names: seq<string>, p: nat)
    requires profile.platforms != [] && DistinctPlatforms(profile) && p < |profile.platforms|
    requires forall t :: 0 <= t < |names| ==> names[t] == profile.platforms[Turn(t, |profile.platforms|)].name
    ensures Count(names, Named(profile.platforms[p].name)) == Usage(|names|, |profile.platforms|, p)
  {
    if names != [] {
      var n := |names| - 1;
      RotationCounts(profile, names[..n], p);
    }
  }

  /**
   * Item t of a plan is drawn from the platform whose turn it is, with that platform's top format, and
   * any two positions of the platform list have equally many turns, give or take one, earlier ones
   * first.
   */
  lemma PlatformsBalanced(profile: Profile, count: nat, p: nat, q: nat)
    requires WellFormed(profile) && PlanOf(profile, count).Ok? && p < q < |profile.platforms|
    ensures var items, P := PlanOf(profile, count).value, |profile.platforms|;
      && Usage(|items|, P, q) <= Usage(|items|, P, p) <= Usage(|items|, P, q) + 1
      && forall t: nat {:trigger DrawnFrom(items[t], profile.platforms[Turn(t, P)])} :: t < |items| ==>
           DrawnFrom(items[t], profile.platforms[Turn(t, P)])
  {
    var items, P := PlanOf(profile, count).value, |profile.platforms|;
    UsageBalanced(|items|, P, p, q);
    forall t: nat | t < |items| ensures DrawnFrom(items[t], profile.platforms[Turn(t, P)]) {
      ItemInTurn(profile, count, t);
    }
  }

  predicate DrawnFrom(item: PlanItem, platform: PlatformConfig) {
    platform.formatMix != [] && item.platform == platform.name && item.format == TopFormat(platform.formatMix).format
  }

  lemma ItemInTurn(profile: Profile, count: nat, t: nat)
    requires WellFormed(profile) && PlanOf(profile, count).Ok? && t < |PlanOf(profile, count).value|
    ensures profile.platforms != []
    ensures DrawnFrom(PlanOf(profile, count).value[t], profile.platforms[Turn(t, |profile.platforms|)])
  {
    assert Drawable(profile, t);
  }

  /** If the platforms have different names, each name is used equally often, give or take one. */
  lemma PlatformNamesBalanced(profile: Profile, count: nat, p: nat, q: nat)
    requires WellFormed(profile) && PlanOf(profile, count).Ok?
    requires DistinctPlatforms(profile) && p < q < |profile.platforms|
    ensures var used := PlatformsOf(PlanOf(profile, count).value);
      var x, y := Count(used, Named(profile.platforms[p].name)), Count(used, Named(profile.platforms[q].name));
      y <= x <= y + 1
  {
    var items := PlanOf(profile, count).value;
    var n, P := |items|, |profile.platforms|;
    RotationCounts(profile, PlatformsOf(items), p);
    RotationCounts(profile, PlatformsOf(items), q);
    UsageBalanced(n, P, p, q);
  }

  // ---------------------------------------------------------------- optimization

  /** Scale one pillar's weight; every pillar of that name is scaled. */
  function Reweight(profile: Profile, pillarName: string, factor: real): Profile {
    profile.(pillars := seq(|profile.pillars|, i requires 0 <= i < |profile.pillars| =>
      var p := profile.pillars[i];
      if p.name == pillarName then Pillar(p.name, p.weight * factor) else p))
  }

  /** What an experiment's decision does to the profile. */
  function Optimize(profile: Profile, action: Action, challenger: string): Profile {
    match action
    case Scale => Reweight(profile, challenger, SCALE_FACTOR)
    case Kill => Reweight(profile, challenger, KILL_FACTOR)
    case _ => profile
  }

  /**
   * A SCALE makes the weight of each of the challenger's pillars half as large again, a KILL half as
   * large; every other weight, the names, the platforms and the business stay, and so does everything
   * under the other decisions.
   */
  lemma OptimizeWeights(profile: Profile, action: Action, challenger: string)
    ensures var next := Optimize(profile, action, challenger);
      && next.businessId == profile.businessId && next.platforms == profile.platforms
      && |next.pillars| == |profile.pillars|
      && (action.Pivot? || action.Continue? ==> next == profile)
      && forall i :: 0 <= i < |profile.pillars| ==>
           var p, q := profile.pillars[i], next.pillars[i];
           && q.name == p.name
           && (p.name != challenger ==> q.weight == p.weight)
           && (p.name == challenger && action.Scale? ==> 2.0 * q.weight == 3.0 * p.weight)
           && (p.name == challenger && action.Kill? ==> 2.0 * q.weight == p.weight)
  {}

  function NameMask(pillars: seq<Pillar>, name: string): seq<bool> {
    seq(|pillars|, i requires 0 <= i < |pillars| => pillars[i].name == name)
  }

  lemma ReweightScales(profile: Profile, name: string, factor: real)
    ensures Weights(Reweight(profile, name, factor).pillars)
         == Scaled(Weights(profile.pillars), NameMask(profile.pillars, name), factor)
    ensures NameMask(Reweight(profile, name, factor).pillars, name) == NameMask(profile.pillars, name)
  {
    var mask := NameMask(profile.pillars, name);
    forall i | 0 <= i < |profile.pillars|
      ensures Weights(Reweight(profile, name, factor).pillars)[i]
           == Reweighted(Weights(profile.pillars)[i], mask[i], factor)
    {}
  }

  lemma {:induction false} GroupSumSnoc(s: seq<int>, mask: seq<bool>, x: int, b: bool)
    requires |s| == |mask|
    ensures GroupSum(s + [x], mask + [b]) == GroupSum(s, mask) + (if b then x else 0)
  {
    if s != [] {
      assert (s + [x])[1..] == s[1..] + [x] && (mask + [b])[1..] == mask[1..] + [b];
      GroupSumSnoc(s[1..], mask[1..], x, b);
    } else {
      assert (s + [x])[1..] == [] && (mask + [b])[1..] == [];
    }
  }

  lemma {:induction false} RepeatCount(x: string, n: nat, y: string)
    ensures Count(Repeat(x, n), Named(y)) == if x == y then n else 0
  {
    if n > 0 {
      assert Repeat(x, n)[..n - 1] == Repeat(x, n - 1);
      RepeatCount(x, n - 1, y);
    }
  }

  lemma {:induction false} SlotsCount(pillars: seq<Pillar>, alloc: seq<int>, n: nat, name: string)
    requires Allotted(pillars, alloc) && n <= |alloc|
    ensures Count(Slots(pillars, alloc, n), Named(name)) == GroupSum(alloc[..n], NameMask(pillars, name)[..n])
  {
    if n > 0 {
      var mask := NameMask(pillars, name);
      SlotsCount(pillars, alloc, n - 1, name);
      RepeatCount(pillars[n - 1].name, alloc[n - 1], name);
      var before, own := Slots(pillars, alloc, n - 1), Repeat(pillars[n - 1].name, alloc[n - 1]);
      assert Slots(pillars, alloc, n) == before + own;
      CountConcat(before, own, Named(name));
      assert alloc[..n] == alloc[..n - 1] + [alloc[n - 1]];
      assert mask[..n] == mask[..n - 1] + [mask[n - 1]];
      GroupSumSnoc(alloc[..n - 1], mask[..n - 1], alloc[n - 1], mask[n - 1]);
    }
  }

  /** The items a plan gives to the pillars of one name. */
  ghost function SlotsFor(profile: Profile, count: nat, name: string): nat
    requires WellFormed(profile) && PlanOf(profile, count).Ok?
  {
    Count(PillarsOf(PlanOf(profile, count).value), Named(name))
  }

  lemma SlotsForIs(profile: Profile, count: nat, name: string)
    requires WellFormed(profile) && PlanOf(profile, count).Ok?
    ensures |Allocation(Weights(profile.pillars), count)| == |NameMask(profile.pillars, name)|
    ensures SlotsFor(profile, count, name)
      == GroupSum(Allocation(Weights(profile.pillars), count), NameMask(profile.pillars, name))
  {
    AllocationShape(Weights(profile.pillars), count);
    var items := PlanOf(profile, count).value;
    assert PillarsOf(items) == PlanSlots(profile, count);
    var alloc, mask := Allocation(Weights(profile.pillars), count), NameMask(profile.pillars, name);
    SlotsCount(profile.pillars, alloc, |alloc|, name);
    assert alloc[..|alloc|] == alloc && mask[..|alloc|] == mask;
  }

  /**
   * A SCALE never lowers and a KILL never raises the challenger's slots in the next plan of the
   * same size, whatever the weights, the count and the ties; the other decisions change nothing.
   * The next plan can be drawn iff this one can.
   */
  lemma OptimizationMovesSlots(profile: Profile, action: Action, challenger: string, count: nat)
    requires WellFormed(profile)
    ensures var next := Optimize(profile, action, challenger);
      && WellFormed(next)
      && (PlanOf(next, count).Ok? <==> PlanOf(profile, count).Ok?)
      && (PlanOf(profile, count).Ok? ==>
            && (action.Scale? ==> SlotsFor(profile, count, challenger) <= SlotsFor(next, count, challenger))
            && (action.Kill? ==> SlotsFor(next, count, challenger) <= SlotsFor(profile, count, challenger))
            && (action.Pivot? || action.Continue? ==> PlanOf(next, count) == PlanOf(profile, count)))
  {
    var next := Optimize(profile, action, challenger);
    var weights, mask := Weights(profile.pillars), NameMask(profile.pillars, challenger);
    ReweightScales(profile, challenger, SCALE_FACTOR);
    ReweightScales(profile, challenger, KILL_FACTOR);
    if action.Scale? {
      ScaleUpNeverLoses(weights, mask, SCALE_FACTOR, count);
    } else if action.Kill? {
      ScaleDownNeverGains(weights, mask, KILL_FACTOR, count);
    }
    PlanSize(profile, count);
    PlanSize(next, count);
    if PlanOf(profile, count).Ok? {
      SlotsForIs(profile, count, challenger);
      SlotsForIs(next, count, challenger);
    }
  }

  /** Some pillar has the name, and some pillar has another. */
  ghost predicate Contested(profile: Profile, name: string) {
    && (exists i :: 0 <= i < |profile.pillars| && profile.pillars[i].name == name)
    && (exists j :: 0 <= j < |profile.pillars| && profile.pillars[j].name != name)
  }

  /** A factor other than one moves the slots of a contested name in every plan that is large enough. */
  lemma ReweightMoves(profile: Profile, name: string, factor: real) returns (enough: nat)
    requires WellFormed(profile) && Contested(profile, name) && factor > 0.0 && factor != 1.0
    ensures WellFormed(Reweight(profile, name, factor))
    ensures forall count: nat {:trigger PlanOf(profile, count)} ::
      count >= enough && PlanOf(profile, count).Ok? && PlanOf(Reweight(profile, name, factor), count).Ok? ==>
        var before, after := SlotsFor(profile, count, name), SlotsFor(Reweight(profile, name, factor), count, name);
        if factor > 1.0 then before < after else after < before
  {
    var next := Reweight(profile, name, factor);
    var weights, mask := Weights(profile.pillars), NameMask(profile.pillars, name);
    var i :| 0 <= i < |profile.pillars| && profile.pillars[i].name == name;
    var j :| 0 <= j < |profile.pillars| && profile.pillars[j].name != name;
    ReweightScales(profile, name, factor);
    if factor > 1.0 {
      enough := ScaleUpGains(weights, mask, factor, i, j);
    } else {
      enough := ScaleDownLoses(weights, mask, factor, i, j);
    }
    forall count: nat {:trigger PlanOf(profile, count)}
      | count >= enough && PlanOf(profile, count).Ok? && PlanOf(next, count).Ok?
      ensures var before, after := SlotsFor(profile, count, name), SlotsFor(next, count, name);
        if factor > 1.0 then before < after else after < before
    {
      SlotsForIs(profile, count, name);
      SlotsForIs(next, count, name);
      assert |Allocation(weights, count)| == |mask|;
    }
  }

  /**
   * If its name is contested, a SCALE strictly raises and a KILL strictly lowers the challenger's slots
   * in every plan that is large enough. If not, no decision moves them in any plan.
   */
  lemma OptimizationBites(profile: Profile, action: Action, challenger: string) returns (enough: nat)
    requires WellFormed(profile) && (action.Scale? || action.Kill?)
    ensures WellFormed(Optimize(profile, action, challenger))
    ensures forall count: nat {:trigger PlanOf(profile, count)} ::
      PlanOf(profile, count).Ok? && PlanOf(Optimize(profile, action, challenger), count).Ok? ==>
        var before := SlotsFor(profile, count, challenger);
        var after := SlotsFor(Optimize(profile, action, challenger), count, challenger);
        && (Contested(profile, challenger) && count >= enough ==>
              if action.Scale? then before < after else after < before)
        && (!Contested(profile, challenger) ==> after == before)
  {
    var factor := if action.Scale? then SCALE_FACTOR else KILL_FACTOR;
    var next := Reweight(profile, challenger, factor);
    assert next == Optimize(profile, action, challenger);
    OptimizationMovesSlots(profile, action, challenger, 0);
    if Contested(profile, challenger) {
      enough := ReweightMoves(profile, challenger, factor);
    } else {
      enough := 0;
      forall count: nat {:trigger PlanOf(profile, count)} | PlanOf(profile, count).Ok? && PlanOf(next, count).Ok?
        ensures SlotsFor(next, count, challenger) == SlotsFor(profile, count, challenger)
      {
        UncontestedStays(profile, challenger, factor, count);
      }
    }
  }

  lemma UncontestedStays(profile: Profile, name: string, factor: real, count: nat)
    requires WellFormed(profile) && !Contested(profile, name) && WellFormed(Reweight(profile, name, factor))
    requires PlanOf(profile, count).Ok? && PlanOf(Reweight(profile, name, factor), count).Ok?
    ensures SlotsFor(Reweight(profile, name, factor), count, name) == SlotsFor(profile, count, name)
  {
    var next := Reweight(profile, name, factor);
    if exists i :: 0 <= i < |profile.pillars| && profile.pillars[i].name == name {
      AllSlots(profile, count, name);
      AllSlots(next, count, name);
    } else {
      assert next.pillars == profile.pillars;
      assert next == profile;
    }
  }

  /** If every pillar has the name, it gets every item. */
  lemma AllSlots(profile: Profile, count: nat, name: string)
    requires WellFormed(profile) && PlanOf(profile, count).Ok? && profile.pillars != []
    requires forall i :: 0 <= i < |profile.pillars| ==> profile.pillars[i].name == name
    ensures SlotsFor(profile, count, name) == count
  {
    SlotsForIs(profile, count, name);
    AllocationShape(Weights(profile.pillars), count);
    WholeGroup(Allocation(Weights(profile.pillars), count), NameMask(profile.pillars, name));
  }

  lemma {:induction false} WholeGroup(s: seq<int>, mask: seq<bool>)
    requires |s| == |mask| && forall i :: 0 <= i < |mask| ==> mask[i]
    ensures GroupSum(s, mask) == Sum(s)
  {
    if s != [] { WholeGroup(s[1..], mask[1..]); }
  }
}
