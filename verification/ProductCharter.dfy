/**
 * The business charter (src/ab_product/charter.py): an append-only tech identity with an immutable
 * design language, the conformance gate, and the artifact a scaffold declares
 * (src/ab_product/scaffold.py).
 */
module ProductCharter {
  import opened Common
  import opened ProductSlug

  /** Token values are validated to be CSS-safe when they are built; the gates only compare them. */
  datatype DesignTokens = DesignTokens(primary: string, secondary: string, accent: string, neutral: string,
                                       base100: string, radiusRem: real, fontFamily: string, density: string)

  datatype Tech = Tech(stack: string, rules: set<string>, dependencies: set<string>)

  datatype Charter = Charter(businessId: string, version: int, tokens: DesignTokens, tech: Tech)

  const DEFAULT_TECH := Tech("fastapi+daisyui",
    {"business_id_tenancy", "ports_and_stubs", "single_governed_ingress"},
    {"fastapi", "uvicorn", "jinja2", "pydantic", "psycopg"})

  predicate Valid(c: Charter) {
    IsSlug(c.businessId) && c.version >= 1
  }

  function NewCharter(businessId: string, version: int, tokens: DesignTokens, tech: Tech): Option<Charter> {
    if EnsureSlug(businessId).Ok? && version >= 1 then Some(Charter(businessId, version, tokens, tech)) else None
  }

  // ---------------------------------------------------------------- extension

  datatype Addition = Addition(dependencies: set<string>, rules: set<string>)

  function Extend(c: Charter, add: Addition): Charter {
    Charter(c.businessId, c.version + 1, c.tokens,
            Tech(c.tech.stack, c.tech.rules + add.rules, c.tech.dependencies + add.dependencies))
  }

  function ExtendAll(c: Charter, adds: seq<Addition>): Charter
    decreases |adds|
  {
    if adds == [] then c else ExtendAll(Extend(c, adds[0]), adds[1..])
  }

  predicate IsConsistentExtension(before: Charter, after: Charter) {
    && after.businessId == before.businessId
    && after.version > before.version
    && after.tokens == before.tokens
    && before.tech.rules <= after.tech.rules
    && before.tech.dependencies <= after.tech.dependencies
  }

  /** What any number of extensions does: exactly their rules and their dependencies are added. */
  lemma {:induction false} ExtendAllIs(c: Charter, adds: seq<Addition>)
    ensures var d := ExtendAll(c, adds);
      && d.businessId == c.businessId && d.tokens == c.tokens && d.tech.stack == c.tech.stack
      && d.version == c.version + |adds|
      && (forall x :: x in d.tech.rules <==> x in c.tech.rules || exists i :: 0 <= i < |adds| && x in adds[i].rules)
      && (forall x :: x in d.tech.dependencies <==>
            x in c.tech.dependencies || exists i :: 0 <= i < |adds| && x in adds[i].dependencies)
      && c.tech.rules <= d.tech.rules && c.tech.dependencies <= d.tech.dependencies
      && (Valid(c) ==> Valid(d))
    decreases |adds|
  {
    if adds != [] {
      ExtendAllIs(Extend(c, adds[0]), adds[1..]);
    }
  }

  function Blank(n: nat): seq<Addition> {
    if n == 0 then [] else [Addition({}, {})] + Blank(n - 1)
  }

  lemma {:induction false} BlankAdds(c: Charter, n: nat)
    ensures ExtendAll(c, Blank(n)) == c.(version := c.version + n)
    decreases n
  {
    if n > 0 {
      assert Blank(n)[1..] == Blank(n - 1) && Blank(n)[0] == Addition({}, {});
      BlankAdds(Extend(c, Addition({}, {})), n - 1);
      assert c.tech.rules + {} == c.tech.rules && c.tech.dependencies + {} == c.tech.dependencies;
    }
  }

  /**
   * The consistency check is exactly reachability by `extend`, except that it does not compare the
   * stack: a charter passes iff, given the earlier stack, one or more extensions lead to it.
   */
  lemma ConsistentIffExtended(before: Charter, after: Charter) returns (adds: seq<Addition>)
    ensures IsConsistentExtension(before, after) <==>
      adds != [] && ExtendAll(before, adds) == after.(tech := after.tech.(stack := before.tech.stack))
    ensures !IsConsistentExtension(before, after) ==>
      forall other :: other != [] ==> ExtendAll(before, other) != after
  {
    if IsConsistentExtension(before, after) {
      var n := after.version - before.version - 1;
      var all := Addition(after.tech.dependencies, after.tech.rules);
      adds := [all] + Blank(n);
      assert adds[1..] == Blank(n);
      BlankAdds(Extend(before, all), n);
      assert before.tech.rules + after.tech.rules == after.tech.rules;
      assert before.tech.dependencies + after.tech.dependencies == after.tech.dependencies;
    } else {
      adds := [];
      forall other: seq<Addition> | other != [] ensures ExtendAll(before, other) != after {
        ExtendAllIs(before, other);
      }
    }
  }

  /** A changed stack alone slips through the check although no extension makes it. */
  lemma RestackedIsConsistent(c: Charter, stack: string)
    requires stack != c.tech.stack
    ensures var d := c.(version := c.version + 1, tech := c.tech.(stack := stack));
      IsConsistentExtension(c, d) && forall adds :: ExtendAll(c, adds) != d
  {
    var d := c.(version := c.version + 1, tech := c.tech.(stack := stack));
    forall adds: seq<Addition> ensures ExtendAll(c, adds) != d {
      ExtendAllIs(c, adds);
    }
  }

  // ---------------------------------------------------------------- conformance

  datatype Artifact = Artifact(themeName: string, dependencies: set<string>, rules: set<string>, charterVersion: int)

  datatype Violation =
    | WrongTheme(theme: string)
    | ForbiddenDependency(name: string)
    | MissingRule(name: string)
    | BadVersion

  predicate Conformant(a: Artifact, c: Charter) {
    && a.themeName == c.businessId
    && a.dependencies <= c.tech.dependencies
    && c.tech.rules <= a.rules
    && 1 <= a.charterVersion <= c.version
  }

  method SortedOf(names: set<string>) returns (sorted: seq<string>)
    ensures SortedNames(sorted) && forall x :: x in sorted <==> x in names
  {
    sorted := [];
    var rest := names;
    while rest != {}
      invariant SortedNames(sorted) && rest <= names
      invariant forall x :: x in sorted <==> x in names && x !in rest
      invariant forall x, y :: x in sorted && y in rest ==> LexLess(x, y)
      decreases rest
    {
      LeastExists(rest);
      var least :| least in rest && IsLeast(rest, least);
      sorted := sorted + [least];
      rest := rest - {least};
    }
  }

  predicate IsLeast(names: set<string>, x: string) {
    x in names && forall y :: y in names && y != x ==> LexLess(x, y)
  }

  lemma LeastOfTwo(names: set<string>, a: string, b: string)
    requires a in names && IsLeast(names - {a}, b)
    ensures IsLeast(names, if LexLess(a, b) then a else b)
  {
    LexTotal(a, b);
    forall y | y in names && y != a && y != b ensures LexLess(b, y) && (LexLess(a, b) ==> LexLess(a, y)) {
      assert y in names - {a};
      if LexLess(a, b) { LexTransitive(a, b, y); }
    }
  }

  lemma {:induction false} LeastExists(names: set<string>)
    requires names != {}
    ensures exists x :: IsLeast(names, x)
    decreases names
  {
    var a :| a in names;
    if names - {a} == {} {
      assert names == {a};
      assert IsLeast(names, a);
    } else {
      LeastExists(names - {a});
      var b :| IsLeast(names - {a}, b);
      LeastOfTwo(names, a, b);
    }
  }

  /** Theme first, then forbidden dependencies, then missing rules, each sorted by name, then the version. */
  predicate InOrder(v: Violation, w: Violation) {
    match (v, w)
    case (WrongTheme(_), _) => !w.WrongTheme?
    case (ForbiddenDependency(x), ForbiddenDependency(y)) => LexLess(x, y)
    case (ForbiddenDependency(_), _) => w.MissingRule? || w.BadVersion?
    case (MissingRule(x), MissingRule(y)) => LexLess(x, y)
    case (MissingRule(_), _) => w.BadVersion?
    case (BadVersion, _) => false
  }

  ghost predicate Orderly(violations: seq<Violation>) {
    forall i, j :: 0 <= i < j < |violations| ==> InOrder(violations[i], violations[j])
  }

  lemma OneMore(violations: seq<Violation>, v: Violation)
    requires Orderly(violations) && forall i :: 0 <= i < |violations| ==> InOrder(violations[i], v)
    ensures Orderly(violations + [v])
  {}

  /**
   * The report is clean iff the artifact conforms, and names exactly what is wrong: the theme, each
   * forbidden dependency, each missing rule, the version.
   */
  method CharterConformance(a: Artifact, c: Charter) returns (violations: seq<Violation>)
    ensures violations == [] <==> Conformant(a, c)
    ensures WrongTheme(c.businessId) in violations <==> a.themeName != c.businessId
    ensures forall d :: ForbiddenDependency(d) in violations <==> d in a.dependencies && d !in c.tech.dependencies
    ensures forall r :: MissingRule(r) in violations <==> r in c.tech.rules && r !in a.rules
    ensures BadVersion in violations <==> !(1 <= a.charterVersion <= c.version)
    ensures Orderly(violations)
  {
    violations := [];
    if a.themeName != c.businessId {
      violations := violations + [WrongTheme(c.businessId)];
    }
    var forbidden := SortedOf(a.dependencies - c.tech.dependencies);
    for k := 0 to |forbidden|
      invariant WrongTheme(c.businessId) in violations <==> a.themeName != c.businessId
      invariant forall v :: v in violations ==> v.WrongTheme? || v.ForbiddenDependency?
      invariant violations != [] ==> !Conformant(a, c)
      invariant forall d :: ForbiddenDependency(d) in violations <==> d in forbidden[..k]
      invariant Orderly(violations)
    {
      assert forbidden[k] in forbidden;
      BehindForbidden(violations, forbidden, k);
      OneMore(violations, ForbiddenDependency(forbidden[k]));
      violations := violations + [ForbiddenDependency(forbidden[k])];
      assert forbidden[..k + 1] == forbidden[..k] + [forbidden[k]];
    }
    assert forbidden[..|forbidden|] == forbidden;
    var missing := SortedOf(c.tech.rules - a.rules);
    for k := 0 to |missing|
      invariant WrongTheme(c.businessId) in violations <==> a.themeName != c.businessId
      invariant forall d :: ForbiddenDependency(d) in violations <==> d in forbidden
      invariant forall r :: MissingRule(r) in violations <==> r in missing[..k]
      invariant forall v :: v in violations ==> v != BadVersion
      invariant violations != [] ==> !Conformant(a, c)
      invariant Orderly(violations)
    {
      assert missing[k] in missing;
      BehindMissing(violations, missing, k);
      OneMore(violations, MissingRule(missing[k]));
      violations := violations + [MissingRule(missing[k])];
      assert missing[..k + 1] == missing[..k] + [missing[k]];
    }
    assert missing[..|missing|] == missing;
    if !(1 <= a.charterVersion <= c.version) {
      BehindAll(violations);
      OneMore(violations, BadVersion);
      violations := violations + [BadVersion];
    }
    NoViolations(violations, a, c);
  }

  lemma BehindForbidden(violations: seq<Violation>, forbidden: seq<string>, k: nat)
    requires SortedNames(forbidden) && k < |forbidden|
    requires forall v :: v in violations ==> v.WrongTheme? || v.ForbiddenDependency?
    requires forall d :: ForbiddenDependency(d) in violations <==> d in forbidden[..k]
    ensures forall i :: 0 <= i < |violations| ==> InOrder(violations[i], ForbiddenDependency(forbidden[k]))
  {
    forall i | 0 <= i < |violations| ensures InOrder(violations[i], ForbiddenDependency(forbidden[k])) {
      var v := violations[i];
      assert v in violations;
      if v.ForbiddenDependency? {
        var j :| 0 <= j < k && forbidden[..k][j] == v.name;
        assert forbidden[j] == v.name;
      }
    }
  }

  lemma BehindMissing(violations: seq<Violation>, missing: seq<string>, k: nat)
    requires SortedNames(missing) && k < |missing|
    requires forall v :: v in violations ==> v != BadVersion
    requires forall r :: MissingRule(r) in violations <==> r in missing[..k]
    ensures forall i :: 0 <= i < |violations| ==> InOrder(violations[i], MissingRule(missing[k]))
  {
    forall i | 0 <= i < |violations| ensures InOrder(violations[i], MissingRule(missing[k])) {
      var v := violations[i];
      assert v in violations;
      if v.MissingRule? {
        var j :| 0 <= j < k && missing[..k][j] == v.name;
        assert missing[j] == v.name;
      }
    }
  }

  lemma BehindAll(violations: seq<Violation>)
    requires forall v :: v in violations ==> v != BadVersion
    ensures forall i :: 0 <= i < |violations| ==> InOrder(violations[i], BadVersion)
  {
    forall i | 0 <= i < |violations| ensures InOrder(violations[i], BadVersion) {
      assert violations[i] in violations;
    }
  }

  lemma NoViolations(violations: seq<Violation>, a: Artifact, c: Charter)
    requires forall d :: ForbiddenDependency(d) in violations <==> d in a.dependencies && d !in c.tech.dependencies
    requires forall r :: MissingRule(r) in violations <==> r in c.tech.rules && r !in a.rules
    requires WrongTheme(c.businessId) in violations <==> a.themeName != c.businessId
    requires BadVersion in violations <==> !(1 <= a.charterVersion <= c.version)
    ensures violations == [] ==> Conformant(a, c)
  {}

  // ---------------------------------------------------------------- scaffolding

  const SCAFFOLD_DEPS: set<string> := {"fastapi", "jinja2"}

  datatype ScaffoldPlan = ScaffoldPlan(businessId: string, serviceName: string, artifact: Artifact)

  function Scaffold(c: Charter): ScaffoldPlan {
    ScaffoldPlan(c.businessId, ServiceName(c.businessId),
                 Artifact(c.businessId, SCAFFOLD_DEPS, c.tech.rules, c.version))
  }

  /** A scaffold on any charter grown from the default tech conforms to it. */
  lemma ScaffoldConforms(c: Charter, adds: seq<Addition>)
    requires Valid(c) && c.tech == DEFAULT_TECH
    ensures Conformant(Scaffold(ExtendAll(c, adds)).artifact, ExtendAll(c, adds))
    ensures var plan := Scaffold(ExtendAll(c, adds));
      && plan.businessId == c.businessId && plan.serviceName == ServiceName(c.businessId)
      && plan.artifact.charterVersion == c.version + |adds|
      && plan.artifact.rules == ExtendAll(c, adds).tech.rules
  {
    ExtendAllIs(c, adds);
  }

  /** An older scaffold still conforms after later extensions iff they added no rule. */
  lemma OlderScaffoldConforms(c: Charter, adds: seq<Addition>)
    requires Valid(c) && SCAFFOLD_DEPS <= c.tech.dependencies
    ensures Conformant(Scaffold(c).artifact, ExtendAll(c, adds)) <==> ExtendAll(c, adds).tech.rules == c.tech.rules
  {
    ExtendAllIs(c, adds);
  }

  /**
   * Promotion: a charter can be founded on a minted id iff the lowered title has a letter or a digit,
   * and then the scaffold is never refused for non-conformance.
   */
  lemma PromotionConforms(lower: char -> string, title: string, tokens: DesignTokens)
    ensures var founded := NewCharter(Classify(lower, title, None).businessId, 1, tokens, DEFAULT_TECH);
      && (founded.Some? <==> HasAlnum(Text.Lower(lower, title)))
      && (founded.Some? ==>
            && founded.value == Charter(Slug(lower, title), 1, tokens, DEFAULT_TECH)
            && Conformant(Scaffold(founded.value).artifact, founded.value))
  {
    SlugAccepted(lower, title);
  }
}
