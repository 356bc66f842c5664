/**
 * Minting a business id from a title (src/ab_product/classify.py), the slug every charter demands
 * (src/ab_product/charter.py) and the service name made from it (src/ab_product/scaffold.py).
 */
module ProductSlug {
  import opened Common
  import opened Text

  predicate IsAlnum(c: char) {
    'a' <= c <= 'z' || '0' <= c <= '9'
  }

  predicate HasAlnum(t: string) {
    exists k :: 0 <= k < |t| && IsAlnum(t[k])
  }

  /** What follows the leading run of other characters. */
  function SkipRun(t: string): (r: string)
    ensures |r| <= |t| && (t != "" && !IsAlnum(t[0]) ==> |r| < |t|)
  {
    if t == "" || IsAlnum(t[0]) then t else SkipRun(t[1..])
  }

  /** Every maximal run of other characters becomes one hyphen. */
  function Hyphenated(t: string): string
    decreases |t|
  {
    if t == "" then ""
    else if IsAlnum(t[0]) then [t[0]] + Hyphenated(t[1..])
    else "-" + Hyphenated(SkipRun(t))
  }

  function StripLeft(t: string): string {
    if t != "" && t[0] == '-' then StripLeft(t[1..]) else t
  }

  function StripRight(t: string): string {
    if t != "" && t[|t| - 1] == '-' then StripRight(t[..|t| - 1]) else t
  }

  function Slug(lower: Lowering, text: string): string {
    StripRight(StripLeft(Hyphenated(Lower(lower, text))))
  }

  /** What `ensure_slug` accepts. */
  predicate IsSlug(t: string) {
    && t != "" && IsAlnum(t[0])
    && forall k :: 0 <= k < |t| ==> IsAlnum(t[k]) || t[k] == '-'
  }

  function EnsureSlug(t: string): Result<string, string> {
    if IsSlug(t) then Ok(t) else Err(t)
  }

  // ---------------------------------------------------------------- the normal form

  predicate Hyphens(t: string) {
    && (forall k :: 0 <= k < |t| ==> IsAlnum(t[k]) || t[k] == '-')
    && (forall k :: 0 <= k < |t| - 1 ==> IsAlnum(t[k]) || IsAlnum(t[k + 1]))
  }

  /** Letters and digits with single hyphens strictly between them, or nothing. */
  predicate NormalForm(t: string) {
    Hyphens(t) && (t != "" ==> IsAlnum(t[0]) && IsAlnum(t[|t| - 1]))
  }

  lemma {:induction false} SkipRunIs(t: string)
    ensures var r := SkipRun(t);
      && (r == "" || IsAlnum(r[0]))
      && (HasAlnum(r) <==> HasAlnum(t))
  {
    if t != "" && !IsAlnum(t[0]) {
      SkipRunIs(t[1..]);
      AlnumTail(t);
    }
  }

  lemma AlnumTail(t: string)
    requires t != ""
    ensures HasAlnum(t) <==> IsAlnum(t[0]) || HasAlnum(t[1..])
  {}

  lemma {:induction false} HyphenatedIs(t: string)
    ensures var r := Hyphenated(t);
      && Hyphens(r)
      && (HasAlnum(r) <==> HasAlnum(t))
      && (t != "" && IsAlnum(t[0]) ==> r != "" && r[0] == t[0])
      && (t == "" ==> r == "")
    decreases |t|
  {
    if t != "" {
      var r := Hyphenated(t);
      if IsAlnum(t[0]) {
        HyphenatedIs(t[1..]);
        AlnumTail(t);
        assert r[1..] == Hyphenated(t[1..]);
      } else {
        SkipRunIs(t);
        HyphenatedIs(SkipRun(t));
        assert r[1..] == Hyphenated(SkipRun(t));
      }
      AlnumTail(r);
    }
  }

  lemma {:induction false} StripLeftIs(t: string)
    requires Hyphens(t)
    ensures var r := StripLeft(t); Hyphens(r) && (HasAlnum(r) <==> HasAlnum(t)) && (r == "" || IsAlnum(r[0]))
  {}

  lemma {:induction false} StripRightIs(t: string)
    requires Hyphens(t) && (t == "" || IsAlnum(t[0]))
    ensures var r := StripRight(t); NormalForm(r) && (r != "" <==> t != "")
  {}

  /**
   * A minted id is in normal form, and `ensure_slug` accepts it iff the lowered title has a letter a-z
   * or a digit; otherwise it is empty.
   */
  lemma SlugAccepted(lower: Lowering, title: string)
    ensures var s := Slug(lower, title);
      NormalForm(s) && (IsSlug(s) <==> HasAlnum(Lower(lower, title))) && (!IsSlug(s) ==> s == "")
  {
    var t := Lower(lower, title);
    HyphenatedIs(t);
    StripLeftIs(Hyphenated(t));
    var u := StripLeft(Hyphenated(t));
    StripRightIs(u);
    if u != "" { assert IsAlnum(u[0]); }
  }

  // ---------------------------------------------------------------- what a slug keeps of its title

  /** A letter or digit of a text, and whether it stands right after another one. */
  datatype Mark = Mark(c: char, joined: bool)

  /** The letters and digits of a text, in order; `joined` says whether one stood right before it. */
  function MarksFrom(joined: bool, t: string): seq<Mark>
    decreases |t|
  {
    if t == "" then []
    else if IsAlnum(t[0]) then [Mark(t[0], joined)] + MarksFrom(true, t[1..])
    else MarksFrom(false, t[1..])
  }

  function Marks(t: string): seq<Mark> {
    MarksFrom(false, t)
  }

  lemma {:induction false} SkippedMarks(joined: bool, t: string)
    requires t != "" && !IsAlnum(t[0])
    ensures MarksFrom(joined, t) == MarksFrom(false, SkipRun(t))
    decreases |t|
  {
    if t[1..] != "" && !IsAlnum(t[1..][0]) { SkippedMarks(false, t[1..]); }
  }

  lemma {:induction false} HyphenatedMarks(joined: bool, t: string)
    ensures MarksFrom(joined, Hyphenated(t)) == MarksFrom(joined, t)
    decreases |t|
  {
    if t != "" {
      var r := Hyphenated(t);
      if IsAlnum(t[0]) {
        HyphenatedMarks(true, t[1..]);
        assert r[1..] == Hyphenated(t[1..]);
      } else {
        HyphenatedMarks(false, SkipRun(t));
        SkippedMarks(joined, t);
        assert r[1..] == Hyphenated(SkipRun(t));
      }
    }
  }

  lemma {:induction false} StripLeftMarks(t: string)
    ensures Marks(StripLeft(t)) == Marks(t)
  {
    if t != "" && t[0] == '-' { StripLeftMarks(t[1..]); }
  }

  lemma {:induction false} TrailingHyphen(joined: bool, t: string)
    requires t != "" && t[|t| - 1] == '-'
    ensures MarksFrom(joined, t[..|t| - 1]) == MarksFrom(joined, t)
    decreases |t|
  {
    if |t| > 1 {
      TrailingHyphen(IsAlnum(t[0]), t[1..]);
      assert t[1..][..|t| - 2] == t[..|t| - 1][1..];
    }
  }

  lemma {:induction false} StripRightMarks(t: string)
    ensures Marks(StripRight(t)) == Marks(t)
  {
    if t != "" && t[|t| - 1] == '-' {
      StripRightMarks(t[..|t| - 1]);
      TrailingHyphen(false, t);
    }
  }

  /** A text in normal form is told by its letters and digits and by which of them are joined. */
  lemma {:induction false} MarksTell(joined: bool, a: string, b: string)
    requires Hyphens(a) && Hyphens(b) && MarksFrom(joined, a) == MarksFrom(joined, b)
    requires a != "" ==> IsAlnum(a[|a| - 1])
    requires b != "" ==> IsAlnum(b[|b| - 1])
    requires !joined ==> (a != "" ==> IsAlnum(a[0])) && (b != "" ==> IsAlnum(b[0]))
    ensures a == b
    decreases |a|
  {
    if a == "" || b == "" {
      if a != "" { HasMark(joined, a); }
      if b != "" { HasMark(joined, b); }
    } else if IsAlnum(a[0]) && IsAlnum(b[0]) {
      assert MarksFrom(joined, a)[1..] == MarksFrom(true, a[1..]) && MarksFrom(joined, a)[0].c == a[0];
      assert MarksFrom(joined, b)[1..] == MarksFrom(true, b[1..]) && MarksFrom(joined, b)[0].c == b[0];
      MarksTell(true, a[1..], b[1..]);
      assert a == [a[0]] + a[1..] && b == [b[0]] + b[1..];
    } else {
      FirstMark(joined, a);
      FirstMark(joined, b);
      assert !IsAlnum(a[0]) && !IsAlnum(b[0]);
      MarksTell(false, a[1..], b[1..]);
      assert a == [a[0]] + a[1..] && b == [b[0]] + b[1..];
    }
  }

  lemma {:induction false} HasMark(joined: bool, t: string)
    requires t != "" && IsAlnum(t[|t| - 1])
    ensures MarksFrom(joined, t) != []
    decreases |t|
  {
    if |t| > 1 && !IsAlnum(t[0]) { HasMark(false, t[1..]); }
  }

  lemma FirstMark(joined: bool, t: string)
    requires Hyphens(t) && t != "" && IsAlnum(t[|t| - 1])
    ensures MarksFrom(joined, t) != []
    ensures MarksFrom(joined, t)[0].joined <==> joined && IsAlnum(t[0])
  {
    if !IsAlnum(t[0]) { assert IsAlnum(t[1]); }
  }

  /**
   * The minted id is the one text in normal form that has the letters and digits of the lowered title,
   * in order, two of them side by side iff they are so in the title: so wherever anything else stood
   * between two of them there is a hyphen, and nowhere else.
   */
  lemma SlugKeepsWords(lower: Lowering, title: string, other: string)
    ensures var s := Slug(lower, title);
      && NormalForm(s) && Marks(s) == Marks(Lower(lower, title))
      && (NormalForm(other) && Marks(other) == Marks(Lower(lower, title)) ==> other == s)
  {
    var t := Lower(lower, title);
    SlugAccepted(lower, title);
    HyphenatedMarks(false, t);
    StripLeftMarks(Hyphenated(t));
    StripRightMarks(StripLeft(Hyphenated(t)));
    if NormalForm(other) && Marks(other) == Marks(t) { MarksTell(false, other, Slug(lower, title)); }
  }

  // ---------------------------------------------------------------- titles and fixed points

  predicate AsciiAlnum(c: char) {
    'a' <= c <= 'z' || 'A' <= c <= 'Z' || '0' <= c <= '9'
  }

  /** One ASCII letter or digit in the title is enough. */
  lemma {:induction false} AsciiTitleLowers(lower: Lowering, title: string, k: nat)
    requires LowersAscii(lower) && k < |title| && AsciiAlnum(title[k])
    ensures HasAlnum(Lower(lower, title))
  {
    var head, rest := lower(title[0]), Lower(lower, title[1..]);
    if k == 0 {
      assert IsAlnum((head + rest)[0]);
    } else {
      AsciiTitleLowers(lower, title[1..], k - 1);
      var j :| 0 <= j < |rest| && IsAlnum(rest[j]);
      assert IsAlnum((head + rest)[|head| + j]);
    }
  }

  lemma {:induction false} LowerFixed(lower: Lowering, t: string)
    requires LowersAscii(lower) && Hyphens(t)
    ensures Lower(lower, t) == t
  {
    if t != "" {
      LowerFixed(lower, t[1..]);
      assert lower(t[0]) == [t[0]];
    }
  }

  lemma {:induction false} HyphenatedFixed(t: string)
    requires Hyphens(t)
    ensures Hyphenated(t) == t
  {
    if t != "" {
      HyphenatedFixed(t[1..]);
      if t[0] == '-' { LoneHyphen(t); }
    }
  }

  lemma LoneHyphen(t: string)
    requires Hyphens(t) && t != "" && t[0] == '-'
    ensures SkipRun(t) == t[1..]
  {}

  /** The slugs minted are exactly the texts minting leaves alone; so minting twice is minting once. */
  lemma SlugFixedPoints(lower: Lowering, t: string)
    requires LowersAscii(lower)
    ensures Slug(lower, t) == t <==> NormalForm(t)
    ensures Slug(lower, Slug(lower, t)) == Slug(lower, t)
  {
    SlugAccepted(lower, t);
    Fixed(lower, Slug(lower, t));
    if NormalForm(t) { Fixed(lower, t); }
  }

  lemma Fixed(lower: Lowering, t: string)
    requires LowersAscii(lower) && NormalForm(t)
    ensures Slug(lower, t) == t
  {
    LowerFixed(lower, t);
    HyphenatedFixed(t);
  }

  // ---------------------------------------------------------------- classification

  datatype Kind = NewBusiness | Extension

  datatype Classification = Classification(kind: Kind, businessId: string)

  /** An initiative that names a business extends it; otherwise an id is minted from the title. */
  function Classify(lower: Lowering, title: string, businessId: Option<string>): Classification {
    if businessId.Some? && businessId.value != "" then Classification(Extension, businessId.value)
    else Classification(NewBusiness, Slug(lower, title))
  }

  /** An initiative that names a business extends that one; any other founds one under the slug of its title. */
  lemma ClassifyIs(lower: Lowering, title: string, businessId: Option<string>)
    ensures var c := Classify(lower, title, businessId);
      && (c.kind == Extension <==> exists id :: id != "" && businessId == Some(id))
      && (c.kind == Extension ==> businessId == Some(c.businessId))
      && (c.kind == NewBusiness ==> NormalForm(c.businessId) && Marks(c.businessId) == Marks(Lower(lower, title)))
  {
    SlugKeepsWords(lower, title, "");
  }

  // ---------------------------------------------------------------- service names

  function Underscored(t: string): string {
    seq(|t|, k requires 0 <= k < |t| => if t[k] == '-' then '_' else t[k])
  }

  function ServiceName(businessId: string): string {
    "venture_" + Underscored(businessId)
  }

  /** A service name is an identifier: letters, digits and underscores, each character of the id in its place. */
  lemma ServiceNameIs(businessId: string)
    requires IsSlug(businessId)
    ensures var name := ServiceName(businessId);
      && |name| == |"venture_"| + |businessId| && "venture_" <= name
      && forall k :: 0 <= k < |businessId| ==>
           var c := name[|"venture_"| + k];
           if IsAlnum(businessId[k]) then c == businessId[k] else c == '_'
  {
    var u := Underscored(businessId);
    assert ServiceName(businessId) == "venture_" + u;
    forall k | 0 <= k < |businessId| ensures ServiceName(businessId)[|"venture_"| + k] == u[k] {}
  }

  /** Distinct businesses get distinct services. */
  lemma ServiceNamesDistinct(a: string, b: string)
    requires IsSlug(a) && IsSlug(b) && ServiceName(a) == ServiceName(b)
    ensures a == b
  {
    var u, v := Underscored(a), Underscored(b);
    assert u == ServiceName(a)[8..] && v == ServiceName(b)[8..];
    forall k | 0 <= k < |a| ensures a[k] == b[k] {
      assert u[k] == v[k];
    }
  }
}
