/** Package versions: parsing, comparison, ranges and selection, against the precedence rules of
    clause 11 of SemVer 2.0.0. */
module SemVer {
  import opened MortSyntax

  datatype Version = Version(major: nat, minor: nat, patch: nat, pre: seq<string>)

  predicate IsDigit(c: char) { '0' <= c <= '9' }

  predicate IdChar(c: char) { IsDigit(c) || 'a' <= c <= 'z' || 'A' <= c <= 'Z' || c == '-' }

  predicate AllDigits(s: string) { s != "" && forall i | 0 <= i < |s| :: IsDigit(s[i]) }

  predicate LeadingZero(s: string) { |s| > 1 && s[0] == '0' }

  function DigitValue(c: char): nat
    requires IsDigit(c)
  {
    c as int - '0' as int
  }

  function ToNat(s: string): nat
    requires forall i | 0 <= i < |s| :: IsDigit(s[i])
  {
    if s == "" then 0 else 10 * ToNat(s[..|s| - 1]) + DigitValue(s[|s| - 1])
  }

  // ----- parsing -----

  function Find(s: string, c: char): (n: nat)
    ensures n <= |s| && c !in s[..n] && (n < |s| ==> s[n] == c)
  {
    if s == "" || s[0] == c then 0
    else
      var n := Find(s[1..], c);
      assert s[..n + 1] == [s[0]] + s[1..][..n];
      n + 1
  }

  function Split(s: string, c: char): seq<string>
    decreases |s|
  {
    var n := Find(s, c);
    if n == |s| then [s] else [s[..n]] + Split(s[n + 1..], c)
  }

  predicate GoodNumber(s: string) { AllDigits(s) && !LeadingZero(s) }

  predicate GoodIds(ids: seq<string>)
  {
    forall i | 0 <= i < |ids| :: ids[i] != "" && forall j | 0 <= j < |ids[i]| :: IdChar(ids[i][j])
  }

  /** A numeric prerelease identifier has no leading zero. */
  predicate GoodPre(ids: seq<string>)
  {
    GoodIds(ids) && forall i | 0 <= i < |ids| :: AllDigits(ids[i]) ==> !LeadingZero(ids[i])
  }

  /** `parse_semver`; the pattern's end also matches before one final line feed, and build metadata
      is checked and dropped. */
  function Parse(text: string): Option<Version>
  {
    var line := if text != "" && text[|text| - 1] == '\n' then text[..|text| - 1] else text;
    var plus := Find(line, '+');
    var core := line[..plus];
    var dash := Find(core, '-');
    var numbers := Split(core[..dash], '.');
    var pre := if dash < |core| then Split(core[dash + 1..], '.') else [];
    if |numbers| == 3 && GoodNumber(numbers[0]) && GoodNumber(numbers[1]) && GoodNumber(numbers[2])
       && GoodPre(pre) && (plus < |line| ==> GoodIds(Split(line[plus + 1..], '.')))
    then Some(Version(ToNat(numbers[0]), ToNat(numbers[1]), ToNat(numbers[2]), pre))
    else None
  }

  predicate WellFormed(v: Version) { GoodPre(v.pre) }

  lemma ParsedIsWellFormed(text: string)
    requires Parse(text).Some?
    ensures WellFormed(Parse(text).value)
  {
  }

  // ----- comparison, as the code does it -----

  function Sign(n: int): int { if n < 0 then -1 else if n > 0 then 1 else 0 }

  predicate TextBelow(a: string, b: string)
  {
    if b == "" then false
    else if a == "" then true
    else a[0] < b[0] || (a[0] == b[0] && TextBelow(a[1..], b[1..]))
  }

  function CompareIds(a: string, b: string): int
  {
    if a == b then 0
    else if AllDigits(a) && AllDigits(b) then (if ToNat(a) < ToNat(b) then -1 else 1)
    else if AllDigits(a) != AllDigits(b) then (if AllDigits(a) then -1 else 1)
    else if TextBelow(a, b) then -1 else 1
  }

  /** The identifiers from index i on. */
  function ComparePre(a: seq<string>, b: seq<string>, i: nat): int
    decreases |a| - i
  {
    if i >= |a| || i >= |b| then Sign(|a| - |b|)
    else
      var c := CompareIds(a[i], b[i]);
      if c != 0 then c else ComparePre(a, b, i + 1)
  }

  function Compare(a: Version, b: Version): int
  {
    if a.major != b.major then Sign(a.major - b.major)
    else if a.minor != b.minor then Sign(a.minor - b.minor)
    else if a.patch != b.patch then Sign(a.patch - b.patch)
    else if a.pre == [] || b.pre == [] then (if a.pre == b.pre then 0 else if a.pre != [] then -1 else 1)
    else ComparePre(a.pre, b.pre, 0)
  }

  /** `_compare_semver`, with its loops. */
  method CompareSemver(a: Version, b: Version) returns (r: int)
    ensures r == Compare(a, b)
  {
    var left, right := [a.major, a.minor, a.patch], [b.major, b.minor, b.patch];
    for index := 0 to 3
      invariant forall j | 0 <= j < index :: left[j] == right[j]
    {
      assert index > 0 ==> left[0] == right[0];
      assert index > 1 ==> left[1] == right[1];
      assert index == 0 || index == 1 || index == 2;
      if left[index] != right[index] { return if left[index] < right[index] then -1 else 1; }
    }
    assert left[0] == right[0] && left[1] == right[1] && left[2] == right[2];
    if a.pre == [] || b.pre == [] { return if a.pre == b.pre then 0 else if a.pre != [] then -1 else 1; }
    var i := 0;
    while i < |a.pre| && i < |b.pre|
      invariant i <= |a.pre| && i <= |b.pre| && ComparePre(a.pre, b.pre, i) == ComparePre(a.pre, b.pre, 0)
      decreases |a.pre| - i
    {
      var x, y := a.pre[i], b.pre[i];
      if x != y { return CompareIds(x, y); }
      i := i + 1;
    }
    r := Sign(|a.pre| - |b.pre|);
  }

  // ----- clause 11 of SemVer 2.0.0, independently -----

  /** 11.4.1 to 11.4.3: numeric identifiers by value, others by ASCII order, numeric below others. */
  ghost predicate IdPrecedes(a: string, b: string)
  {
    if AllDigits(a) then (if AllDigits(b) then ToNat(a) < ToNat(b) else true)
    else !AllDigits(b) && AsciiPrecedes(a, b)
  }

  /** The first difference decides; a proper prefix is lower. */
  ghost predicate AsciiPrecedes(a: string, b: string)
  {
    || (|a| < |b| && a == b[..|a|])
    || (exists i :: 0 <= i < |a| && i < |b| && a[..i] == b[..i] && a[i] < b[i])
  }

  /** 11.4: identifiers from left to right until one differs; 11.4.4: more fields are higher. */
  ghost predicate PrePrecedes(a: seq<string>, b: seq<string>)
  {
    || (|a| < |b| && a == b[..|a|])
    || (exists i :: 0 <= i < |a| && i < |b| && a[..i] == b[..i] && IdPrecedes(a[i], b[i]))
  }

  /** 11.2: major, minor, patch numerically; 11.3: a prerelease is below its normal version. */
  ghost predicate Precedes(a: Version, b: Version)
  {
    || a.major < b.major
    || (a.major == b.major && a.minor < b.minor)
    || (a.major == b.major && a.minor == b.minor && a.patch < b.patch)
    || (a.major == b.major && a.minor == b.minor && a.patch == b.patch
        && a.pre != [] && (b.pre == [] || PrePrecedes(a.pre, b.pre)))
  }

  // ----- identifiers -----

  lemma {:induction false} AsciiIsText(a: string, b: string)
    ensures TextBelow(a, b) <==> AsciiPrecedes(a, b)
  {
    if b == "" {
    } else if a == "" {
      assert b[..0] == "";
    } else {
      AsciiIsText(a[1..], b[1..]);
      if a[0] < b[0] {
        assert a[..0] == b[..0];
      } else if a[0] == b[0] {
        AsciiShift(a, b);
      }
    }
  }

  lemma {:induction false} AsciiShift(a: string, b: string)
    requires a != "" && b != "" && a[0] == b[0]
    ensures AsciiPrecedes(a, b) <==> AsciiPrecedes(a[1..], b[1..])
  {
    var p, q := a[1..], b[1..];
    if |p| < |q| && p == q[..|p|] { assert a == [a[0]] + p && b[..|a|] == [b[0]] + q[..|p|]; }
    if |a| < |b| && a == b[..|a|] { assert p == q[..|p|]; }
    if i :| 0 <= i < |p| && i < |q| && p[..i] == q[..i] && p[i] < q[i] {
      assert a[..i + 1] == [a[0]] + p[..i] && b[..i + 1] == [b[0]] + q[..i];
      assert a[i + 1] < b[i + 1];
    }
    if i :| 0 <= i < |a| && i < |b| && a[..i] == b[..i] && a[i] < b[i] {
      assert i > 0;
      assert p[..i - 1] == a[..i][1..] && q[..i - 1] == b[..i][1..];
      assert p[i - 1] < q[i - 1];
    }
  }

  lemma {:induction false} TextTotal(a: string, b: string)
    ensures a != b ==> TextBelow(a, b) != TextBelow(b, a)
    ensures a == b ==> !TextBelow(a, b)
  {
    if a != "" && b != "" && a[0] == b[0] {
      TextTotal(a[1..], b[1..]);
      assert a == [a[0]] + a[1..] && b == [b[0]] + b[1..];
    }
  }

  lemma {:induction false} TextTransitive(a: string, b: string, c: string)
    requires TextBelow(a, b) && TextBelow(b, c)
    ensures TextBelow(a, c)
  {
    if a != "" && a[0] == b[0] == c[0] { TextTransitive(a[1..], b[1..], c[1..]); }
  }

  /** Without leading zeros a number has one spelling. */
  lemma {:induction false} NumberSpelling(a: string, b: string)
    requires AllDigits(a) && AllDigits(b) && !LeadingZero(a) && !LeadingZero(b) && ToNat(a) == ToNat(b)
    ensures a == b
    decreases |a| + |b|
  {
    var x, y := a[|a| - 1], b[|b| - 1];
    assert x == y && ToNat(a[..|a| - 1]) == ToNat(b[..|b| - 1]);
    if |a| > 1 { PositiveNumber(a[..|a| - 1]); }
    if |b| > 1 { PositiveNumber(b[..|b| - 1]); }
    assert |a| > 1 <==> |b| > 1;
    if |a| > 1 { NumberSpelling(a[..|a| - 1], b[..|b| - 1]); }
    assert a == a[..|a| - 1] + [x] && b == b[..|b| - 1] + [y];
  }

  lemma {:induction false} PositiveNumber(a: string)
    requires AllDigits(a) && a[0] != '0'
    ensures ToNat(a) > 0
  {
    if |a| > 1 { PositiveNumber(a[..|a| - 1]); }
  }

  predicate GoodId(a: string) { AllDigits(a) ==> !LeadingZero(a) }

  lemma {:induction false} IdsAgree(a: string, b: string)
    requires GoodId(a) && GoodId(b)
    ensures CompareIds(a, b) < 0 <==> IdPrecedes(a, b)
    ensures CompareIds(a, b) == 0 <==> a == b
    ensures CompareIds(b, a) == -CompareIds(a, b)
  {
    AsciiIsText(a, b);
    TextTotal(a, b);
    if AllDigits(a) && AllDigits(b) && ToNat(a) == ToNat(b) { NumberSpelling(a, b); }
  }

  lemma {:induction false} IdsTransitive(a: string, b: string, c: string)
    requires GoodId(a) && GoodId(b) && GoodId(c) && CompareIds(a, b) <= 0 && CompareIds(b, c) <= 0
    ensures CompareIds(a, c) <= 0 && (CompareIds(a, c) == 0 ==> a == b == c)
  {
    IdsAgree(a, b);
    IdsAgree(b, c);
    IdsAgree(a, c);
    if a != b && b != c && !AllDigits(a) && !AllDigits(b) && !AllDigits(c) {
      TextTransitive(a, b, c);
      TextTotal(a, c);
      TextTotal(b, c);
    }
  }

  /** Without the leading-zero rule the comparison is no order: two spellings of one number are each
      above the other. Two identifiers are fine exactly if they are not such a pair. */
  lemma {:induction false} LeadingZerosBreakOrder(a: string, b: string)
    ensures CompareIds(b, a) != -CompareIds(a, b) <==> AllDigits(a) && AllDigits(b) && a != b && ToNat(a) == ToNat(b)
    ensures AllDigits(a) && AllDigits(b) && a != b && ToNat(a) == ToNat(b) ==>
      CompareIds(a, b) == 1 && CompareIds(b, a) == 1 && (LeadingZero(a) || LeadingZero(b))
  {
    TextTotal(a, b);
    if AllDigits(a) && AllDigits(b) && ToNat(a) == ToNat(b) && !LeadingZero(a) && !LeadingZero(b) { NumberSpelling(a, b); }
  }

  // ----- prereleases and versions -----

  lemma {:induction false} PreAgree(a: seq<string>, b: seq<string>, i: nat)
    requires GoodPre(a) && GoodPre(b) && i <= |a| && i <= |b| && a[..i] == b[..i]
    ensures ComparePre(a, b, i) < 0 <==> PrePrecedes(a, b)
    ensures ComparePre(a, b, i) == 0 <==> a == b
    ensures ComparePre(b, a, i) == -ComparePre(a, b, i)
    decreases |a| - i
  {
    if i < |a| && i < |b| {
      IdsAgree(a[i], b[i]);
      if a[i] == b[i] {
        assert a[..i + 1] == a[..i] + [a[i]] && b[..i + 1] == b[..i] + [b[i]];
        PreAgree(a, b, i + 1);
      } else {
        FirstDifference(a, b, i);
      }
    } else {
      PrefixOnly(a, b, i);
    }
  }

  /** Where two sequences first differ decides. */
  lemma {:induction false} FirstDifference(a: seq<string>, b: seq<string>, i: nat)
    requires i < |a| && i < |b| && a[..i] == b[..i] && a[i] != b[i] && GoodId(a[i]) && GoodId(b[i])
    ensures PrePrecedes(a, b) <==> IdPrecedes(a[i], b[i])
    ensures a != b
  {
    forall j | i < j <= |a| && j <= |b| ensures a[..j] != b[..j] {
      assert a[..j][i] == a[i] && b[..j][i] == b[i];
    }
    assert a[..|a|] == a;
    forall j | 0 <= j < i ensures !IdPrecedes(a[j], b[j]) {
      assert a[..i][j] == a[j] && b[..i][j] == b[j];
      NotBelowItself(a[j]);
    }
  }

  lemma {:induction false} NotBelowItself(a: string)
    ensures !IdPrecedes(a, a)
  {
    AsciiIsText(a, a);
    TextTotal(a, a);
  }

  lemma {:induction false} PrefixOnly(a: seq<string>, b: seq<string>, i: nat)
    requires i <= |a| && i <= |b| && a[..i] == b[..i] && (i == |a| || i == |b|) && GoodPre(a) && GoodPre(b)
    ensures PrePrecedes(a, b) <==> |a| < |b|
    ensures a == b <==> |a| == |b|
  {
    if |a| == |b| { assert a == a[..i] && b == b[..i]; }
    if |a| < |b| { assert a == a[..i] && b[..|a|] == b[..i]; }
    forall j | 0 <= j < |a| && j < |b| ensures !IdPrecedes(a[j], b[j]) {
      assert a[..i][j] == a[j] && b[..i][j] == b[j];
      NotBelowItself(a[j]);
    }
  }

  lemma {:induction false} PreTransitive(a: seq<string>, b: seq<string>, c: seq<string>, i: nat)
    requires GoodPre(a) && GoodPre(b) && GoodPre(c)
    requires i <= |a| && i <= |b| && i <= |c| && ComparePre(a, b, i) <= 0 && ComparePre(b, c, i) <= 0
    ensures ComparePre(a, c, i) <= 0
    decreases |a| - i
  {
    if i < |a| && i < |b| && i < |c| {
      IdsAgree(a[i], b[i]);
      IdsAgree(b[i], c[i]);
      IdsTransitive(a[i], b[i], c[i]);
      if a[i] == b[i] == c[i] { PreTransitive(a, b, c, i + 1); }
    }
  }

  /** The comparison is exactly clause 11: below, equal and above, and equal only for equal tuples. */
  lemma {:induction false} CompareIsPrecedence(a: Version, b: Version)
    requires WellFormed(a) && WellFormed(b)
    ensures Compare(a, b) < 0 <==> Precedes(a, b)
    ensures Compare(a, b) > 0 <==> Precedes(b, a)
    ensures Compare(a, b) == 0 <==> a == b
    ensures Compare(b, a) == -Compare(a, b)
  {
    assert a.pre[..0] == b.pre[..0];
    PreAgree(a.pre, b.pre, 0);
    PreAgree(b.pre, a.pre, 0);
  }

  lemma {:induction false} CompareIsTransitive(a: Version, b: Version, c: Version)
    requires WellFormed(a) && WellFormed(b) && WellFormed(c) && Compare(a, b) <= 0 && Compare(b, c) <= 0
    ensures Compare(a, c) <= 0
  {
    if a.pre != [] && b.pre != [] && c.pre != []
       && (a.major, a.minor, a.patch) == (b.major, b.minor, b.patch) == (c.major, c.minor, c.patch) {
      PreTransitive(a.pre, b.pre, c.pre, 0);
    }
  }

  // ----- ranges -----

  datatype Relation = Eq | Gt | Ge | Lt | Le

  datatype Clause =
    | Caret(lower: Version)
    | Tilde(lower: Version)
    | Wildcard(major: nat, minor: Option<nat>)
    | Comparison(rel: Relation, target: Version)

  function CaretUpper(lower: Version): Version
  {
    if lower.major > 0 then Version(lower.major + 1, 0, 0, [])
    else if lower.minor > 0 then Version(0, lower.minor + 1, 0, [])
    else Version(0, 0, lower.patch + 1, [])
  }

  function TildeUpper(lower: Version): Version { Version(lower.major, lower.minor + 1, 0, []) }

  predicate SatisfiesClause(v: Version, c: Clause)
  {
    match c
    case Caret(lower) => Compare(v, lower) >= 0 && Compare(v, CaretUpper(lower)) < 0
    case Tilde(lower) => Compare(v, lower) >= 0 && Compare(v, TildeUpper(lower)) < 0
    case Wildcard(major, minor) => v.major == major && (minor.Some? ==> v.minor == minor.value)
    case Comparison(rel, target) =>
      var r := Compare(v, target);
      match rel
      case Eq => r == 0
      case Gt => r > 0
      case Ge => r >= 0
      case Lt => r < 0
      case Le => r <= 0
  }

  predicate Satisfies(v: Version, clauses: seq<Clause>)
  {
    forall i | 0 <= i < |clauses| :: SatisfiesClause(v, clauses[i])
  }

  predicate GoodClause(c: Clause)
  {
    match c
    case Caret(lower) => WellFormed(lower)
    case Tilde(lower) => WellFormed(lower)
    case Wildcard(_, _) => true
    case Comparison(_, target) => WellFormed(target)
  }

  lemma {:induction false} ClauseIsConvex(a: Version, b: Version, c: Version, clause: Clause)
    requires WellFormed(a) && WellFormed(b) && WellFormed(c) && GoodClause(clause)
    requires Compare(a, b) <= 0 && Compare(b, c) <= 0
    requires SatisfiesClause(a, clause) && SatisfiesClause(c, clause)
    ensures SatisfiesClause(b, clause)
  {
    hide ComparePre;
    match clause
    case Caret(lower) => Between(a, b, c, lower, CaretUpper(lower));
    case Tilde(lower) => Between(a, b, c, lower, TildeUpper(lower));
    case Wildcard(_, _) =>
    case Comparison(rel, target) => Between(a, b, c, target, target);
  }

  /** What lies between two versions is on the same side of a bound as they are. */
  lemma {:induction false} Between(a: Version, b: Version, c: Version, low: Version, high: Version)
    requires WellFormed(a) && WellFormed(b) && WellFormed(c) && WellFormed(low) && WellFormed(high)
    requires Compare(a, b) <= 0 && Compare(b, c) <= 0
    ensures Compare(a, low) >= 0 ==> Compare(b, low) >= 0
    ensures Compare(a, low) > 0 ==> Compare(b, low) > 0
    ensures Compare(c, high) < 0 ==> Compare(b, high) < 0
    ensures Compare(c, high) <= 0 ==> Compare(b, high) <= 0
  {
    hide Compare;
    CompareIsPrecedence(a, low);
    CompareIsPrecedence(b, low);
    CompareIsPrecedence(a, b);
    CompareIsPrecedence(b, c);
    CompareIsPrecedence(c, high);
    CompareIsPrecedence(b, high);
    if Compare(b, low) <= 0 { CompareIsTransitive(a, b, low); }
    if Compare(low, a) <= 0 { CompareIsTransitive(low, a, b); }
    if Compare(c, high) <= 0 { CompareIsTransitive(b, c, high); }
    if Compare(high, b) <= 0 { CompareIsTransitive(high, b, c); }
  }

  /** The versions that satisfy a constraint form an interval of the order. */
  lemma {:induction false} ConstraintIsConvex(a: Version, b: Version, c: Version, clauses: seq<Clause>)
    requires WellFormed(a) && WellFormed(b) && WellFormed(c) && forall i | 0 <= i < |clauses| :: GoodClause(clauses[i])
    requires Compare(a, b) <= 0 && Compare(b, c) <= 0 && Satisfies(a, clauses) && Satisfies(c, clauses)
    ensures Satisfies(b, clauses)
  {
    hide Compare, SatisfiesClause;
    forall i | 0 <= i < |clauses| ensures SatisfiesClause(b, clauses[i]) {
      ClauseIsConvex(a, b, c, clauses[i]);
    }
  }

  /** A version satisfies its own caret and tilde range. */
  lemma {:induction false} RangesContainTheirBase(v: Version)
    requires WellFormed(v)
    ensures SatisfiesClause(v, Caret(v)) && SatisfiesClause(v, Tilde(v))
  {
    CompareIsPrecedence(v, v);
  }

  // ----- selection -----

  method SemverSatisfies(v: Version, clauses: seq<Clause>) returns (ok: bool)
    ensures ok <==> Satisfies(v, clauses)
  {
    for i := 0 to |clauses|
      invariant forall j | 0 <= j < i :: SatisfiesClause(v, clauses[j])
    {
      var clause := clauses[i];
      var within := false;
      match clause {
        case Caret(lower) =>
          var low := CompareSemver(v, lower);
          var high := CompareSemver(v, CaretUpper(lower));
          within := low >= 0 && high < 0;
        case Tilde(lower) =>
          var low := CompareSemver(v, lower);
          var high := CompareSemver(v, TildeUpper(lower));
          within := low >= 0 && high < 0;
        case Wildcard(major, minor) => within := v.major == major && (minor.Some? ==> v.minor == minor.value);
        case Comparison(rel, target) =>
          var r := CompareSemver(v, target);
          match rel {
            case Eq => within := r == 0;
            case Gt => within := r > 0;
            case Ge => within := r >= 0;
            case Lt => within := r < 0;
            case Le => within := r <= 0;
          }
      }
      if !within { return false; }
    }
    ok := true;
  }

  predicate AllParse(texts: seq<string>) { forall i | 0 <= i < |texts| :: Parse(texts[i]).Some? }

  /** `select_semver`: a satisfying version that none exceeds, the first of them; none only if no
      version satisfies the constraint. */
  method SelectSemver(texts: seq<string>, clauses: seq<Clause>) returns (best: Option<nat>)
    requires AllParse(texts)
    ensures best.None? <==> forall i | 0 <= i < |texts| :: !Satisfies(Parse(texts[i]).value, clauses)
    ensures best.Some? ==> best.value < |texts| && Satisfies(Parse(texts[best.value]).value, clauses)
    ensures best.Some? ==> forall i | 0 <= i < |texts| && Satisfies(Parse(texts[i]).value, clauses) ::
      var r := Compare(Parse(texts[i]).value, Parse(texts[best.value]).value);
      r <= 0 && (i < best.value ==> r < 0)
  {
    hide Compare, Satisfies, Parse;
    best := None;
    for i := 0 to |texts|
      invariant best.None? <==> forall j | 0 <= j < i :: !Satisfies(Parse(texts[j]).value, clauses)
      invariant best.Some? ==> best.value < i && Satisfies(Parse(texts[best.value]).value, clauses)
      invariant best.Some? ==> forall j | 0 <= j < i && Satisfies(Parse(texts[j]).value, clauses) ::
        var r := Compare(Parse(texts[j]).value, Parse(texts[best.value]).value);
        r <= 0 && (j < best.value ==> r < 0)
    {
      var v := Parse(texts[i]).value;
      var ok := SemverSatisfies(v, clauses);
      if ok {
        ParsedIsWellFormed(texts[i]);
        CompareIsPrecedence(v, v);
        if best.None? {
          best := Some(i);
        } else {
          var b := Parse(texts[best.value]).value;
          ParsedIsWellFormed(texts[best.value]);
          CompareIsPrecedence(v, b);
          var r := CompareSemver(v, b);
          if r > 0 {
            Overtakes(texts, clauses, i, best.value);
            best := Some(i);
          }
        }
      }
    }
  }

  lemma {:induction false} Overtakes(texts: seq<string>, clauses: seq<Clause>, i: nat, b: nat)
    requires AllParse(texts) && b < i < |texts|
    requires Compare(Parse(texts[b]).value, Parse(texts[i]).value) < 0
    requires forall j | 0 <= j < i && Satisfies(Parse(texts[j]).value, clauses) ::
      Compare(Parse(texts[j]).value, Parse(texts[b]).value) <= 0
    ensures forall j | 0 <= j < i && Satisfies(Parse(texts[j]).value, clauses) ::
      Compare(Parse(texts[j]).value, Parse(texts[i]).value) < 0
  {
    hide Compare, Satisfies, Parse;
    forall j | 0 <= j < i && Satisfies(Parse(texts[j]).value, clauses)
      ensures Compare(Parse(texts[j]).value, Parse(texts[i]).value) < 0
    {
      var x, y, z := Parse(texts[j]).value, Parse(texts[b]).value, Parse(texts[i]).value;
      ParsedIsWellFormed(texts[j]);
      ParsedIsWellFormed(texts[b]);
      ParsedIsWellFormed(texts[i]);
      CompareIsTransitive(x, y, z);
      CompareIsPrecedence(x, z);
      CompareIsPrecedence(x, y);
      CompareIsPrecedence(y, z);
    }
  }
}
