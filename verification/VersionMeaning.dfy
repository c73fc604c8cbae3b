/** What the texts of versions are and which versions a range takes, component by component. */
module VersionMeaning {
  import opened MortSyntax
  import opened SemVer

  // ----- texts -----

  lemma {:induction false} CharactersAre(c: char)
    ensures IsDigit(c) <==> c in "0123456789"
    ensures IdChar(c) <==> c in "0123456789" || c in "ABCDEFGHIJKLMNOPQRSTUVWXYZ" || c in "abcdefghijklmnopqrstuvwxyz" || c == '-'
  {
  }

  function Decimal(n: nat): (s: string)
    ensures s != ""
  {
    (if n < 10 then "" else Decimal(n / 10)) + ["0123456789"[n % 10]]
  }

  lemma {:induction false} DecimalIsGood(n: nat)
    ensures GoodNumber(Decimal(n)) && ToNat(Decimal(n)) == n
    ensures n > 0 ==> Decimal(n)[0] != '0'
  {
    var s := Decimal(n);
    if n >= 10 { DecimalIsGood(n / 10); }
    assert s[..|s| - 1] == if n < 10 then "" else Decimal(n / 10);
  }

  /** A number without a leading zero is spelled in one way. */
  lemma {:induction false} DecimalIsOnly(s: string)
    requires GoodNumber(s)
    ensures s == Decimal(ToNat(s))
  {
    DecimalIsGood(ToNat(s));
    NumberSpelling(s, Decimal(ToNat(s)));
  }

  function Join(ids: seq<string>, c: char): string
    requires ids != []
  {
    if |ids| == 1 then ids[0] else ids[0] + [c] + Join(ids[1..], c)
  }

  predicate Without(ids: seq<string>, c: char)
  {
    forall i | 0 <= i < |ids| :: c !in ids[i]
  }

  lemma {:induction false} FindIs(s: string, c: char, n: nat)
    requires n <= |s| && c !in s[..n] && (n < |s| ==> s[n] == c)
    ensures Find(s, c) == n
  {
    if n > 0 {
      assert s[1..][..n - 1] == s[..n][1..];
      assert s[0] == s[..n][0];
      FindIs(s[1..], c, n - 1);
    }
  }

  lemma {:induction false} SplitJoin(ids: seq<string>, c: char)
    requires ids != [] && Without(ids, c)
    ensures Split(Join(ids, c), c) == ids
  {
    var s := Join(ids, c);
    if |ids| == 1 {
      assert s[..|s|] == s;
      FindIs(s, c, |s|);
    } else {
      var n := |ids[0]|;
      assert s[..n] == ids[0] && s[n] == c && s[n + 1..] == Join(ids[1..], c);
      FindIs(s, c, n);
      SplitJoin(ids[1..], c);
    }
  }

  lemma {:induction false} JoinSplit(s: string, c: char)
    ensures Split(s, c) != [] && Join(Split(s, c), c) == s && Without(Split(s, c), c)
    decreases |s|
  {
    var n := Find(s, c);
    if n == |s| {
      assert s[..n] == s;
    } else {
      JoinSplit(s[n + 1..], c);
      var ids := Split(s[n + 1..], c);
      assert Split(s, c) == [s[..n]] + ids && (([s[..n]] + ids)[1..]) == ids;
      assert s == s[..n] + [c] + s[n + 1..];
    }
  }

  function Core(v: Version): string
  {
    Join([Decimal(v.major), Decimal(v.minor), Decimal(v.patch)], '.')
  }

  lemma {:induction false} ThreeJoined(a: string, b: string, c: string)
    ensures Join([a, b, c], '.') == a + ['.'] + (b + ['.'] + c)
  {
    assert [a, b, c][1..] == [b, c] && [b, c][1..] == [c];
    assert Join([c], '.') == c;
    assert Join([b, c], '.') == b + ['.'] + c;
  }

  /** major.minor.patch, then the prerelease behind a hyphen. */
  function Front(v: Version): string
  {
    Core(v) + (if v.pre == [] then "" else "-" + Join(v.pre, '.'))
  }

  /** The build metadata behind a plus sign. */
  function Show(v: Version, build: seq<string>): string
  {
    Front(v) + (if build == [] then "" else "+" + Join(build, '.'))
  }

  lemma {:induction false} JoinChars(ids: seq<string>, c: char)
    requires ids != [] && GoodIds(ids)
    ensures forall i | 0 <= i < |Join(ids, c)| :: Join(ids, c)[i] == c || IdChar(Join(ids, c)[i])
    ensures Join(ids, c) != ""
  {
    if |ids| > 1 { JoinChars(ids[1..], c); }
  }

  lemma {:induction false} GoodIdsWithout(ids: seq<string>)
    requires GoodIds(ids)
    ensures Without(ids, '.')
  {
  }

  lemma {:induction false} CoreIs(v: Version)
    ensures Split(Core(v), '.') == [Decimal(v.major), Decimal(v.minor), Decimal(v.patch)]
    ensures forall i | 0 <= i < |Core(v)| :: Core(v)[i] == '.' || IsDigit(Core(v)[i])
  {
    var a, b, c := Decimal(v.major), Decimal(v.minor), Decimal(v.patch);
    DecimalIsGood(v.major);
    DecimalIsGood(v.minor);
    DecimalIsGood(v.patch);
    hide Decimal, ToNat;
    var ids := [a, b, c];
    assert Without(ids, '.');
    SplitJoin(ids, '.');
    ThreeJoined(a, b, c);
  }

  function ReadFront(core: string): Option<Version>
  {
    var dash := Find(core, '-');
    var numbers := Split(core[..dash], '.');
    var pre := if dash < |core| then Split(core[dash + 1..], '.') else [];
    if |numbers| == 3 && GoodNumber(numbers[0]) && GoodNumber(numbers[1]) && GoodNumber(numbers[2]) && GoodPre(pre)
    then Some(Version(ToNat(numbers[0]), ToNat(numbers[1]), ToNat(numbers[2]), pre))
    else None
  }

  /** What a text without the final line feed is read as. */
  function ReadLine(line: string): Option<Version>
  {
    var plus := Find(line, '+');
    if plus < |line| && !GoodIds(Split(line[plus + 1..], '.')) then None else ReadFront(line[..plus])
  }

  lemma {:induction false} ParseReads(text: string)
    ensures Parse(text) == ReadLine(if text != "" && text[|text| - 1] == '\n' then text[..|text| - 1] else text)
  {
  }

  lemma {:induction false} FrontReads(v: Version)
    requires WellFormed(v)
    ensures ReadFront(Front(v)) == Some(v) && '+' !in Front(v)
  {
    hide Decimal, ToNat, Split, Find, GoodNumber;
    FrontParts(v);
    DecimalIsGood(v.major);
    DecimalIsGood(v.minor);
    DecimalIsGood(v.patch);
    if v.pre != [] {
      GoodIdsWithout(v.pre);
      SplitJoin(v.pre, '.');
    }
    CoreIs(v);
    hide Core, Join, GoodPre;
  }

  lemma {:induction false} FrontParts(v: Version)
    requires WellFormed(v)
    ensures var core, dash := Front(v), Find(Front(v), '-');
      && core[..dash] == Core(v) && (dash < |core| <==> v.pre != []) && (v.pre != [] ==> core[dash + 1..] == Join(v.pre, '.'))
      && '+' !in core
  {
    hide Decimal, ToNat;
    var core := Front(v);
    CoreIs(v);
    if v.pre != [] { JoinChars(v.pre, '.'); }
    hide Core, Join, GoodPre;
    assert core[..|Core(v)|] == Core(v);
    FindIs(core, '-', |Core(v)|);
    if v.pre != [] { assert core[|Core(v)| + 1..] == Join(v.pre, '.'); }
  }

  lemma {:induction false} LineSplits(core: string, more: string)
    requires '+' !in core
    ensures ReadLine(core) == ReadFront(core)
    ensures ReadLine(core + ("+" + more)) == if GoodIds(Split(more, '.')) then ReadFront(core) else None
  {
    hide ReadFront, GoodIds, Split;
    var line := core + ("+" + more);
    assert core[..|core|] == core;
    FindIs(core, '+', |core|);
    assert line[..|core|] == core && line[|core| + 1..] == more;
    FindIs(line, '+', |core|);
  }

  lemma {:induction false} ShownReads(v: Version, build: seq<string>)
    requires WellFormed(v) && GoodIds(build)
    ensures ReadLine(Show(v, build)) == Some(v)
  {
    hide ReadFront, ReadLine, Front, Split, Join;
    FrontReads(v);
    if build == [] {
      LineSplits(Front(v), "");
      assert Show(v, build) == Front(v);
    } else {
      LineSplits(Front(v), Join(build, '.'));
      GoodIdsWithout(build);
      SplitJoin(build, '.');
      assert Show(v, build) == Front(v) + ("+" + Join(build, '.'));
    }
  }

  lemma {:induction false} ReadIsShown(line: string) returns (build: seq<string>)
    requires ReadLine(line).Some?
    ensures GoodIds(build) && line == Show(ReadLine(line).value, build)
  {
    hide ReadFront, Front, GoodIds, Split, Join;
    var plus := Find(line, '+');
    var core := line[..plus];
    FrontIsShown(core);
    if plus < |line| {
      build := Split(line[plus + 1..], '.');
      JoinSplit(line[plus + 1..], '.');
      assert line == core + ("+" + line[plus + 1..]);
    } else {
      build := [];
      NoIds();
      assert line == core + "";
    }
  }

  lemma NoIds()
    ensures GoodIds([])
  {
  }

  lemma {:induction false} FrontIsShown(core: string)
    requires ReadFront(core).Some?
    ensures core == Front(ReadFront(core).value)
  {
    hide Decimal, ToNat, Split, GoodPre;
    var v := ReadFront(core).value;
    var dash := Find(core, '-');
    var numbers := Split(core[..dash], '.');
    DecimalIsOnly(numbers[0]);
    DecimalIsOnly(numbers[1]);
    DecimalIsOnly(numbers[2]);
    assert numbers == [Decimal(v.major), Decimal(v.minor), Decimal(v.patch)];
    JoinSplit(core[..dash], '.');
    hide Core, GoodNumber, Join;
    assert core[..dash] == Core(v) by { CoreIsJoin(v); }
    if dash < |core| {
      JoinSplit(core[dash + 1..], '.');
      assert core == core[..dash] + "-" + core[dash + 1..];
    } else {
      assert core[..dash] == core;
    }
  }

  lemma {:induction false} CoreIsJoin(v: Version)
    ensures Core(v) == Join([Decimal(v.major), Decimal(v.minor), Decimal(v.patch)], '.')
  {
  }

  lemma {:induction false} ShownEnds(v: Version, build: seq<string>)
    requires WellFormed(v) && GoodIds(build)
    ensures var s := Show(v, build); s != "" && s[|s| - 1] != '\n'
  {
    CoreIs(v);
    if v.pre != [] { JoinChars(v.pre, '.'); }
    if build != [] { JoinChars(build, '.'); }
  }

  /** A text is read as v exactly if it is the spelling of v, with any well-formed build metadata and
      at most one line feed behind it. */
  lemma {:induction false} ParseIff(text: string, v: Version)
    ensures Parse(text) == Some(v) <==>
      WellFormed(v) && exists build :: GoodIds(build) && (text == Show(v, build) || text == Show(v, build) + "\n")
  {
    hide ReadLine, Show, Parse;
    ParseReads(text);
    var line := if text != "" && text[|text| - 1] == '\n' then text[..|text| - 1] else text;
    if Parse(text) == Some(v) {
      ParsedIsWellFormed(text);
      var build := ReadIsShown(line);
      assert text == line || text == line + "\n";
    }
    if WellFormed(v) {
      forall build | GoodIds(build) && (text == Show(v, build) || text == Show(v, build) + "\n") ensures Parse(text) == Some(v) {
        ShownEnds(v, build);
        assert line == Show(v, build);
        ShownReads(v, build);
      }
    }
  }

  // ----- ranges -----

  /** The left-most number that is not zero, and all before it, are those of `lower`. */
  predicate KeepsLeading(lower: Version, v: Version)
  {
    && v.major == lower.major
    && (lower.major == 0 ==> v.minor == lower.minor)
    && (lower.major == 0 && lower.minor == 0 ==> v.patch == lower.patch)
  }

  /** A prerelease of the first version behind the range. */
  predicate JustBehindCaret(lower: Version, v: Version)
  {
    v.pre != [] && (v.major, v.minor, v.patch) ==
      if lower.major != 0 then (lower.major + 1, 0, 0)
      else if lower.minor != 0 then (0, lower.minor + 1, 0)
      else (0, 0, lower.patch + 1)
  }

  /** A caret range is the versions from its base on that keep the left-most number that is not zero,
      and the prereleases of the first version that does not. */
  lemma {:induction false} CaretMeans(lower: Version, v: Version)
    requires WellFormed(lower) && WellFormed(v)
    ensures SatisfiesClause(v, Caret(lower)) <==>
      !Precedes(v, lower) && (KeepsLeading(lower, v) || JustBehindCaret(lower, v))
  {
    CompareIsPrecedence(v, lower);
    CompareIsPrecedence(v, CaretUpper(lower));
    NoneBelowNormal(v.pre);
  }

  lemma {:induction false} NoneBelowNormal(pre: seq<string>)
    ensures !PrePrecedes(pre, [])
  {
  }

  /** A tilde range keeps major and minor, and has the prereleases of the next minor version. */
  lemma {:induction false} TildeMeans(lower: Version, v: Version)
    requires WellFormed(lower) && WellFormed(v)
    ensures SatisfiesClause(v, Tilde(lower)) <==>
      !Precedes(v, lower)
      && ((v.major == lower.major && v.minor == lower.minor)
          || (v.pre != [] && (v.major, v.minor, v.patch) == (lower.major, lower.minor + 1, 0)))
  {
    CompareIsPrecedence(v, lower);
    CompareIsPrecedence(v, TildeUpper(lower));
    NoneBelowNormal(v.pre);
  }

  /** So a caret range can take a version of the next major number: exactly its first prereleases. */
  lemma {:induction false} CaretTakesNextMajorIff(lower: Version, v: Version)
    requires WellFormed(lower) && WellFormed(v) && lower.major > 0 && v.major != lower.major
    ensures SatisfiesClause(v, Caret(lower)) <==> v.major == lower.major + 1 && v.minor == 0 && v.patch == 0 && v.pre != []
  {
    CaretMeans(lower, v);
  }

  lemma {:induction false} WildcardMeans(v: Version, major: nat, minor: nat)
    ensures SatisfiesClause(v, Wildcard(major, None)) <==> v.major == major
    ensures SatisfiesClause(v, Wildcard(major, Some(minor))) <==> v.major == major && v.minor == minor
  {
  }

  lemma {:induction false} ComparisonMeans(v: Version, target: Version)
    requires WellFormed(v) && WellFormed(target)
    ensures SatisfiesClause(v, Comparison(Eq, target)) <==> v == target
    ensures SatisfiesClause(v, Comparison(Lt, target)) <==> Precedes(v, target)
    ensures SatisfiesClause(v, Comparison(Gt, target)) <==> Precedes(target, v)
    ensures SatisfiesClause(v, Comparison(Le, target)) <==> v == target || Precedes(v, target)
    ensures SatisfiesClause(v, Comparison(Ge, target)) <==> v == target || Precedes(target, v)
  {
    CompareIsPrecedence(v, target);
  }
}
