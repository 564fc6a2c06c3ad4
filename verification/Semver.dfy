/** Version numbers: parsing, printing and precedence. */
module Semver {
  import opened Prelude
  import opened Text

  datatype Semver = Semver(major: nat, minor: nat, patch: nat, prerelease: seq<string>, raw: string)

  /** The groups of the version pattern: an optional `v`, three numerals, prerelease identifiers. */
  datatype Groups = Groups(v: bool, major: string, minor: string, patch: string, pre: seq<string>)

  // ---- parsing -----------------------------------------------------------

  predicate IsIdentifierChar(c: char) {
    IsDigit(c) || 'A' <= c <= 'Z' || 'a' <= c <= 'z' || c == '-'
  }

  predicate IsIdentifier(s: string) {
    s != "" && forall i :: 0 <= i < |s| ==> IsIdentifierChar(s[i])
  }

  /** The strings the pattern's groups may capture. */
  predicate WellFormed(g: Groups) {
    && NoLeadingZero(g.major) && NoLeadingZero(g.minor) && NoLeadingZero(g.patch)
    && forall i :: 0 <= i < |g.pre| ==> IsIdentifier(g.pre[i])
  }

  function Core(g: Groups): string {
    Join([g.major, g.minor, g.patch], '.')
  }

  /** Everything after the optional `v`. */
  function BodyOf(g: Groups): string {
    if g.pre == [] then Core(g) else Core(g) + ['-'] + Join(g.pre, '.')
  }

  /** The text in which the pattern captures these groups. */
  function TextOf(g: Groups): string {
    if g.v then "v" + BodyOf(g) else BodyOf(g)
  }

  function GroupsOf(v: bool, core: seq<string>, pre: seq<string>): Option<Groups> {
    if |core| == 3 && WellFormed(Groups(v, core[0], core[1], core[2], pre))
    then Some(Groups(v, core[0], core[1], core[2], pre)) else None
  }

  function ParseBody(v: bool, body: string): Option<Groups> {
    var dash := IndexOf(body, '-');
    if dash == |body| then GroupsOf(v, Split(body, '.'), [])
    else GroupsOf(v, Split(body[..dash], '.'), Split(body[dash + 1..], '.'))
  }

  function ParseGroups(t: string): Option<Groups> {
    if t != "" && t[0] == 'v' then ParseBody(true, t[1..]) else ParseBody(false, t)
  }

  function ParseSemver(input: string): Option<Semver> {
    var t := Trim(input);
    match ParseGroups(t)
    case None => None
    case Some(g) => Some(Semver(Value(g.major), Value(g.minor), Value(g.patch), g.pre, t))
  }

  lemma JoinThree(a: string, b: string, c: string, sep: char)
    ensures Join([a, b, c], sep) == a + [sep] + (b + [sep] + c)
  {
    var xs := [a, b, c];
    assert xs[1..] == [b, c] && xs[1..][1..] == [c];
    assert Join([b, c], sep) == b + [sep] + c;
  }

  lemma CoreChars(g: Groups)
    requires WellFormed(g)
    ensures '-' !in Core(g) && Core(g) != "" && Core(g)[0] != 'v'
  {
    JoinThree(g.major, g.minor, g.patch, '.');
    assert Core(g)[0] == g.major[0];
  }

  lemma ParsesItsBody(g: Groups)
    requires WellFormed(g)
    ensures ParseBody(g.v, BodyOf(g)) == Some(g)
  {
    CoreChars(g);
    SplitJoin([g.major, g.minor, g.patch], '.');
    if g.pre == [] {
      IndexOfFirst(Core(g), '-', "");
    } else {
      var rest := Join(g.pre, '.');
      IndexOfFirst(Core(g), '-', rest);
      var body := BodyOf(g);
      assert body[..|Core(g)|] == Core(g) && body[|Core(g)| + 1..] == rest;
      SplitJoin(g.pre, '.');
    }
  }

  lemma ParsesOnlyBody(v: bool, body: string)
    requires ParseBody(v, body).Some?
    ensures var g := ParseBody(v, body).value; WellFormed(g) && g.v == v && BodyOf(g) == body
  {
    var g := ParseBody(v, body).value;
    var dash := IndexOf(body, '-');
    if dash == |body| {
      JoinSplit(body, '.');
      assert Split(body, '.') == [g.major, g.minor, g.patch];
    } else {
      JoinSplit(body[..dash], '.');
      JoinSplit(body[dash + 1..], '.');
      assert Split(body[..dash], '.') == [g.major, g.minor, g.patch];
      assert body == body[..dash] + ['-'] + body[dash + 1..];
    }
  }

  /** Whatever the pattern matches is parsed into its groups ... */
  lemma ParsesItsText(g: Groups)
    requires WellFormed(g)
    ensures ParseGroups(TextOf(g)) == Some(g)
  {
    CoreChars(g);
    ParsesItsBody(g);
    if g.v {
      assert TextOf(g)[1..] == BodyOf(g);
    } else {
      assert TextOf(g)[0] == Core(g)[0];
    }
  }

  /** ... and nothing else is parsed. */
  lemma ParsesOnlyText(t: string)
    requires ParseGroups(t).Some?
    ensures WellFormed(ParseGroups(t).value) && TextOf(ParseGroups(t).value) == t
  {
    if t != "" && t[0] == 'v' {
      ParsesOnlyBody(true, t[1..]);
    } else {
      ParsesOnlyBody(false, t);
    }
  }

  /** A version is accepted exactly when its trimmed text is in the language of the pattern, and then
      by one set of groups only. */
  lemma AcceptsExactly(input: string)
    ensures ParseSemver(input).Some? <==> exists g :: WellFormed(g) && TextOf(g) == Trim(input)
    ensures forall g :: WellFormed(g) && TextOf(g) == Trim(input) ==>
              ParseSemver(input) == Some(Semver(Value(g.major), Value(g.minor), Value(g.patch), g.pre, Trim(input)))
  {
    if ParseSemver(input).Some? {
      ParsesOnlyText(Trim(input));
    }
    forall g | WellFormed(g) && TextOf(g) == Trim(input) ensures ParseGroups(Trim(input)) == Some(g) {
      ParsesItsText(g);
    }
  }

  function Print(v: Semver): string {
    TextOf(Groups(false, Decimal(v.major), Decimal(v.minor), Decimal(v.patch), v.prerelease))
  }

  lemma IdentifiersTrimmed(g: Groups)
    requires WellFormed(g)
    ensures Trimmed(TextOf(g))
  {
    JoinThree(g.major, g.minor, g.patch, '.');
    var t := TextOf(g);
    assert t[0] == 'v' || t[0] == g.major[0];
    if g.pre == [] {
      assert t[|t| - 1] == g.patch[|g.patch| - 1];
    } else {
      JoinEndsInIdentifier(g.pre);
      var j := Join(g.pre, '.');
      assert t[|t| - 1] == j[|j| - 1];
    }
  }

  lemma {:induction false} JoinEndsInIdentifier(pre: seq<string>)
    requires pre != [] && forall i :: 0 <= i < |pre| ==> IsIdentifier(pre[i])
    ensures Join(pre, '.') != "" && IsIdentifierChar(Join(pre, '.')[|Join(pre, '.')| - 1])
  {
    if |pre| > 1 {
      JoinEndsInIdentifier(pre[1..]);
    }
  }

  /** Parsing a printed version gives the version back. */
  lemma PrintRoundTrip(v: Semver)
    requires forall i :: 0 <= i < |v.prerelease| ==> IsIdentifier(v.prerelease[i])
    ensures ParseSemver(Print(v)) == Some(v.(raw := Print(v)))
  {
    var g := Groups(false, Decimal(v.major), Decimal(v.minor), Decimal(v.patch), v.prerelease);
    ValueOfDecimal(v.major);
    ValueOfDecimal(v.minor);
    ValueOfDecimal(v.patch);
    ParsesItsText(g);
    IdentifiersTrimmed(g);
    TrimIsTrimmed(Print(v));
  }

  lemma DecimalsOfGroups(g: Groups)
    requires WellFormed(g)
    ensures Groups(false, Decimal(Value(g.major)), Decimal(Value(g.minor)), Decimal(Value(g.patch)), g.pre) == g.(v := false)
  {
    DecimalOfValue(g.major);
    DecimalOfValue(g.minor);
    DecimalOfValue(g.patch);
  }

  /** Printing a parsed version gives its text back, without the `v`. */
  lemma ParseRoundTrip(input: string)
    requires ParseSemver(input).Some?
    ensures var t := Trim(input); Print(ParseSemver(input).value) == if t != "" && t[0] == 'v' then t[1..] else t
  {
    var t := Trim(input);
    ParsesOnlyText(t);
    var g := ParseGroups(t).value;
    DecimalsOfGroups(g);
    assert TextOf(g.(v := false)) == BodyOf(g);
    if t != "" && t[0] == 'v' {
      ParsesOnlyBody(true, t[1..]);
    } else {
      ParsesOnlyBody(false, t);
    }
  }

  // ---- comparison --------------------------------------------------------

  predicate IsNumeric(id: string) {
    id != "" && AllDigits(id)
  }

  /** `a < b` on strings, by code unit. */
  predicate StringLess(a: string, b: string) {
    if b == "" then false
    else if a == "" then true
    else if a[0] != b[0] then a[0] < b[0]
    else StringLess(a[1..], b[1..])
  }

  function Sign(less: bool): int {
    if less then -1 else 1
  }

  function CompareIdentifiers(a: string, b: string): int {
    if a == b then 0
    else if IsNumeric(a) && IsNumeric(b) then
      if Value(a) == Value(b) then 0 else Sign(Value(a) < Value(b))
    else if IsNumeric(a) then -1
    else if IsNumeric(b) then 1
    else Sign(StringLess(a, b))
  }

  function ComparePrerelease(a: seq<string>, b: seq<string>): int {
    if a == [] && b == [] then 0
    else if a == [] then -1
    else if b == [] then 1
    else
      var c := CompareIdentifiers(a[0], b[0]);
      if c != 0 then c else ComparePrerelease(a[1..], b[1..])
  }

  function Compare(a: Semver, b: Semver): int {
    if a.major != b.major then Sign(a.major < b.major)
    else if a.minor != b.minor then Sign(a.minor < b.minor)
    else if a.patch != b.patch then Sign(a.patch < b.patch)
    else if a.prerelease == [] && b.prerelease == [] then 0
    else if a.prerelease == [] then 1
    else if b.prerelease == [] then -1
    else ComparePrerelease(a.prerelease, b.prerelease)
  }

  /** `compareSemver`: the loop over the prerelease identifiers. */
  method CompareSemver(a: Semver, b: Semver) returns (order: int)
    ensures order == Compare(a, b)
  {
    if a.major != b.major { return if a.major < b.major then -1 else 1; }
    if a.minor != b.minor { return if a.minor < b.minor then -1 else 1; }
    if a.patch != b.patch { return if a.patch < b.patch then -1 else 1; }
    var aPre, bPre := a.prerelease, b.prerelease;
    if |aPre| == 0 && |bPre| == 0 { return 0; }
    if |aPre| == 0 { return 1; }
    if |bPre| == 0 { return -1; }
    var len := if |aPre| < |bPre| then |bPre| else |aPre|;
    for i := 0 to len
      invariant i <= |aPre| && i <= |bPre|
      invariant ComparePrerelease(aPre, bPre) == ComparePrerelease(aPre[i..], bPre[i..])
    {
      if i >= |aPre| { return -1; }
      if i >= |bPre| { return 1; }
      var ai, bi := aPre[i], bPre[i];
      assert aPre[i..][1..] == aPre[i + 1..] && bPre[i..][1..] == bPre[i + 1..];
      if ai == bi { continue; }
      var aNum, bNum := IsNumeric(ai), IsNumeric(bi);
      if aNum && bNum {
        var aN, bN := Value(ai), Value(bi);
        if aN != bN { return if aN < bN then -1 else 1; }
        continue;
      }
      if aNum && !bNum { return -1; }
      if !aNum && bNum { return 1; }
      return if StringLess(ai, bi) then -1 else 1;
    }
    return 0;
  }

  /** `isSemverGreater`: null unless both versions parse. */
  method IsSemverGreater(aRaw: string, bRaw: string) returns (greater: Option<bool>)
    ensures greater == match (ParseSemver(aRaw), ParseSemver(bRaw))
                       case (Some(a), Some(b)) => Some(Compare(a, b) > 0)
                       case _ => None
  {
    var a, b := ParseSemver(aRaw), ParseSemver(bRaw);
    if a.None? || b.None? {
      return None;
    }
    var order := CompareSemver(a.value, b.value);
    return Some(order > 0);
  }

  // ---- precedence, section 11 of Semantic Versioning 2.0.0 ---------------

  /** 11.4.1 to 11.4.3: numerically, in ASCII order, and numeric below alphanumeric. */
  predicate IdentifierLower(a: string, b: string) {
    if IsNumeric(a) then !IsNumeric(b) || Value(a) < Value(b)
    else !IsNumeric(b) && StringLess(a, b)
  }

  predicate IdentifierSame(a: string, b: string) {
    a == b || (IsNumeric(a) && IsNumeric(b) && Value(a) == Value(b))
  }

  /** 11.4: the first difference from left to right decides; 11.4.4: a longer list is higher if all before is equal. */
  ghost predicate LowerAt(a: seq<string>, b: seq<string>, i: nat) {
    && i <= |a| && i <= |b|
    && (forall j :: 0 <= j < i ==> IdentifierSame(a[j], b[j]))
    && (if i < |a| then i < |b| && IdentifierLower(a[i], b[i]) else i < |b|)
  }

  /** 11.2 to 11.4. */
  ghost predicate Lower(a: Semver, b: Semver) {
    if a.major != b.major then a.major < b.major
    else if a.minor != b.minor then a.minor < b.minor
    else if a.patch != b.patch then a.patch < b.patch
    else a.prerelease != [] && (b.prerelease == [] || exists i: nat :: LowerAt(a.prerelease, b.prerelease, i))
  }

  lemma {:induction false} StringLessTotal(a: string, b: string)
    ensures a != b ==> StringLess(a, b) == !StringLess(b, a)
    ensures !StringLess(a, a)
    decreases |a|
  {
    if a != "" {
      if b != "" {
        StringLessTotal(a[1..], b[1..]);
        assert a == [a[0]] + a[1..] && b == [b[0]] + b[1..];
      }
      StringLessTotal(a[1..], a[1..]);
    }
  }

  lemma {:induction false} StringLessTransitive(a: string, b: string, c: string)
    requires StringLess(a, b) && StringLess(b, c)
    ensures StringLess(a, c)
    decreases |a|
  {
    if a != "" && a[0] == b[0] && b[0] == c[0] {
      StringLessTransitive(a[1..], b[1..], c[1..]);
    }
  }

  lemma IdentifierOrder(a: string, b: string)
    ensures CompareIdentifiers(a, b) == 0 <==> IdentifierSame(a, b)
    ensures CompareIdentifiers(a, b) == -1 <==> IdentifierLower(a, b) && !IdentifierSame(a, b)
    ensures IdentifierLower(a, b) ==> !IdentifierSame(a, b)
    ensures CompareIdentifiers(a, b) == -CompareIdentifiers(b, a)
    ensures -1 <= CompareIdentifiers(a, b) <= 1
  {
    StringLessTotal(a, b);
  }

  lemma IdentifierTransitive(a: string, b: string, c: string)
    requires CompareIdentifiers(a, b) <= 0 && CompareIdentifiers(b, c) <= 0
    ensures CompareIdentifiers(a, c) <= 0
    ensures CompareIdentifiers(a, c) == 0 ==> CompareIdentifiers(a, b) == 0 && CompareIdentifiers(b, c) == 0
  {
    StringLessTotal(a, b);
    StringLessTotal(b, c);
    StringLessTotal(a, c);
    if StringLess(a, b) && StringLess(b, c) {
      StringLessTransitive(a, b, c);
    }
  }

  lemma {:induction false} PrereleaseOrder(a: seq<string>, b: seq<string>)
    ensures ComparePrerelease(a, b) == -ComparePrerelease(b, a)
    ensures -1 <= ComparePrerelease(a, b) <= 1
    ensures ComparePrerelease(a, b) == 0 <==> |a| == |b| && forall i :: 0 <= i < |a| ==> IdentifierSame(a[i], b[i])
    ensures ComparePrerelease(a, b) == -1 <==> exists i: nat :: LowerAt(a, b, i)
  {
    if a == [] || b == [] {
      assert LowerAt(a, b, 0) <==> a == [] && b != [];
    } else {
      IdentifierOrder(a[0], b[0]);
      PrereleaseOrder(a[1..], b[1..]);
      assert a == [a[0]] + a[1..] && b == [b[0]] + b[1..];
      if CompareIdentifiers(a[0], b[0]) == 0 {
        forall i: nat ensures LowerAt(a, b, i + 1) <==> LowerAt(a[1..], b[1..], i) {
          if LowerAt(a[1..], b[1..], i) {
            forall j | 0 <= j < i + 1 ensures IdentifierSame(a[j], b[j]) {
              if j > 0 { assert a[1..][j - 1] == a[j] && b[1..][j - 1] == b[j]; }
            }
          }
        }
        assert !LowerAt(a, b, 0);
        if exists i: nat :: LowerAt(a, b, i) {
          var i: nat :| LowerAt(a, b, i);
          assert LowerAt(a[1..], b[1..], i - 1);
        }
        if exists i: nat :: LowerAt(a[1..], b[1..], i) {
          var i: nat :| LowerAt(a[1..], b[1..], i);
          assert LowerAt(a, b, i + 1);
        }
      } else {
        assert LowerAt(a, b, 0) <==> CompareIdentifiers(a[0], b[0]) == -1;
      }
    }
  }

  lemma {:induction false} PrereleaseTransitive(a: seq<string>, b: seq<string>, c: seq<string>)
    requires ComparePrerelease(a, b) <= 0 && ComparePrerelease(b, c) <= 0
    ensures ComparePrerelease(a, c) <= 0
  {
    if a != [] && b != [] && c != [] {
      IdentifierTransitive(a[0], b[0], c[0]);
      if CompareIdentifiers(a[0], c[0]) == 0 {
        PrereleaseTransitive(a[1..], b[1..], c[1..]);
      }
    }
  }

  /** The comparison is a total preorder: antisymmetric in sign, transitive, and it always answers -1, 0 or 1. */
  lemma CompareIsTotalPreorder(a: Semver, b: Semver, c: Semver)
    ensures Compare(a, b) == -Compare(b, a) && -1 <= Compare(a, b) <= 1
    ensures Compare(a, b) <= 0 && Compare(b, c) <= 0 ==> Compare(a, c) <= 0
  {
    PrereleaseOrder(a.prerelease, b.prerelease);
    if Compare(a, b) <= 0 && Compare(b, c) <= 0
      && a.prerelease != [] && b.prerelease != [] && c.prerelease != []
      && ComparePrerelease(a.prerelease, b.prerelease) <= 0 && ComparePrerelease(b.prerelease, c.prerelease) <= 0 {
      PrereleaseTransitive(a.prerelease, b.prerelease, c.prerelease);
    }
  }

  /** It agrees with the standard's precedence, in both directions. */
  lemma AgreesWithPrecedence(a: Semver, b: Semver)
    ensures Compare(a, b) == -1 <==> Lower(a, b)
    ensures Compare(a, b) == 1 <==> Lower(b, a)
  {
    PrereleaseOrder(a.prerelease, b.prerelease);
    PrereleaseOrder(b.prerelease, a.prerelease);
  }

  function Canonical(pre: seq<string>): (r: seq<string>)
    ensures |r| == |pre|
  {
    seq(|pre|, i requires 0 <= i < |pre| => if IsNumeric(pre[i]) then StripZeros(pre[i]) else pre[i])
  }

  lemma SameIdentifierExactly(a: string, b: string)
    ensures IdentifierSame(a, b)
       <==> (if IsNumeric(a) then StripZeros(a) else a) == (if IsNumeric(b) then StripZeros(b) else b)
  {
    if IsNumeric(a) && IsNumeric(b) {
      SameValueExactly(a, b);
    } else if IsNumeric(a) {
      StripZerosKeepsValue(a);
    } else if IsNumeric(b) {
      StripZerosKeepsValue(b);
    }
  }

  /** It returns 0 exactly when the versions are equal up to leading zeros in numeric prerelease identifiers. */
  lemma ZeroExactly(a: Semver, b: Semver)
    ensures Compare(a, b) == 0 <==>
              a.major == b.major && a.minor == b.minor && a.patch == b.patch
              && Canonical(a.prerelease) == Canonical(b.prerelease)
  {
    var x, y := a.prerelease, b.prerelease;
    PrereleaseOrder(x, y);
    forall i | 0 <= i < |x| && i < |y| ensures IdentifierSame(x[i], y[i]) <==> Canonical(x)[i] == Canonical(y)[i] {
      SameIdentifierExactly(x[i], y[i]);
    }
    if Canonical(x) == Canonical(y) {
      assert |x| == |y|;
    }
  }
}
