/** Semantic versions (internal/version/semver.go): what is parsed, and precedence as in
    section 11 of Semantic Versioning 2.0.0. */
module SemVer {
  import opened Wrappers
  import opened Text
  import opened Numerals

  datatype Version = Version(major: int, minor: int, patch: int, prerelease: seq<string>)

  // -------------------------------------------------------------------- parsing

  predicate IsNumeric(s: string) {
    s != "" && AllDigits(s)
  }

  predicate IdentifierChar(c: char) {
    IsDigit(c) || 'A' <= c <= 'Z' || 'a' <= c <= 'z' || c == '-'
  }

  predicate ValidIdentifier(s: string) {
    s != "" && forall c <- s :: IdentifierChar(c)
  }

  predicate LeadingZero(s: string) {
    |s| > 1 && s[0] == '0' && IsNumeric(s)
  }

  predicate ValidPrerelease(identifiers: seq<string>) {
    forall s <- identifiers :: ValidIdentifier(s) && !LeadingZero(s)
  }

  predicate ValidBuild(identifiers: seq<string>) {
    forall s <- identifiers :: ValidIdentifier(s)
  }

  /** What the parser takes for a core number: digits, and a value that fits an int. */
  predicate CoreNumber(s: string) {
    IsNumeric(s) && FitsInt64(Value(s))
  }

  function Optional(mark: char, identifiers: seq<string>): string {
    if identifiers == [] then "" else [mark] + Join(identifiers, '.')
  }

  /** The text of a version, taken apart. */
  datatype Parts = Parts(core: seq<string>, prerelease: seq<string>, build: seq<string>)
  {
    /** Three numerals and identifiers that are allowed where they stand. */
    predicate Spelled() {
      && |core| == 3 && (forall s <- core :: IsNumeric(s))
      && ValidPrerelease(prerelease) && ValidBuild(build)
    }

    /** What the parser takes. */
    predicate WellFormed() {
      Spelled() && forall s <- core :: CoreNumber(s)
    }

    /** What sections 2, 9 and 10 of the standard allow: no bound on the core numbers, and no
        leading zeros in them. */
    predicate Standard() {
      Spelled() && forall s <- core :: !LeadingZero(s)
    }

    function Render(): string {
      Join(core, '.') + Optional('-', prerelease) + Optional('+', build)
    }

    function Meaning(): Version
      requires WellFormed()
    {
      assert core[0] in core && core[1] in core && core[2] in core;
      Version(Value(core[0]), Value(core[1]), Value(core[2]), prerelease)
    }
  }

  function TakeApart(raw: string): Parts {
    var version := Cut(raw, '+').0;
    Parts(Split(Cut(version, '-').0, '.'), AfterCut(version, '-'), AfterCut(raw, '+'))
  }

  /** One leading v is dropped before the space around the text. */
  function Raw(input: string): string {
    TrimSpace(if input != "" && input[0] == 'v' then input[1..] else input)
  }

  function Parse(input: string): Option<Version> {
    FromParts(TakeApart(Raw(input)))
  }

  function FromParts(parts: Parts): Option<Version> {
    if parts.WellFormed() then Some(parts.Meaning()) else None
  }

  lemma {:induction false} JoinLacks(parts: seq<string>, separator: char, c: char)
    requires c != separator && forall part <- parts :: c !in part
    ensures c !in Join(parts, separator)
  {
    if |parts| > 1 { JoinLacks(parts[1..], separator, c); }
  }

  lemma PlainParts(parts: Parts)
    requires parts.Spelled()
    ensures forall s <- parts.core :: '.' !in s && '-' !in s && '+' !in s
    ensures forall s <- parts.prerelease :: '.' !in s && '+' !in s
    ensures forall s <- parts.build :: '.' !in s
  {
    assert !IsDigit('.') && !IsDigit('-') && !IsDigit('+') && !IdentifierChar('.') && !IdentifierChar('+');
  }

  lemma CutOptional(text: string, mark: char, identifiers: seq<string>)
    requires mark !in text
    ensures Cut(text + Optional(mark, identifiers), mark)
         == if identifiers == [] then (text, "", false) else (text, Join(identifiers, '.'), true)
  {
    if identifiers == [] {
      assert text + "" == text;
      CutFindsNothing(text, mark);
    } else {
      assert text + ([mark] + Join(identifiers, '.')) == text + [mark] + Join(identifiers, '.');
      CutFindsFirst(text, Join(identifiers, '.'), mark);
    }
  }

  /** Taking apart undoes rendering... */
  lemma TakeApartRendered(parts: Parts)
    requires parts.Spelled()
    ensures TakeApart(parts.Render()) == parts
  {
    PlainParts(parts);
    var core := Join(parts.core, '.');
    JoinLacks(parts.core, '.', '-');
    JoinLacks(parts.core, '.', '+');
    JoinLacks(parts.prerelease, '.', '+');
    CutOptional(core, '-', parts.prerelease);
    CutOptional(core + Optional('-', parts.prerelease), '+', parts.build);
    SplitJoined(parts.core, '.');
    if parts.prerelease != [] { SplitJoined(parts.prerelease, '.'); }
    if parts.build != [] { SplitJoined(parts.build, '.'); }
  }

  /** ...and rendering undoes taking apart. */
  lemma RenderTakenApart(raw: string)
    ensures TakeApart(raw).Render() == raw
  {
    var version := Cut(raw, '+').0;
    OptionalAfterCut(raw, '+');
    OptionalAfterCut(version, '-');
    JoinSplit(Cut(version, '-').0, '.');
  }

  function AfterCut(text: string, mark: char): seq<string> {
    var (_, after, found) := Cut(text, mark);
    if found then Split(after, '.') else []
  }

  lemma OptionalAfterCut(text: string, mark: char)
    ensures Cut(text, mark).0 + Optional(mark, AfterCut(text, mark)) == text
  {
    var (before, after, found) := Cut(text, mark);
    if found {
      JoinSplit(after, '.');
      Assoc(before, [mark], after);
    }
  }

  /** A text is accepted exactly when it is the rendering of well-formed parts, and then
      those parts are what it means. */
  lemma ParseIffRendered(input: string, version: Version)
    ensures Parse(input) == Some(version) <==>
      exists parts: Parts :: parts.WellFormed() && parts.Render() == Raw(input) && parts.Meaning() == version
  {
    RenderTakenApart(Raw(input));
    if parts: Parts :| parts.WellFormed() && parts.Render() == Raw(input) && parts.Meaning() == version {
      TakeApartRendered(parts);
    }
  }

  /** What was parsed carries only identifiers that section 9 allows. */
  lemma ParsedIsCanonical(input: string)
    ensures Parse(input).Some? ==> ValidPrerelease(Parse(input).value.prerelease)
  {
  }

  /** Leading zeros are refused in a prerelease but not in the core, against section 2. */
  lemma CoreMayHaveLeadingZeros()
    ensures Parts(["01", "2", "3"], [], []).WellFormed()
    ensures Parts(["01", "2", "3"], [], []).Meaning() == Version(1, 2, 3, [])
    ensures !Parts(["1", "2", "3"], ["01"], []).WellFormed()
  {
    assert "01"[..1] == "0" && "0"[..0] == "" && "2"[..0] == "" && "3"[..0] == "";
    assert Value("0") == 0 && Value("01") == 1 && Value("2") == 2 && Value("3") == 3;
    assert "01" in ["01"] && LeadingZero("01");
  }

  /** A version of the standard: some standard parts spell the text. */
  ghost predicate IsStandard(text: string) {
    exists parts: Parts :: parts.Standard() && parts.Render() == text
  }

  lemma StandardIsTakenApart(text: string)
    ensures IsStandard(text) <==> TakeApart(text).Standard()
  {
    RenderTakenApart(text);
    if parts: Parts :| parts.Standard() && parts.Render() == text {
      TakeApartRendered(parts);
    }
  }

  /** Neither a leading v nor space around the text. */
  predicate Unmarked(input: string) {
    (input != "" ==> input[0] != 'v') && TrimSpace(input) == input
  }

  lemma {:induction false} JoinHolds(parts: seq<string>, separator: char, c: char)
    requires c in Join(parts, separator)
    ensures c == separator || exists part <- parts :: c in part
  {
    if |parts| > 1 && c != separator && c !in parts[0] { JoinHolds(parts[1..], separator, c); }
  }

  /** The characters of a spelled version, none of which is space. */
  lemma SpelledIsPlain(parts: Parts, c: char)
    requires parts.Spelled() && c in parts.Render()
    ensures !IsSpace(c)
  {
    if c in Join(parts.core, '.') {
      JoinHolds(parts.core, '.', c);
    } else if c in Optional('-', parts.prerelease) {
      if c != '-' { JoinHolds(parts.prerelease, '.', c); }
    } else {
      if c != '+' { JoinHolds(parts.build, '.', c); }
    }
  }

  lemma SpelledIsUnmarked(parts: Parts)
    requires parts.Spelled()
    ensures Unmarked(parts.Render())
  {
    var text := parts.Render();
    var first := parts.core[0];
    assert first in parts.core && first[0] in first;
    assert Join(parts.core, '.')[0] == first[0] == text[0];
    forall c <- text ensures !IsSpace(c) { SpelledIsPlain(parts, c); }
    NothingToTrim(text);
  }

  /** Of the accepted texts, the versions of the standard are those with no leading v, no
      space around them and no leading zero in a core number; and of the versions of the
      standard, those refused have a core number that does not fit an int. */
  lemma AcceptedIsStandardIff(input: string)
    ensures Parse(input).Some? ==>
      (IsStandard(input) <==> Unmarked(input) && forall s <- TakeApart(input).core :: !LeadingZero(s))
    ensures IsStandard(input) ==>
      (Parse(input).Some? <==> forall s <- TakeApart(input).core :: CoreNumber(s))
  {
    StandardIsTakenApart(input);
    if IsStandard(input) {
      RenderTakenApart(input);
      SpelledIsUnmarked(TakeApart(input));
    }
  }

  // ----------------------------------------------------------------- precedence

  /** Section 11: an identifier of digits only is a number. */
  datatype Identifier = Number(value: nat) | Word(text: string)

  function Denote(s: string): Identifier {
    if IsNumeric(s) then Number(Value(s)) else Word(s)
  }

  /** Numbers below words, numbers by value, words in ASCII order. */
  predicate IdentifierBelow(a: Identifier, b: Identifier) {
    match (a, b)
    case (Number(m), Number(n)) => m < n
    case (Number(_), Word(_)) => true
    case (Word(_), Number(_)) => false
    case (Word(s), Word(t)) => Compare(s, t) < 0
  }

  /** The first differing identifier decides; a larger set of fields is higher. */
  predicate IdentifiersBelow(a: seq<string>, b: seq<string>)
    decreases |a|
  {
    if a == [] || b == [] then a == [] && b != []
    else
      || IdentifierBelow(Denote(a[0]), Denote(b[0]))
      || (Denote(a[0]) == Denote(b[0]) && IdentifiersBelow(a[1..], b[1..]))
  }

  predicate SameIdentifiers(a: seq<string>, b: seq<string>) {
    |a| == |b| && forall i | 0 <= i < |a| :: Denote(a[i]) == Denote(b[i])
  }

  /** A version without a prerelease is above one with. */
  predicate PrereleaseBelow(a: seq<string>, b: seq<string>) {
    if a == [] || b == [] then a != [] && b == [] else IdentifiersBelow(a, b)
  }

  predicate Below(v: Version, w: Version) {
    || v.major < w.major
    || (v.major == w.major && v.minor < w.minor)
    || (v.major == w.major && v.minor == w.minor && v.patch < w.patch)
    || (v.major == w.major && v.minor == w.minor && v.patch == w.patch && PrereleaseBelow(v.prerelease, w.prerelease))
  }

  /** Of equal precedence: build metadata is gone, and numerals count by value. */
  predicate Same(v: Version, w: Version) {
    v.major == w.major && v.minor == w.minor && v.patch == w.patch && SameIdentifiers(v.prerelease, w.prerelease)
  }

  lemma BelowIsOneWay(a: Identifier, b: Identifier)
    ensures !(IdentifierBelow(a, b) && IdentifierBelow(b, a))
    ensures IdentifierBelow(a, b) || IdentifierBelow(b, a) <==> a != b
  {
    if a.Word? && b.Word? { CompareFlips(a.text, b.text); }
  }

  lemma IdentifierTransitive(a: Identifier, b: Identifier, c: Identifier)
    requires IdentifierBelow(a, b) && IdentifierBelow(b, c)
    ensures IdentifierBelow(a, c)
  {
    if a.Word? && b.Word? && c.Word? {
      CompareTransitive(a.text, b.text, c.text);
      CompareFlips(a.text, b.text);
    }
  }

  lemma {:induction false} IdentifiersTrichotomy(a: seq<string>, b: seq<string>)
    ensures !(IdentifiersBelow(a, b) && IdentifiersBelow(b, a))
    ensures IdentifiersBelow(a, b) || IdentifiersBelow(b, a) || SameIdentifiers(a, b)
    ensures SameIdentifiers(a, b) ==> !IdentifiersBelow(a, b) && !IdentifiersBelow(b, a)
    decreases |a|
  {
    if a != [] && b != [] {
      BelowIsOneWay(Denote(a[0]), Denote(b[0]));
      IdentifiersTrichotomy(a[1..], b[1..]);
      if Denote(a[0]) == Denote(b[0]) && SameIdentifiers(a[1..], b[1..]) {
        forall i | 0 <= i < |a| && |a| == |b| ensures Denote(a[i]) == Denote(b[i]) {
          if i > 0 { assert a[1..][i - 1] == a[i] && b[1..][i - 1] == b[i]; }
        }
      }
    }
  }

  lemma {:induction false} IdentifiersTransitive(a: seq<string>, b: seq<string>, c: seq<string>)
    requires IdentifiersBelow(a, b) && IdentifiersBelow(b, c)
    ensures IdentifiersBelow(a, c)
    decreases |a|
  {
    if a != [] {
      var x, y, z := Denote(a[0]), Denote(b[0]), Denote(c[0]);
      if IdentifierBelow(x, y) && IdentifierBelow(y, z) {
        IdentifierTransitive(x, y, z);
      } else if x == y == z {
        IdentifiersTransitive(a[1..], b[1..], c[1..]);
      }
    }
  }

  /** Precedence is a strict order up to sameness: exactly one of below, above and same. */
  lemma PrecedenceTrichotomy(v: Version, w: Version)
    ensures !(Below(v, w) && Below(w, v))
    ensures Same(v, w) <==> !Below(v, w) && !Below(w, v)
  {
    IdentifiersTrichotomy(v.prerelease, w.prerelease);
  }

  lemma PrecedenceTransitive(u: Version, v: Version, w: Version)
    requires Below(u, v) && Below(v, w)
    ensures Below(u, w)
  {
    var a, b, c := u.prerelease, v.prerelease, w.prerelease;
    if a != [] && b != [] && c != [] && PrereleaseBelow(a, b) && PrereleaseBelow(b, c) {
      IdentifiersTransitive(a, b, c);
    }
  }

  lemma {:induction false} SameOnTheRight(a: seq<string>, b: seq<string>, c: seq<string>)
    requires SameIdentifiers(b, c)
    ensures IdentifiersBelow(a, b) <==> IdentifiersBelow(a, c)
    ensures IdentifiersBelow(b, a) <==> IdentifiersBelow(c, a)
    decreases |a|
  {
    if a != [] && b != [] {
      assert SameIdentifiers(b[1..], c[1..]);
      SameOnTheRight(a[1..], b[1..], c[1..]);
    }
  }

  /** Not above is transitive, so comparing versions is a total preorder. */
  lemma NotAboveTransitive(u: Version, v: Version, w: Version)
    requires !Below(v, u) && !Below(w, v)
    ensures !Below(w, u)
  {
    PrecedenceTrichotomy(u, v);
    PrecedenceTrichotomy(v, w);
    if Below(w, u) {
      if Below(u, v) {
        PrecedenceTransitive(w, u, v);
      } else {
        SameOnTheRight(w.prerelease, u.prerelease, v.prerelease);
      }
    }
  }

  // ------------------------------------------------------------------ comparing

  function CompareIdentifiers(left: string, right: string): int {
    if IsNumeric(left) && !IsNumeric(right) then -1
    else if !IsNumeric(left) && IsNumeric(right) then 1
    else if IsNumeric(left) && |left| < |right| then -1
    else if IsNumeric(left) && |left| > |right| then 1
    else Compare(left, right)
  }

  predicate Canonical(s: string) {
    !LeadingZero(s)
  }

  function Pow10(n: nat): (p: nat)
    ensures p > 0
  {
    if n == 0 then 1 else 10 * Pow10(n - 1)
  }

  lemma {:induction false} ValueFromFront(s: string)
    requires s != "" && AllDigits(s)
    ensures Value(s) == DigitValue(s[0]) * Pow10(|s| - 1) + Value(s[1..])
    decreases |s|
  {
    var n := |s| - 1;
    if n == 0 {
      assert s[..0] == "" && s[1..] == "";
    } else {
      var front, back := s[..n], s[1..];
      ValueFromFront(front);
      assert front[1..] == back[..n - 1] && back[n - 1] == s[n] && front[0] == s[0];
      assert Value(s) == 10 * Value(front) + DigitValue(s[n]);
      assert Value(back) == 10 * Value(front[1..]) + DigitValue(s[n]);
      Shift(DigitValue(s[0]), Pow10(n - 1), Value(front[1..]), DigitValue(s[n]));
    }
  }

  lemma Shift(d: int, p: int, x: int, last: int)
    ensures 10 * (d * p + x) + last == d * (10 * p) + (10 * x + last)
  {
  }

  lemma {:induction false} ValueIsBelowPow10(s: string)
    requires AllDigits(s)
    ensures Value(s) < Pow10(|s|)
    decreases |s|
  {
    if s != "" { ValueIsBelowPow10(s[..|s| - 1]); }
  }

  /** Without leading zeros a longer numeral is a larger number. */
  lemma LongerIsLarger(a: string, b: string)
    requires IsNumeric(a) && IsNumeric(b) && Canonical(b) && |a| < |b|
    ensures Value(a) < Value(b)
  {
    ValueIsBelowPow10(a);
    ValueFromFront(b);
    Pow10Grows(|a|, |b| - 1);
    LeadingDigit(DigitValue(b[0]), Pow10(|b| - 1));
  }

  lemma LeadingDigit(d: int, p: nat)
    requires d >= 1
    ensures d * p >= p
  {
  }

  lemma {:induction false} Pow10Grows(m: nat, n: nat)
    requires m <= n
    ensures Pow10(m) <= Pow10(n)
    decreases n
  {
    if m < n { Pow10Grows(m, n - 1); }
  }

  /** And among numerals of one length the order of the characters is that of the numbers. */
  lemma {:induction false} EqualLengthByCharacters(a: string, b: string)
    requires AllDigits(a) && AllDigits(b) && |a| == |b|
    ensures Compare(a, b) < 0 <==> Value(a) < Value(b)
    ensures Compare(a, b) == 0 <==> Value(a) == Value(b)
  {
    if a != "" {
      ValueFromFront(a);
      ValueFromFront(b);
      ValueIsBelowPow10(a[1..]);
      ValueIsBelowPow10(b[1..]);
      EqualLengthByCharacters(a[1..], b[1..]);
      DigitsDecide(DigitValue(a[0]), DigitValue(b[0]), Pow10(|a| - 1), Value(a[1..]), Value(b[1..]));
    }
  }

  lemma DigitsDecide(d: int, e: int, p: nat, x: nat, y: nat)
    requires x < p && y < p
    ensures d < e ==> d * p + x < e * p + y
    ensures d > e ==> d * p + x > e * p + y
    ensures d == e ==> d * p == e * p
  {
    if d < e { NextMultiple(d, e, p); }
    if e < d { NextMultiple(e, d, p); }
  }

  lemma NextMultiple(d: int, e: int, p: nat)
    requires d < e
    ensures d * p + p <= e * p
  {
    LeadingDigit(e - d, p);
    assert (e - d) * p == e * p - d * p;
  }

  /** Comparing numerals by length and then by characters is comparing their values, since
      leading zeros are refused. */
  lemma IdentifierOrder(a: string, b: string)
    requires Canonical(a) && Canonical(b)
    ensures CompareIdentifiers(a, b) < 0 <==> IdentifierBelow(Denote(a), Denote(b))
    ensures CompareIdentifiers(a, b) > 0 <==> IdentifierBelow(Denote(b), Denote(a))
    ensures CompareIdentifiers(a, b) == 0 <==> Denote(a) == Denote(b)
    ensures CompareIdentifiers(a, b) in {-1, 0, 1}
  {
    CompareFlips(a, b);
    if IsNumeric(a) && IsNumeric(b) {
      if |a| < |b| {
        LongerIsLarger(a, b);
      } else if |b| < |a| {
        LongerIsLarger(b, a);
      } else {
        EqualLengthByCharacters(a, b);
      }
    }
  }

  /** With leading zeros it would not be: by length 010 is above 9 and also above 11. */
  lemma LeadingZerosWouldMislead()
    ensures CompareIdentifiers("010", "11") > 0 && IdentifierBelow(Denote("010"), Denote("11"))
  {
    assert "010"[..2] == "01" && "01"[..1] == "0" && "0"[..0] == "" && "11"[..1] == "1" && "1"[..0] == "";
    assert Value("0") == 0 && Value("1") == 1 && Value("01") == 1;
    assert Value("010") == 10 && Value("11") == 11;
  }

  /** comparePrerelease: the loop over the common fields, then the lengths. */
  method ComparePrerelease(left: seq<string>, right: seq<string>) returns (r: int)
    requires (forall s <- left :: Canonical(s)) && forall s <- right :: Canonical(s)
    ensures r in {-1, 0, 1}
    ensures r < 0 <==> PrereleaseBelow(left, right)
    ensures r > 0 <==> PrereleaseBelow(right, left)
    ensures r == 0 <==> SameIdentifiers(left, right)
  {
    if |left| == 0 && |right| == 0 { return 0; }
    if |left| == 0 { return 1; }
    if |right| == 0 { return -1; }
    var index := 0;
    while index < |left| && index < |right|
      invariant 0 <= index <= |left| && index <= |right|
      invariant SameIdentifiers(left[..index], right[..index])
      invariant IdentifiersBelow(left, right) <==> IdentifiersBelow(left[index..], right[index..])
      invariant IdentifiersBelow(right, left) <==> IdentifiersBelow(right[index..], left[index..])
    {
      assert left[index] in left && right[index] in right;
      IdentifierOrder(left[index], right[index]);
      BelowIsOneWay(Denote(left[index]), Denote(right[index]));
      var comparison := CompareIdentifiers(left[index], right[index]);
      assert left[..index + 1][index] == left[index] && right[..index + 1][index] == right[index];
      if comparison != 0 { return comparison; }
      assert left[index..][1..] == left[index + 1..] && right[index..][1..] == right[index + 1..];
      index := index + 1;
    }
    assert left[..index] == left || right[..index] == right;
    r := if |left| < |right| then -1 else if |left| > |right| then 1 else 0;
  }

  /** Compare: an answer exactly when both texts are versions, and then their precedence. */
  method CompareVersions(left: string, right: string) returns (r: Option<int>)
    ensures r.Some? <==> Parse(left).Some? && Parse(right).Some?
    ensures r.Some? ==>
      && r.value in {-1, 0, 1}
      && (r.value < 0 <==> Below(Parse(left).value, Parse(right).value))
      && (r.value > 0 <==> Below(Parse(right).value, Parse(left).value))
      && (r.value == 0 <==> Same(Parse(left).value, Parse(right).value))
  {
    var l := ParseVersion(left);
    if l.None? { return None; }
    var w := ParseVersion(right);
    if w.None? { return None; }
    ParsedIsCanonical(left);
    ParsedIsCanonical(right);
    var c := ComparePrecedence(l.value, w.value);
    return Some(c);
  }

  method ComparePrecedence(l: Version, w: Version) returns (r: int)
    requires ValidPrerelease(l.prerelease) && ValidPrerelease(w.prerelease)
    ensures r in {-1, 0, 1}
    ensures (r < 0 <==> Below(l, w)) && (r > 0 <==> Below(w, l)) && (r == 0 <==> Same(l, w))
  {
    var pairs := [(l.major, w.major), (l.minor, w.minor), (l.patch, w.patch)];
    for i := 0 to |pairs|
      invariant forall j | 0 <= j < i :: pairs[j].0 == pairs[j].1
    {
      assert i == 0 || pairs[0].0 == pairs[0].1;
      assert i <= 1 || pairs[1].0 == pairs[1].1;
      if pairs[i].0 < pairs[i].1 { return -1; }
      if pairs[i].0 > pairs[i].1 { return 1; }
    }
    assert pairs[0].0 == pairs[0].1 && pairs[1].0 == pairs[1].1 && pairs[2].0 == pairs[2].1;
    r := ComparePrerelease(l.prerelease, w.prerelease);
  }

  method ParseVersion(input: string) returns (r: Option<Version>)
    ensures r == Parse(input)
  {
    var parts := TakeApart(Raw(input));
    r := MakeVersion(parts);
  }

  method MakeVersion(parts: Parts) returns (r: Option<Version>)
    ensures r == FromParts(parts)
  {
    if !ValidBuild(parts.build) { return None; }
    if !ValidPrerelease(parts.prerelease) { return None; }
    if |parts.core| != 3 { return None; }
    var values := ParseCore(parts.core);
    if values.None? { return None; }
    r := Some(Version(values.value[0], values.value[1], values.value[2], parts.prerelease));
  }

  /** The loop of Parse over the numbers of the core. */
  method ParseCore(core: seq<string>) returns (values: Option<seq<int>>)
    ensures values.Some? <==> forall s <- core :: CoreNumber(s)
    ensures values.Some? ==>
      |values.value| == |core| && forall i | 0 <= i < |core| :: CoreNumber(core[i]) && values.value[i] == Value(core[i])
  {
    var result: seq<int> := [];
    for i := 0 to |core|
      invariant |result| == i
      invariant forall j | 0 <= j < i :: CoreNumber(core[j]) && result[j] == Value(core[j])
    {
      assert core[i] in core;
      if !IsNumeric(core[i]) { return None; }
      var value := Atoi(core[i]);
      AtoiOfDigits(core[i]);
      if value.None? { return None; }
      result := result + [value.value];
    }
    values := Some(result);
  }

  lemma AtoiOfDigits(s: string)
    requires IsNumeric(s)
    ensures Atoi(s) == if FitsInt64(Value(s)) then Some(Value(s)) else None
  {
    assert s[0] in s && IsDigit(s[0]);
  }

  // -------------------------------------------------------------- compatibility

  /** A bound that is not given does not bind. */
  predicate AtLeast(value: string, minimum: string) {
    minimum == "" || (Parse(value).Some? && Parse(minimum).Some? && !Below(Parse(value).value, Parse(minimum).value))
  }

  predicate AtMost(value: string, maximum: string) {
    maximum == "" || (Parse(value).Some? && Parse(maximum).Some? && !Below(Parse(maximum).value, Parse(value).value))
  }

  predicate Comparable(value: string, bound: string) {
    bound == "" || (Parse(value).Some? && Parse(bound).Some?)
  }

  /** A value is compatible exactly when it lies in the closed interval.  The maximum is not
      even parsed below the minimum, and nothing is parsed without bounds. */
  method Compatible(value: string, minimum: string, maximum: string) returns (r: Option<bool>)
    ensures r == Some(true) <==> AtLeast(value, minimum) && AtMost(value, maximum)
    ensures r.None? <==> !Comparable(value, minimum) || (AtLeast(value, minimum) && !Comparable(value, maximum))
  {
    if minimum != "" {
      var comparison := CompareVersions(value, minimum);
      if comparison.None? { return None; }
      if comparison.value < 0 { return Some(false); }
    }
    if maximum != "" {
      var comparison := CompareVersions(value, maximum);
      if comparison.None? { return None; }
      if comparison.value > 0 { return Some(false); }
    }
    r := Some(true);
  }
}
