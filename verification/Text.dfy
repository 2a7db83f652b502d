/** The string helpers of the Go standard library that the models rely on. */
module Text {
  /** unicode.IsSpace. */
  predicate IsSpace(c: char) {
    || '\t' <= c <= '\r' || c == ' ' || c == '\U{0085}' || c == '\U{00A0}' || c == '\U{1680}'
    || '\U{2000}' <= c <= '\U{200A}'
    || c == '\U{2028}' || c == '\U{2029}' || c == '\U{202F}' || c == '\U{205F}' || c == '\U{3000}'
  }

  function TrimLeftBy(s: string, cut: char -> bool): (r: string)
    ensures |r| <= |s| && (r == "" || !cut(r[0]))
  {
    if s != "" && cut(s[0]) then TrimLeftBy(s[1..], cut) else s
  }

  function TrimRightBy(s: string, cut: char -> bool): (r: string)
    ensures |r| <= |s| && (r == "" || !cut(r[|r| - 1]))
  {
    if s != "" && cut(s[|s| - 1]) then TrimRightBy(s[..|s| - 1], cut) else s
  }

  /** What is left is the end of the string, and what is gone was all to be cut. */
  lemma {:induction false} TrimLeftShape(s: string, cut: char -> bool)
    ensures var r := TrimLeftBy(s, cut); s[|s| - |r|..] == r && forall i | 0 <= i < |s| - |r| :: cut(s[i])
  {
    if s != "" && cut(s[0]) {
      TrimLeftShape(s[1..], cut);
      var r := TrimLeftBy(s[1..], cut);
      assert s[|s| - |r|..] == s[1..][|s| - 1 - |r|..];
      assert forall i | 1 <= i < |s| - |r| :: s[i] == s[1..][i - 1];
    }
  }

  lemma {:induction false} TrimRightShape(s: string, cut: char -> bool)
    ensures var r := TrimRightBy(s, cut); s[..|r|] == r && forall i | |r| <= i < |s| :: cut(s[i])
    decreases |s|
  {
    if s != "" && cut(s[|s| - 1]) {
      TrimRightShape(s[..|s| - 1], cut);
      var r := TrimRightBy(s[..|s| - 1], cut);
      assert s[..|r|] == s[..|s| - 1][..|r|];
      assert forall i | |r| <= i < |s| - 1 :: s[i] == s[..|s| - 1][i];
    }
  }

  /** strings.TrimSpace. */
  function TrimSpace(s: string): string {
    TrimRightBy(TrimLeftBy(s, IsSpace), IsSpace)
  }

  lemma NothingToTrim(s: string)
    requires s != "" && forall c <- s :: !IsSpace(c)
    ensures TrimSpace(s) == s && !Blank(s)
  {
    assert s[0] in s && s[|s| - 1] in s;
  }

  predicate Blank(s: string) {
    forall c <- s :: IsSpace(c)
  }

  /** strings.Compare: bytewise, a proper prefix first. */
  function Compare(a: string, b: string): (r: int)
    ensures r in {-1, 0, 1} && (r == 0 <==> a == b)
    decreases |a|
  {
    if a == [] then (if b == [] then 0 else -1)
    else if b == [] then 1
    else if a[0] < b[0] then -1
    else if a[0] > b[0] then 1
    else
      assert a == [a[0]] + a[1..] && b == [b[0]] + b[1..];
      Compare(a[1..], b[1..])
  }

  lemma {:induction false} CompareFlips(a: string, b: string)
    ensures Compare(b, a) == -Compare(a, b)
    decreases |a|
  {
    if a != [] && b != [] { CompareFlips(a[1..], b[1..]); }
  }

  lemma {:induction false} CompareTransitive(a: string, b: string, c: string)
    requires Compare(a, b) <= 0 && Compare(b, c) <= 0
    ensures Compare(a, c) <= 0
    decreases |a|
  {
    if a != [] && b != [] && c != [] && a[0] == b[0] == c[0] { CompareTransitive(a[1..], b[1..], c[1..]); }
  }

  predicate Sorted(s: seq<string>) {
    forall i, j | 0 <= i < j < |s| :: Compare(s[i], s[j]) <= 0
  }

  predicate IsLeast(x: string, s: set<string>) {
    x in s && forall y <- s :: Compare(x, y) <= 0
  }

  lemma {:induction false} LeastExists(s: set<string>)
    requires s != {}
    ensures exists x <- s :: IsLeast(x, s)
  {
    var z :| z in s;
    if s == {z} {
      assert IsLeast(z, s);
    } else {
      assert s == (s - {z}) + {z};
      LeastExists(s - {z});
      var x :| x in s - {z} && IsLeast(x, s - {z});
      CompareFlips(x, z);
      var least := if Compare(x, z) <= 0 then x else z;
      forall y <- s ensures Compare(least, y) <= 0 {
        if least == z && y != z { CompareTransitive(z, x, y); }
      }
      assert IsLeast(least, s);
    }
  }

  lemma LeastIsUnique(x: string, y: string, s: set<string>)
    requires IsLeast(x, s) && IsLeast(y, s)
    ensures x == y
  {
    CompareFlips(x, y);
  }

  function Least(s: set<string>): (x: string)
    requires s != {}
    ensures IsLeast(x, s)
  {
    LeastExists(s);
    assert forall x, y | IsLeast(x, s) && IsLeast(y, s) :: x == y by {
      forall x, y | IsLeast(x, s) && IsLeast(y, s) ensures x == y { LeastIsUnique(x, y, s); }
    }
    var x :| x in s && IsLeast(x, s);
    x
  }

  /** sort.Strings of the keys of a map. */
  function SortedElements(s: set<string>): (r: seq<string>)
    ensures Sorted(r) && |r| == |s| && forall x :: x in r <==> x in s
  {
    if s == {} then []
    else
      var x := Least(s);
      [x] + SortedElements(s - {x})
  }

  // ------------------------------------------------------- splitting and joining

  /** strings.Split by one character. */
  function Split(s: string, separator: char): (parts: seq<string>)
    ensures parts != []
  {
    if s == "" then [""]
    else
      var rest := Split(s[1..], separator);
      if s[0] == separator then [""] + rest else [[s[0]] + rest[0]] + rest[1..]
  }

  /** strings.SplitN(s, separator, 2): what precedes the first separator, and what follows it. */
  function Cut(s: string, separator: char): (r: (string, string, bool))
    ensures separator !in r.0
    ensures s == if r.2 then r.0 + [separator] + r.1 else r.0
    ensures !r.2 ==> r.1 == ""
  {
    if s == "" then ("", "", false)
    else if s[0] == separator then
      assert s == "" + [separator] + s[1..];
      ("", s[1..], true)
    else
      var (before, after, found) := Cut(s[1..], separator);
      assert s == [s[0]] + s[1..];
      ([s[0]] + before, after, found)
  }

  /** strings.Join. */
  function Join(parts: seq<string>, separator: char): string {
    if parts == [] then "" else if |parts| == 1 then parts[0] else parts[0] + [separator] + Join(parts[1..], separator)
  }

  lemma {:induction false} CutFindsFirst(before: string, after: string, separator: char)
    requires separator !in before
    ensures Cut(before + [separator] + after, separator) == (before, after, true)
  {
    var s := before + [separator] + after;
    if before == "" {
      assert s[0] == separator && s[1..] == after;
    } else {
      CutFindsFirst(before[1..], after, separator);
      assert s[1..] == before[1..] + [separator] + after && s[0] == before[0];
      assert before == [before[0]] + before[1..];
    }
  }

  lemma {:induction false} CutFindsNothing(s: string, separator: char)
    requires separator !in s
    ensures Cut(s, separator) == (s, "", false)
  {
    if s != "" { CutFindsNothing(s[1..], separator); }
  }

  lemma {:induction false} SplitOfPlain(part: string, separator: char)
    requires separator !in part
    ensures Split(part, separator) == [part]
  {
    if part != "" {
      SplitOfPlain(part[1..], separator);
      assert part == [part[0]] + part[1..];
    }
  }

  lemma {:induction false} SplitAtFirst(part: string, rest: string, separator: char)
    requires separator !in part
    ensures Split(part + [separator] + rest, separator) == [part] + Split(rest, separator)
  {
    var s := part + [separator] + rest;
    if part == "" {
      assert s[0] == separator && s[1..] == rest;
    } else {
      SplitAtFirst(part[1..], rest, separator);
      assert s[1..] == part[1..] + [separator] + rest && s[0] == part[0];
      assert part == [part[0]] + part[1..];
    }
  }

  /** Splitting takes apart what joining put together. */
  lemma {:induction false} SplitJoined(parts: seq<string>, separator: char)
    requires parts != [] && forall part <- parts :: separator !in part
    ensures Split(Join(parts, separator), separator) == parts
  {
    if |parts| == 1 {
      SplitOfPlain(parts[0], separator);
    } else {
      SplitJoined(parts[1..], separator);
      SplitAtFirst(parts[0], Join(parts[1..], separator), separator);
    }
  }

  /** And joining puts together what splitting took apart. */
  lemma {:induction false} JoinSplit(s: string, separator: char)
    ensures Join(Split(s, separator), separator) == s
    ensures forall part <- Split(s, separator) :: separator !in part
  {
    if s != "" {
      JoinSplit(s[1..], separator);
      var rest := Split(s[1..], separator);
      assert s == [s[0]] + s[1..];
      if s[0] == separator {
        assert ([""] + rest)[1..] == rest;
      } else {
        var parts := [[s[0]] + rest[0]] + rest[1..];
        assert |rest| > 1 ==> parts[1..] == rest[1..];
        assert rest[0] in rest;
      }
    }
  }

  lemma Assoc(a: string, b: string, c: string)
    ensures a + b + c == a + (b + c)
  {
  }
}
