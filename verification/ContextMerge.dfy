/** Merging a generated block into a context file that people edit as well
    (mergeManaged, internal/contextengine/refresh.go:248-263). */
module ContextMerge {
  import opened Text

  const START := "<!-- agentstack-context:start"
  const END := "<!-- agentstack-context:end -->"
  const CURSOR_TITLE := "---\ndescription: AgentStack "
  const CURSOR_TEXT := "generated project context\n"
  const CURSOR_END := "alwaysApply: true\n---"
  const CURSOR_HEADER := CURSOR_TITLE + (CURSOR_TEXT + CURSOR_END)

  /** The cut set of the one-sided trims; TrimSpace removes more than these. */
  predicate IsCut(c: char) {
    c == ' ' || c == '\t' || c == '\r' || c == '\n'
  }

  // -------------------------------------------------------------- substrings

  predicate OccursAt(s: string, pattern: string, i: int) {
    0 <= i && i + |pattern| <= |s| && s[i..i + |pattern|] == pattern
  }

  predicate IsFirst(s: string, pattern: string, i: int) {
    OccursAt(s, pattern, i) && forall j | 0 <= j < i :: !OccursAt(s, pattern, j)
  }

  predicate Contains(s: string, pattern: string) {
    exists i | 0 <= i <= |s| :: OccursAt(s, pattern, i)
  }

  /** strings.Index: the first occurrence, or -1. */
  function Index(s: string, pattern: string): (i: int)
    ensures i == -1 || 0 <= i
    ensures i >= 0 ==> IsFirst(s, pattern, i)
    ensures i == -1 <==> !Contains(s, pattern)
  {
    IndexFrom(s, pattern, 0)
  }

  function IndexFrom(s: string, pattern: string, from: nat): (i: int)
    requires forall j | 0 <= j < from :: !OccursAt(s, pattern, j)
    ensures i >= 0 ==> IsFirst(s, pattern, i)
    ensures i == -1 || 0 <= i
    ensures i == -1 <==> !Contains(s, pattern)
    decreases |s| - from
  {
    if OccursAt(s, pattern, from) then from
    else if from >= |s| then -1
    else IndexFrom(s, pattern, from + 1)
  }

  lemma FirstIsIndex(s: string, pattern: string, i: int)
    requires IsFirst(s, pattern, i)
    ensures Index(s, pattern) == i
  {
    assert 0 <= i <= |s|;
    var k := Index(s, pattern);
    assert k < i ==> !OccursAt(s, pattern, k);
    assert i < k ==> !OccursAt(s, pattern, i);
  }

  /** What a marker is like: the two constants are. */
  predicate Marker(m: string) {
    m != "" && '\n' !in m && !IsSpace(m[0]) && !IsSpace(m[|m| - 1])
  }

  /** A marker that starts before a line break ends before it. */
  lemma NoMarkerAcrossLines(a: string, b: string, m: string, j: int)
    requires Marker(m) && OccursAt(a + "\n\n" + b, m, j) && j < |a| + 2
    ensures OccursAt(a, m, j)
  {
    var s := a + "\n\n" + b;
    assert s[|a|] == '\n' && s[|a| + 1] == '\n';
    assert forall k | j <= k < j + |m| :: s[k] == s[j..j + |m|][k - j] == m[k - j] != '\n';
    assert !(j <= |a| < j + |m|) && !(j <= |a| + 1 < j + |m|);
    assert a[j..j + |m|] == s[j..j + |m|];
  }

  // ---------------------------------------------------------------- trimming

  predicate AllBy(s: string, cut: char -> bool) {
    forall c <- s :: cut(c)
  }

  lemma {:induction false} TrimLeftConcat(x: string, y: string, cut: char -> bool)
    ensures TrimLeftBy(x + y, cut) == if AllBy(x, cut) then TrimLeftBy(y, cut) else TrimLeftBy(x, cut) + y
  {
    if x == "" {
      assert x + y == y;
    } else {
      assert (x + y)[1..] == x[1..] + y && x == [x[0]] + x[1..];
      if cut(x[0]) { TrimLeftConcat(x[1..], y, cut); }
      assert AllBy(x, cut) <==> cut(x[0]) && AllBy(x[1..], cut);
    }
  }

  lemma {:induction false} TrimRightConcat(x: string, y: string, cut: char -> bool)
    ensures TrimRightBy(x + y, cut) == if AllBy(y, cut) then TrimRightBy(x, cut) else x + TrimRightBy(y, cut)
    decreases |y|
  {
    if y == "" {
      assert x + y == x;
    } else {
      var n := |y| - 1;
      assert (x + y)[..|x + y| - 1] == x + y[..n] && y == y[..n] + [y[n]];
      if cut(y[n]) { TrimRightConcat(x, y[..n], cut); }
      assert AllBy(y, cut) <==> cut(y[n]) && AllBy(y[..n], cut);
    }
  }

  lemma {:induction false} TrimRightOfBlank(s: string, cut: char -> bool)
    ensures TrimRightBy(s, cut) == "" <==> AllBy(s, cut)
    decreases |s|
  {
    if s != "" && cut(s[|s| - 1]) {
      TrimRightOfBlank(s[..|s| - 1], cut);
      assert s == s[..|s| - 1] + [s[|s| - 1]];
    }
  }

  lemma {:induction false} TrimLeftOfBlank(s: string, cut: char -> bool)
    ensures TrimLeftBy(s, cut) == "" <==> AllBy(s, cut)
  {
    if s != "" && cut(s[0]) { TrimLeftOfBlank(s[1..], cut); }
  }

  // ------------------------------------------------------------------ merging

  function Wrapped(before: string, generated: string, after: string): string {
    TrimSpace(before + "\n\n" + generated + after) + "\n"
  }

  function Merge(existing: string, generated: string, header: string, start: string, end: string): string {
    MergeAt(existing, Index(existing, start), Index(existing, end), |end|, generated, header)
  }

  /** The merge, once the markers have been looked for. */
  function MergeAt(existing: string, s: int, e: int, width: nat, generated: string, header: string): string
    requires s <= e && s >= 0 ==> e + width <= |existing|
  {
    if s >= 0 && e >= s then
      Wrapped(TrimRightBy(existing[..s], IsCut), generated, TrimLeftBy(existing[e + width..], IsCut))
    else if TrimSpace(existing) == "" then header + generated
    else TrimRightBy(existing, IsCut) + "\n\n" + generated
  }

  function MergeManaged(existing: string, generated: string, cursor: bool): string {
    Merge(existing, generated, if cursor then CURSOR_HEADER + "\n\n" else "", START, END)
  }

  /** A generated block without its final line break: it begins with the start marker, and
      the end marker occurs in it once, at its end. */
  ghost predicate IsBlock(block: string, start: string, end: string) {
    && |start| + |end| <= |block| && start <= block
    && IsFirst(block, end, |block| - |end|)
  }

  /** What may stand before a block: nothing, or text without markers and an empty line. */
  ghost predicate CleanBefore(before: string, start: string, end: string) {
    before == "" || exists text :: CleanText(text, before, start, end)
  }

  predicate CleanText(text: string, before: string, start: string, end: string) {
    before == text + "\n\n" && !Contains(text, start) && !Contains(text, end)
  }

  function Before(text: string): string {
    if Blank(text) then "" else TrimLeftBy(text, IsSpace) + "\n\n"
  }

  function After(text: string): string {
    if Blank(text) then "" else "\n" + TrimRightBy(text, IsSpace)
  }

  lemma TrimGap(p: string, gap: string, tail: string, cut: char -> bool)
    requires tail != "" && !cut(tail[0]) && AllBy(gap, cut)
    ensures TrimLeftBy(p + (gap + tail), cut) == if AllBy(p, cut) then tail else TrimLeftBy(p, cut) + (gap + tail)
  {
    TrimLeftConcat(p, gap + tail, cut);
    TrimLeftConcat(gap, tail, cut);
  }

  lemma TrimBefore(p: string, tail: string)
    requires tail != "" && !IsSpace(tail[0])
    ensures TrimLeftBy(p + "\n\n" + tail, IsSpace) == Before(p) + tail
  {
    Assoc(p, "\n\n", tail);
    TrimGap(p, "\n\n", tail, IsSpace);
    Assoc(TrimLeftBy(p, IsSpace), "\n\n", tail);
  }

  lemma TrimAfter(head: string, q: string)
    requires head != "" && !IsSpace(head[|head| - 1])
    ensures TrimRightBy(head + ("\n" + q), IsSpace) == head + After(q)
  {
    TrimRightConcat(head, "\n" + q, IsSpace);
    TrimRightConcat("\n", q, IsSpace);
    assert ("\n" + q)[1..] == q;
    assert AllBy("\n" + q, IsSpace) <==> Blank(q);
  }

  lemma Regroup(p: string, gap: string, block: string, end: string, q: string)
    ensures p + gap + (block + end) + q == p + gap + (block + (end + q))
  {
  }

  lemma TrimTail(head: string, block: string, q: string)
    requires block != "" && !IsSpace(block[|block| - 1])
    ensures TrimRightBy(head + (block + ("\n" + q)), IsSpace) == head + block + After(q)
  {
    assert head + (block + ("\n" + q)) == (head + block) + ("\n" + q);
    TrimAfter(head + block, q);
  }

  /** What TrimSpace makes of a block with text around it. */
  lemma TrimAroundBlock(p: string, block: string, q: string)
    requires block != "" && !IsSpace(block[0]) && !IsSpace(block[|block| - 1])
    ensures TrimSpace(p + "\n\n" + (block + "\n") + q) == Before(p) + block + After(q)
  {
    Regroup(p, "\n\n", block, "\n", q);
    TrimBefore(p, block + ("\n" + q));
    TrimTail(Before(p), block, q);
  }

  // ------------------------------------------------------- finding the block again

  lemma OccursInTail(a: string, b: string, m: string, j: int)
    requires j >= |a|
    ensures OccursAt(a + b, m, j) <==> OccursAt(b, m, j - |a|)
  {
    if j + |m| <= |a + b| { assert (a + b)[j..j + |m|] == b[j - |a|..j - |a| + |m|]; }
  }

  lemma OccursInHead(a: string, b: string, m: string, j: int)
    requires 0 <= j && j + |m| <= |a|
    ensures OccursAt(a + b, m, j) <==> OccursAt(a, m, j)
  {
    assert (a + b)[j..j + |m|] == a[j..j + |m|];
  }

  lemma FirstAfterClean(before: string, rest: string, m: string, i: int, start: string, end: string)
    requires CleanBefore(before, start, end) && Marker(m) && m in {start, end} && IsFirst(rest, m, i)
    ensures Index(before + rest, m) == |before| + i
  {
    OccursInTail(before, rest, m, |before| + i);
    forall j | 0 <= j < |before| + i ensures !OccursAt(before + rest, m, j) {
      if j >= |before| {
        OccursInTail(before, rest, m, j);
      } else {
        var text :| CleanText(text, before, start, end);
        assert before + rest == text + "\n\n" + rest;
        if OccursAt(before + rest, m, j) {
          NoMarkerAcrossLines(text, rest, m, j);
          assert Contains(text, m);
        }
      }
    }
    FirstIsIndex(before + rest, m, |before| + i);
  }

  /** In a file of clean text, block and anything, both markers are found at the block. */
  lemma FindBlock(before: string, block: string, tail: string, start: string, end: string)
    requires Marker(start) && Marker(end) && IsBlock(block, start, end) && CleanBefore(before, start, end)
    ensures Index(before + (block + tail), start) == |before|
    ensures Index(before + (block + tail), end) + |end| == |before| + |block|
  {
    var rest := block + tail;
    OccursInHead(block, tail, start, 0);
    FirstAfterClean(before, rest, start, 0, start, end);
    var i := |block| - |end|;
    OccursInHead(block, tail, end, i);
    forall j | 0 <= j < i ensures !OccursAt(rest, end, j) { OccursInHead(block, tail, end, j); }
    FirstAfterClean(before, rest, end, i, start, end);
  }

  /** A block between two texts, trimmed as a merge trims them. */
  function Joined(before: string, block: string, after: string): string {
    Before(TrimRightBy(before, IsCut)) + (block + (After(TrimLeftBy(after, IsCut)) + "\n"))
  }

  lemma Reassoc(a: string, b: string, c: string, d: string)
    ensures a + b + c + d == a + (b + (c + d))
  {
  }

  lemma WrappedIsJoined(before: string, block: string, after: string)
    requires Solid(block)
    ensures Wrapped(TrimRightBy(before, IsCut), block + "\n", TrimLeftBy(after, IsCut)) == Joined(before, block, after)
  {
    var p, q := TrimRightBy(before, IsCut), TrimLeftBy(after, IsCut);
    TrimAroundBlock(p, block, q);
    Reassoc(Before(p), block, After(q), "\n");
  }

  predicate Solid(block: string) {
    block != "" && !IsSpace(block[0]) && !IsSpace(block[|block| - 1])
  }

  lemma MergeReplaces(existing: string, s: nat, e: nat, width: nat, before: string, block: string, after: string,
                      header: string)
    requires s <= e && e + width <= |existing|
    requires existing[..s] == before && existing[e + width..] == after && Solid(block)
    ensures MergeAt(existing, s, e, width, block + "\n", header) == Joined(before, block, after)
  {
    WrappedIsJoined(before, block, after);
  }

  lemma MergeFound(existing: string, s: nat, e: nat, before: string, block: string, after: string, header: string,
                   start: string, end: string)
    requires Index(existing, start) == s && Index(existing, end) == e && s <= e && e + |end| <= |existing|
    requires existing[..s] == before && existing[e + |end|..] == after && Solid(block)
    ensures Merge(existing, block + "\n", header, start, end) == Joined(before, block, after)
  {
    MergeReplaces(existing, s, e, |end|, before, block, after, header);
  }

  /** The markers of a block are seen, so the text around it is trimmed and kept. */
  lemma MergeAtBlock(before: string, block: string, tail: string, new_: string, header: string, start: string,
                     end: string)
    requires Marker(start) && Marker(end) && CleanBefore(before, start, end)
    requires IsBlock(block, start, end) && Solid(new_)
    ensures Merge(before + (block + tail), new_ + "\n", header, start, end) == Joined(before, new_, tail)
  {
    FindBlock(before, block, tail, start, end);
    Slices(before, block, tail);
    MergeFound(before + (block + tail), |before|, |before| + |block| - |end|, before, new_, tail, header, start, end);
  }

  lemma Slices(a: string, b: string, c: string)
    ensures (a + (b + c))[..|a|] == a && (a + (b + c))[|a| + |b|..] == c
  {
    assert (a + (b + c))[|a|..] == b + c;
    assert (b + c)[|b|..] == c;
  }

  lemma BlockEnds(block: string, start: string, end: string)
    requires Marker(start) && Marker(end) && IsBlock(block, start, end)
    ensures Solid(block)
  {
    assert block[0] == start[0];
    var i := |block| - |end|;
    assert block[i..i + |end|][|end| - 1] == block[|block| - 1];
  }

  // ------------------------------------------------------------- trimming settles

  lemma DropRightGap(text: string, gap: string, cut: char -> bool)
    requires text != "" && !cut(text[|text| - 1]) && AllBy(gap, cut)
    ensures TrimRightBy(text + gap, cut) == text
  {
    TrimRightConcat(text, gap, cut);
  }

  lemma DropEmptyLine(text: string)
    requires text != "" && !IsCut(text[|text| - 1])
    ensures TrimRightBy(text + "\n\n", IsCut) == text
  {
    DropRightGap(text, "\n\n", IsCut);
  }

  lemma DropLeftGap(gap: string, text: string, cut: char -> bool)
    requires text != "" && !cut(text[0]) && AllBy(gap, cut)
    ensures TrimLeftBy(gap + text, cut) == text
  {
    TrimLeftConcat(gap, text, cut);
  }

  lemma BeforeOfTrimmed(text: string)
    requires text != "" && !IsSpace(text[0])
    ensures Before(text) == text + "\n\n"
  {
    assert text[0] in text;
  }

  lemma AfterOfTrimmed(text: string)
    requires text != "" && !IsSpace(text[|text| - 1])
    ensures After(text + "\n") == "\n" + text
  {
    DropRightGap(text, "\n", IsSpace);
    assert text[|text| - 1] in text + "\n";
  }

  lemma TrimmedBefore(p: string) returns (text: string)
    requires !Blank(p)
    ensures text == TrimLeftBy(p, IsSpace) && text != "" && !IsSpace(text[0]) && text[|text| - 1] == p[|p| - 1]
  {
    text := TrimLeftBy(p, IsSpace);
    TrimLeftOfBlank(p, IsSpace);
    TrimLeftShape(p, IsSpace);
    assert p[|p| - |text|..][|text| - 1] == p[|p| - 1];
  }

  lemma TrimmedAfter(q: string) returns (text: string)
    requires !Blank(q)
    ensures text == TrimRightBy(q, IsSpace) && text != "" && !IsSpace(text[|text| - 1]) && text[0] == q[0]
  {
    text := TrimRightBy(q, IsSpace);
    TrimRightOfBlank(q, IsSpace);
    TrimRightShape(q, IsSpace);
    assert q[..|text|][0] == q[0];
  }

  lemma BeforeSettles(x: string)
    ensures var b := Before(TrimRightBy(x, IsCut)); Before(TrimRightBy(b, IsCut)) == b
  {
    var p := TrimRightBy(x, IsCut);
    if !Blank(p) {
      var text := TrimmedBefore(p);
      DropEmptyLine(text);
      BeforeOfTrimmed(text);
    }
  }

  lemma AfterSettles(x: string)
    ensures var a := After(TrimLeftBy(x, IsCut)); After(TrimLeftBy(a + "\n", IsCut)) == a
  {
    var q := TrimLeftBy(x, IsCut);
    if Blank(q) {
      NothingAfter();
    } else {
      var text := TrimmedAfter(q);
      AfterOfTrimmed(text);
      DropLineBreak(text);
    }
  }

  lemma DropLineBreak(text: string)
    requires text != "" && !IsCut(text[0])
    ensures TrimLeftBy("\n" + text + "\n", IsCut) == text + "\n"
  {
    Assoc("\n", text, "\n");
    DropLeftGap("\n", text + "\n", IsCut);
  }

  lemma NothingAfter()
    ensures After(TrimLeftBy("\n", IsCut)) == ""
  {
    TrimLeftOfBlank("\n", IsCut);
  }

  lemma SliceHasNoMarker(whole: string, part: string, from: nat, m: string, limit: int)
    requires from + |part| <= |whole| && whole[from..from + |part|] == part && m != ""
    requires forall j | 0 <= j < limit :: !OccursAt(whole, m, j)
    requires from + |part| <= limit
    ensures !Contains(part, m)
  {
    forall j | 0 <= j <= |part| ensures !OccursAt(part, m, j) {
      if OccursAt(part, m, j) {
        forall k | 0 <= k < |m| ensures whole[from + j..from + j + |m|][k] == m[k] {
          assert whole[from..from + |part|][j + k] == part[j..j + |m|][k];
        }
        assert OccursAt(whole, m, from + j);
      }
    }
  }

  lemma SliceOfSlice(s: string, i: nat, j: nat, from: nat)
    requires from <= j <= i <= |s|
    ensures s[..i][..j][from..] == s[from..j]
  {
    assert s[..i][..j] == s[..j];
  }

  lemma BeforeIsClean(existing: string, s: nat, start: string, end: string)
    requires Marker(start) && Marker(end) && s <= |existing|
    requires forall j | 0 <= j < s :: !OccursAt(existing, start, j) && !OccursAt(existing, end, j)
    ensures CleanBefore(Before(TrimRightBy(existing[..s], IsCut)), start, end)
  {
    var p := TrimRightBy(existing[..s], IsCut);
    if !Blank(p) {
      var text := TrimLeftBy(p, IsSpace);
      var from := |p| - |text|;
      TrimRightShape(existing[..s], IsCut);
      TrimLeftShape(p, IsSpace);
      SliceOfSlice(existing, s, |p|, from);
      SliceHasNoMarker(existing, text, from, start, s);
      SliceHasNoMarker(existing, text, from, end, s);
      assert CleanText(text, Before(p), start, end);
    }
  }

  // ------------------------------------------------------------------- absorption

  /** Merging one block and then another is merging the other alone. */
  predicate SameMerge(existing: string, one: string, two: string, header: string, start: string, end: string) {
    Merge(Merge(existing, one + "\n", header, start, end), two + "\n", header, start, end)
    == Merge(existing, two + "\n", header, start, end)
  }

  /** Replacing a block: what stands around it is trimmed once and then stays. */
  lemma AbsorbsAtMarkers(existing: string, one: string, two: string, header: string, start: string, end: string)
    requires Marker(start) && Marker(end) && IsBlock(one, start, end) && IsBlock(two, start, end)
    requires 0 <= Index(existing, start) <= Index(existing, end)
    ensures SameMerge(existing, one, two, header, start, end)
  {
    var s, e := Index(existing, start), Index(existing, end);
    var rest := existing[e + |end|..];
    BlockEnds(one, start, end);
    BlockEnds(two, start, end);
    MergeReplaces(existing, s, e, |end|, existing[..s], one, rest, header);
    MergeReplaces(existing, s, e, |end|, existing[..s], two, rest, header);
    BeforeIsClean(existing, s, start, end);
    var before, after := Before(TrimRightBy(existing[..s], IsCut)), After(TrimLeftBy(rest, IsCut));
    MergeAtBlock(before, one, after + "\n", two, header, start, end);
    BeforeSettles(existing[..s]);
    AfterSettles(rest);
  }

  ghost predicate GoodHeader(header: string, start: string, end: string) {
    CleanBefore(header, start, end) && Before(TrimRightBy(header, IsCut)) == header
  }

  lemma TrimSpaceOfBlank(s: string)
    ensures TrimSpace(s) == "" <==> Blank(s)
  {
    TrimLeftOfBlank(s, IsSpace);
    var left := TrimLeftBy(s, IsSpace);
    TrimRightOfBlank(left, IsSpace);
    if left != "" { assert left[0] in left; }
  }

  lemma BlankHasNoMarker(s: string, m: string)
    requires Blank(s) && Marker(m)
    ensures Index(s, m) == -1
  {
    forall i | OccursAt(s, m, i) ensures m[0] in s { OccursFirstChar(s, m, i); }
  }

  lemma OccursFirstChar(s: string, m: string, i: int)
    requires OccursAt(s, m, i) && m != ""
    ensures m[0] in s
  {
    assert s[i] == s[i..i + |m|][0];
  }

  lemma AbsorbsIntoBlank(existing: string, one: string, two: string, header: string, start: string, end: string)
    requires Marker(start) && Marker(end) && IsBlock(one, start, end) && IsBlock(two, start, end)
    requires GoodHeader(header, start, end) && Blank(existing)
    ensures SameMerge(existing, one, two, header, start, end)
  {
    assert Index(existing, start) == -1 by { BlankHasNoMarker(existing, start); }
    assert TrimSpace(existing) == "" by { TrimSpaceOfBlank(existing); }
    assert Solid(two) by { BlockEnds(two, start, end); }
    MergeAtBlock(header, one, "\n", two, header, start, end);
    JoinedToHeader(header, two);
  }

  lemma JoinedToHeader(header: string, block: string)
    requires Before(TrimRightBy(header, IsCut)) == header
    ensures Joined(header, block, "\n") == header + (block + "\n")
  {
    NothingAfter();
  }

  // ------------------------------------------------------- where it is not absorbed

  /** The text is not blank and its markers, if any, do not enclose a block: the generated
      block is appended. */
  predicate Appends(existing: string, start: string, end: string) {
    !Blank(existing) && !(0 <= Index(existing, start) <= Index(existing, end))
  }

  lemma MergeAppends(existing: string, generated: string, header: string, start: string, end: string)
    requires Appends(existing, start, end)
    ensures Merge(existing, generated, header, start, end) == TrimRightBy(existing, IsCut) + "\n\n" + generated
    ensures TrimRightBy(existing, IsCut) != ""
  {
    TrimSpaceOfBlank(existing);
    TrimRightOfBlank(existing, IsCut);
    assert AllBy(existing, IsCut) ==> Blank(existing);
  }

  /** An occurrence of a marker survives trimming on the right. */
  lemma MarkerSurvivesTrim(s: string, m: string, i: int)
    requires Marker(m)
    ensures OccursAt(s, m, i) <==> OccursAt(TrimRightBy(s, IsCut), m, i)
  {
    var r := TrimRightBy(s, IsCut);
    TrimRightShape(s, IsCut);
    if OccursAt(s, m, i) {
      var last := i + |m| - 1;
      assert s[i..i + |m|][|m| - 1] == s[last];
      assert !IsCut(s[last]);
      assert r[i..i + |m|] == s[..|r|][i..i + |m|] == s[i..i + |m|];
    }
    if OccursAt(r, m, i) { assert s[i..i + |m|] == s[..|r|][i..i + |m|] == r[i..i + |m|]; }
  }

  lemma NoneBeforeInText(existing: string, rest: string, m: string, j: int)
    requires Marker(m) && 0 <= j < |TrimRightBy(existing, IsCut)| + 2
    requires OccursAt(TrimRightBy(existing, IsCut) + "\n\n" + rest, m, j)
    ensures 0 <= Index(existing, m) <= j
  {
    NoMarkerAcrossLines(TrimRightBy(existing, IsCut), rest, m, j);
    MarkerSurvivesTrim(existing, m, j);
    assert 0 <= j <= |existing|;
  }

  lemma OccursAfterAppend(text: string, rest: string, m: string, i: int)
    ensures OccursAt(text, m, i) ==> OccursAt(text + "\n\n" + rest, m, i)
    ensures i >= |text| + 2 ==> (OccursAt(text + "\n\n" + rest, m, i) <==> OccursAt(rest, m, i - |text| - 2))
  {
    if OccursAt(text, m, i) {
      Assoc(text, "\n\n", rest);
      OccursInHead(text, "\n\n" + rest, m, i);
    }
    if i >= |text| + 2 { OccursInTail(text + "\n\n", rest, m, i); }
  }

  /** Where a marker is first found once a text has been appended. */
  lemma IndexAfterAppend(existing: string, rest: string, m: string, i: nat)
    requires Marker(m) && IsFirst(rest, m, i)
    ensures var k, text := Index(existing, m), TrimRightBy(existing, IsCut);
      Index(text + "\n\n" + rest, m) == if k >= 0 then k else |text| + 2 + i
  {
    var k, text := Index(existing, m), TrimRightBy(existing, IsCut);
    var whole := text + "\n\n" + rest;
    var first := if k >= 0 then k else |text| + 2 + i;
    MarkerSurvivesTrim(existing, m, k);
    OccursAfterAppend(text, rest, m, first);
    forall j | 0 <= j < first ensures !OccursAt(whole, m, j) {
      if OccursAt(whole, m, j) {
        if j < |text| + 2 {
          NoneBeforeInText(existing, rest, m, j);
        } else {
          OccursAfterAppend(text, rest, m, j);
        }
      }
    }
    FirstIsIndex(whole, m, first);
  }

  lemma BlockMarkers(block: string, start: string, end: string)
    requires Marker(start) && Marker(end) && IsBlock(block, start, end)
    ensures IsFirst(block + "\n", start, 0) && IsFirst(block + "\n", end, |block| - |end|)
  {
    var i := |block| - |end|;
    OccursInHead(block, "\n", start, 0);
    OccursInHead(block, "\n", end, i);
    forall j | 0 <= j < i ensures !OccursAt(block + "\n", end, j) { OccursInHead(block, "\n", end, j); }
  }

  /** Where the markers of a file are after a block has been appended to it. */
  lemma AppendedMarkers(existing: string, one: string, header: string, start: string, end: string)
      returns (text: string, merged: string)
    requires Marker(start) && Marker(end) && IsBlock(one, start, end) && Appends(existing, start, end)
    ensures text == TrimRightBy(existing, IsCut) && text != "" && merged == text + "\n\n" + (one + "\n")
    ensures Merge(existing, one + "\n", header, start, end) == merged
    ensures var k := Index(existing, start); Index(merged, start) == if k >= 0 then k else |text| + 2
    ensures var k := Index(existing, end); Index(merged, end) == if k >= 0 then k else |text| + 2 + |one| - |end|
  {
    text := TrimRightBy(existing, IsCut);
    merged := text + "\n\n" + (one + "\n");
    MergeAppends(existing, one + "\n", header, start, end);
    BlockMarkers(one, start, end);
    IndexAfterAppend(existing, one + "\n", start, 0);
    IndexAfterAppend(existing, one + "\n", end, |one| - |end|);
  }

  lemma TrimAppended(text: string, block: string)
    requires Solid(block)
    ensures TrimRightBy(text + "\n\n" + (block + "\n"), IsCut) == text + "\n\n" + block
    ensures !Blank(text + "\n\n" + (block + "\n"))
  {
    var head := text + "\n\n";
    Assoc(head, block, "\n");
    assert (head + block)[|head + block| - 1] == block[|block| - 1];
    DropRightGap(head + block, "\n", IsCut);
    assert (head + (block + "\n"))[|head|] == block[0];
    assert block[0] in head + (block + "\n");
  }

  /** A stray end marker hides every block that is appended after it: each refresh adds one. */
  lemma GrowsAfterAStrayEnd(existing: string, one: string, two: string, header: string, start: string, end: string)
    requires Marker(start) && Marker(end) && IsBlock(one, start, end) && IsBlock(two, start, end)
    requires !Blank(existing) && Index(existing, end) >= 0
    requires Index(existing, start) == -1 || Index(existing, end) < Index(existing, start)
    ensures |Merge(Merge(existing, one + "\n", header, start, end), two + "\n", header, start, end)|
          > |Merge(existing, two + "\n", header, start, end)|
  {
    var text, merged := AppendedMarkers(existing, one, header, start, end);
    BlockEnds(one, start, end);
    TrimAppended(text, one);
    EndIsInText(existing, end);
    MergeAppends(merged, two + "\n", header, start, end);
    MergeAppends(existing, two + "\n", header, start, end);
  }

  lemma EndIsInText(existing: string, m: string)
    requires Marker(m) && Index(existing, m) >= 0
    ensures Index(existing, m) + |m| <= |TrimRightBy(existing, IsCut)|
  {
    MarkerSurvivesTrim(existing, m, Index(existing, m));
  }

  /** A start marker without an end swallows all that follows it: the second refresh takes
      the text between it and the appended block for the block. */
  lemma LosesTextAfterAStrayStart(existing: string, one: string, two: string, header: string, start: string,
                                  end: string)
    requires Marker(start) && Marker(end) && IsBlock(one, start, end) && IsBlock(two, start, end)
    requires !Blank(existing) && Index(existing, start) >= 0 && Index(existing, end) == -1
    ensures |Merge(Merge(existing, one + "\n", header, start, end), two + "\n", header, start, end)|
          < |Merge(existing, two + "\n", header, start, end)|
  {
    var text, merged := AppendedMarkers(existing, one, header, start, end);
    BlockEnds(two, start, end);
    EndIsInText(existing, start);
    MergeAppends(existing, two + "\n", header, start, end);
    var s, e := Index(existing, start), |text| + 2 + |one| - |end|;
    assert merged[e + |end|..] == "\n" by { Slices(text + "\n\n", one, "\n"); }
    MergeFound(merged, s, e, merged[..s], two, "\n", header, start, end);
    JoinedIsShort(merged[..s], two);
  }

  lemma JoinedIsShort(before: string, block: string)
    ensures |Joined(before, block, "\n")| <= |before| + 3 + |block|
  {
    NothingAfter();
  }

  /** Without markers the text is kept as it is exactly when nothing is trimmed in front. */
  lemma AbsorbsIntoPlainText(existing: string, one: string, two: string, header: string, start: string, end: string)
    requires Marker(start) && Marker(end) && IsBlock(one, start, end) && IsBlock(two, start, end)
    requires !Blank(existing) && Index(existing, start) == -1 && Index(existing, end) == -1
    ensures SameMerge(existing, one, two, header, start, end) <==> !IsSpace(existing[0])
  {
    var text := TrimRightBy(existing, IsCut);
    MergeAppends(existing, one + "\n", header, start, end);
    MergeAppends(existing, two + "\n", header, start, end);
    PlainTextIsClean(existing, start, end);
    BlockEnds(two, start, end);
    MergeAtBlock(text + "\n\n", one, "\n", two, header, start, end);
    DropEmptyLine(text);
    PlainTextIsNotBlank(existing);
    JoinedToText(text, two);
  }

  lemma PlainTextIsClean(existing: string, start: string, end: string)
    requires Marker(start) && Marker(end) && Index(existing, start) == -1 && Index(existing, end) == -1
    ensures CleanBefore(TrimRightBy(existing, IsCut) + "\n\n", start, end)
  {
    var text := TrimRightBy(existing, IsCut);
    forall i | 0 <= i <= |text| ensures !OccursAt(text, start, i) && !OccursAt(text, end, i) {
      MarkerSurvivesTrim(existing, start, i);
      MarkerSurvivesTrim(existing, end, i);
    }
    assert CleanText(text, text + "\n\n", start, end);
  }

  lemma PlainTextIsNotBlank(existing: string)
    requires !Blank(existing)
    ensures var text := TrimRightBy(existing, IsCut); text != "" && !Blank(text) && text[0] == existing[0]
  {
    var text := TrimRightBy(existing, IsCut);
    TrimRightShape(existing, IsCut);
    var i :| 0 <= i < |existing| && !IsSpace(existing[i]);
    assert i < |text|;
    assert text[i] == existing[..|text|][i];
  }

  lemma JoinedToText(text: string, block: string)
    requires !Blank(text) && TrimRightBy(text + "\n\n", IsCut) == text
    ensures Joined(text + "\n\n", block, "\n") == text + "\n\n" + (block + "\n") <==> !IsSpace(text[0])
  {
    NothingAfter();
    var left := TrimLeftBy(text, IsSpace);
    assert "" + "\n" == "\n";
    assert |left| == |text| <==> !IsSpace(text[0]);
  }

  /** When refreshing twice is the same as refreshing once with the second block. */
  predicate Absorbs(existing: string, start: string, end: string) {
    var s, e := Index(existing, start), Index(existing, end);
    || Blank(existing)
    || 0 <= s <= e
    || (s == -1 && e == -1 && !IsSpace(existing[0]))
  }

  /** The exact condition, for every text and any two generated blocks. */
  lemma MergeAbsorbsIff(existing: string, one: string, two: string, header: string, start: string, end: string)
    requires Marker(start) && Marker(end) && GoodHeader(header, start, end)
    requires IsBlock(one, start, end) && IsBlock(two, start, end)
    ensures SameMerge(existing, one, two, header, start, end) <==> Absorbs(existing, start, end)
  {
    var s, e := Index(existing, start), Index(existing, end);
    if Blank(existing) {
      AbsorbsIntoBlank(existing, one, two, header, start, end);
    } else if 0 <= s <= e {
      AbsorbsAtMarkers(existing, one, two, header, start, end);
    } else if e >= 0 {
      GrowsAfterAStrayEnd(existing, one, two, header, start, end);
    } else if s >= 0 {
      LosesTextAfterAStrayStart(existing, one, two, header, start, end);
    } else {
      AbsorbsIntoPlainText(existing, one, two, header, start, end);
    }
  }

  // ------------------------------------------------------------ what people wrote

  lemma PaddingIsTrimmed(a: string, z: string, b: string)
    requires Blank(a) && Blank(b)
    ensures TrimSpace(a + (z + b)) == TrimSpace(z)
  {
    TrimLeftConcat(a, z + b, IsSpace);
    TrimLeftConcat(z, b, IsSpace);
    TrimLeftOfBlank(b, IsSpace);
    TrimLeftOfBlank(z, IsSpace);
    TrimRightConcat(TrimLeftBy(z, IsSpace), b, IsSpace);
  }

  lemma TrimRightIsPadding(x: string, cut: char -> bool)
    requires forall c | cut(c) :: IsSpace(c)
    ensures TrimSpace(TrimRightBy(x, cut)) == TrimSpace(x)
  {
    var r := TrimRightBy(x, cut);
    TrimRightShape(x, cut);
    PaddingIsTrimmed("", r, x[|r|..]);
    assert x == "" + (r + x[|r|..]);
  }

  lemma TrimLeftIsPadding(x: string, cut: char -> bool)
    requires forall c | cut(c) :: IsSpace(c)
    ensures TrimSpace(TrimLeftBy(x, cut)) == TrimSpace(x)
  {
    var r := TrimLeftBy(x, cut);
    TrimLeftShape(x, cut);
    var w := x[..|x| - |r|];
    PaddingIsTrimmed(w, r, "");
    assert r + "" == r && x == w + r;
  }

  lemma BeforeIsPadding(text: string)
    ensures TrimSpace(Before(text)) == TrimSpace(text)
  {
    TrimSpaceOfBlank(text);
    TrimSpaceOfBlank("");
    if !Blank(text) {
      var left := TrimLeftBy(text, IsSpace);
      PaddingIsTrimmed("", left, "\n\n");
      assert "" + (left + "\n\n") == left + "\n\n";
      TrimLeftIsPadding(text, IsSpace);
    }
  }

  lemma AfterIsPadding(text: string)
    ensures TrimSpace(After(text) + "\n") == TrimSpace(text)
  {
    TrimSpaceOfBlank(text);
    TrimSpaceOfBlank("\n");
    if Blank(text) {
      assert "" + "\n" == "\n";
    } else {
      var right := TrimRightBy(text, IsSpace);
      PaddingIsTrimmed("\n", right, "\n");
      Assoc("\n", right, "\n");
      TrimRightIsPadding(text, IsSpace);
    }
  }

  /** Text outside the block survives up to the space around it. */
  lemma TextAroundTheBlockSurvives(existing: string, block: string, header: string, start: string, end: string)
      returns (before: string, after: string)
    requires Marker(start) && Marker(end) && IsBlock(block, start, end)
    requires 0 <= Index(existing, start) <= Index(existing, end)
    ensures Merge(existing, block + "\n", header, start, end) == before + (block + after)
    ensures TrimSpace(before) == TrimSpace(existing[..Index(existing, start)])
    ensures TrimSpace(after) == TrimSpace(existing[Index(existing, end) + |end|..])
  {
    var s, e := Index(existing, start), Index(existing, end);
    var head, tail := existing[..s], existing[e + |end|..];
    before, after := Before(TrimRightBy(head, IsCut)), After(TrimLeftBy(tail, IsCut)) + "\n";
    BlockEnds(block, start, end);
    MergeFound(existing, s, e, head, block, tail, header, start, end);
    BeforeIsPadding(TrimRightBy(head, IsCut));
    AfterIsPadding(TrimLeftBy(tail, IsCut));
    TrimRightIsPadding(head, IsCut);
    TrimLeftIsPadding(tail, IsCut);
  }

  lemma AppendedTextSurvives(existing: string, block: string, header: string, start: string, end: string)
      returns (before: string)
    requires Appends(existing, start, end)
    ensures Merge(existing, block + "\n", header, start, end) == before + (block + "\n")
    ensures TrimSpace(before) == TrimSpace(existing)
  {
    var text := TrimRightBy(existing, IsCut);
    before := text + "\n\n";
    MergeAppends(existing, block + "\n", header, start, end);
    TrimRightIsPadding(existing, IsCut);
    PaddingIsTrimmed("", text, "\n\n");
    assert before == "" + (text + "\n\n");
  }

  // ------------------------------------------------------------ the real constants

  lemma ConstantsAreMarkers()
    ensures Marker(START) && Marker(END)
  {
  }

  lemma HeaderIsGood(cursor: bool)
    ensures GoodHeader(if cursor then CURSOR_HEADER + "\n\n" else "", START, END)
  {
    if cursor {
      HeaderHasNoMarker();
      assert CleanText(CURSOR_HEADER, CURSOR_HEADER + "\n\n", START, END);
      assert CURSOR_TITLE[0] == '-' && CURSOR_END[|CURSOR_END| - 1] == '-';
      DropEmptyLine(CURSOR_HEADER);
      BeforeOfTrimmed(CURSOR_HEADER);
    }
  }

  lemma HeaderHasNoMarker()
    ensures !Contains(CURSOR_HEADER, START) && !Contains(CURSOR_HEADER, END)
  {
    assert '<' !in CURSOR_TITLE && '<' !in CURSOR_TEXT && '<' !in CURSOR_END;
    forall i, m | m in {START, END} && OccursAt(CURSOR_HEADER, m, i)
      ensures false
    {
      OccursFirstChar(CURSOR_HEADER, m, i);
    }
  }

  /** mergeManaged absorbs exactly under this condition, whatever the agent and whatever
      two generated blocks. */
  lemma MergeManagedAbsorbsIff(existing: string, one: string, two: string, cursor: bool)
    requires IsBlock(one, START, END) && IsBlock(two, START, END)
    ensures var again := MergeManaged(MergeManaged(existing, one + "\n", cursor), two + "\n", cursor);
      again == MergeManaged(existing, two + "\n", cursor) <==> Absorbs(existing, START, END)
  {
    ConstantsAreMarkers();
    HeaderIsGood(cursor);
    MergeAbsorbsIff(existing, one, two, if cursor then CURSOR_HEADER + "\n\n" else "", START, END);
  }
}
