/** How many bytes the indented encoder of Go's encoding/json writes (json.MarshalIndent with
    two spaces), and how many a text has in UTF-8. */
module JsonSize {
  import opened Text

  function Utf8Width(c: char): (n: nat)
    ensures 1 <= n <= 4
  {
    if c < '\U{80}' then 1 else if c < '\U{800}' then 2 else if c < '\U{10000}' then 3 else 4
  }

  /** len of a string. */
  function Utf8Size(s: string): nat {
    if s == "" then 0 else Utf8Width(s[0]) + Utf8Size(s[1..])
  }

  /** Quotes, backslashes and control characters are escaped, and so is what HTML or
      JavaScript would read. */
  function EscapedWidth(c: char): (n: nat)
    ensures 1 <= n <= 6
  {
    if c in {'"', '\\', '\n', '\r', '\t', '\U{8}', '\U{C}'} then 2
    else if c < ' ' || c in {'<', '>', '&', '\U{2028}', '\U{2029}'} then 6
    else Utf8Width(c)
  }

  function EscapedSize(s: string): nat {
    if s == "" then 0 else EscapedWidth(s[0]) + EscapedSize(s[1..])
  }

  lemma {:induction false} SizesOfText(s: string)
    ensures |s| <= Utf8Size(s) <= 4 * |s| && |s| <= EscapedSize(s) <= 6 * |s|
  {
    if s != "" { SizesOfText(s[1..]); }
  }

  /** A string between its quotes. */
  function TextSize(s: string): nat {
    2 + EscapedSize(s)
  }

  function Repeated(c: char, n: nat): (s: string)
    ensures |s| == n
  {
    seq(n, i => c)
  }

  lemma RepeatedRest(c: char, n: nat)
    requires n > 0
    ensures Repeated(c, n)[0] == c && Repeated(c, n)[1..] == Repeated(c, n - 1)
  {
  }

  lemma {:induction false} RepeatedUtf8Size(c: char, n: nat)
    ensures Utf8Size(Repeated(c, n)) == n * Utf8Width(c)
  {
    if n > 0 {
      RepeatedRest(c, n);
      RepeatedUtf8Size(c, n - 1);
    }
  }

  lemma {:induction false} RepeatedEscapedSize(c: char, n: nat)
    ensures EscapedSize(Repeated(c, n)) == n * EscapedWidth(c)
  {
    if n > 0 {
      RepeatedRest(c, n);
      RepeatedEscapedSize(c, n - 1);
    }
  }

  // ----------------------------------------------------------- sums over a map

  /** The encoder visits the keys in order. */
  function Total(sizes: map<string, nat>): nat
    decreases |sizes|
  {
    if sizes == map[] then 0
    else
      var key := Least(sizes.Keys);
      FewerKeys(sizes, key);
      sizes[key] + Total(sizes - {key})
  }

  lemma FewerKeys(sizes: map<string, nat>, key: string)
    requires key in sizes
    ensures (sizes - {key}).Keys == sizes.Keys - {key} && |sizes - {key}| == |sizes| - 1
  {
    assert (sizes - {key}).Keys == sizes.Keys - {key};
    assert |(sizes - {key}).Keys| == |sizes - {key}| && |sizes.Keys| == |sizes|;
  }

  /** Every entry counts for itself. */
  lemma {:induction false} TotalWithout(sizes: map<string, nat>, key: string)
    requires key in sizes
    ensures Total(sizes) == sizes[key] + Total(sizes - {key})
    decreases |sizes|
  {
    var least := Least(sizes.Keys);
    if least != key {
      FewerKeys(sizes, key);
      FewerKeys(sizes, least);
      TotalWithout(sizes - {least}, key);
      assert IsLeast(least, (sizes - {key}).Keys);
      LeastIsUnique(least, Least((sizes - {key}).Keys), (sizes - {key}).Keys);
      assert sizes - {least} - {key} == sizes - {key} - {least};
    }
  }

  lemma TotalAfterPut(sizes: map<string, nat>, key: string, size: nat)
    ensures Total(sizes[key := size]) == Total(sizes) + size - (if key in sizes then sizes[key] else 0)
  {
    assert sizes[key := size] - {key} == sizes - {key};
    TotalWithout(sizes[key := size], key);
    if key in sizes {
      TotalWithout(sizes, key);
    } else {
      assert sizes - {key} == sizes;
    }
  }

  lemma {:induction false} TotalBetween(sizes: map<string, nat>, n: nat, low: nat, high: nat)
    requires |sizes| == n && forall k <- sizes :: low <= sizes[k] <= high
    ensures n * low <= Total(sizes) <= n * high
    decreases n
  {
    if n > 0 {
      assert sizes.Keys != {} by { assert |sizes.Keys| == n; }
      var key := Least(sizes.Keys);
      FewerKeys(sizes, key);
      TotalBetween(sizes - {key}, n - 1, low, high);
      OneMoreTime(n, low);
      OneMoreTime(n, high);
    }
  }

  lemma OneMoreTime(n: nat, x: nat)
    requires n > 0
    ensures n * x == (n - 1) * x + x
  {
  }

  /** Fewer entries take less room. */
  lemma {:induction false} TotalOfFewer(sizes: map<string, nat>, kept: map<string, nat>)
    requires kept.Keys <= sizes.Keys && forall k <- kept :: kept[k] == sizes[k]
    ensures Total(kept) <= Total(sizes)
    decreases |sizes|
  {
    if key :| key in sizes && key !in kept {
      FewerKeys(sizes, key);
      TotalWithout(sizes, key);
      TotalOfFewer(sizes - {key}, kept);
    } else {
      assert kept == sizes;
    }
  }
}
