/** Carrying a Windows string over an ASCII boundary: UTF-16LE in Base64
    (internal/pathenv/transport.go). */
module Transport {
  import opened Wrappers
  import opened Text

  /** A Unicode scalar value, a 16-bit unit, a byte and a 6-bit digit. */
  type Scalar = v: int | (0 <= v < 0xD800) || (0xE000 <= v < 0x110000) witness 0
  type Code = v: int | 0 <= v < 0x10000 witness 0
  type Byte = v: int | 0 <= v < 256 witness 0
  type Digit = v: int | 0 <= v < 64 witness 0

  const MAX_TRANSPORT_BYTES := 128 * 1024

  // -------------------------------------------------------------------- UTF-16

  predicate IsHigh(u: Code) {
    0xD800 <= u <= 0xDBFF
  }

  predicate IsLow(u: Code) {
    0xDC00 <= u <= 0xDFFF
  }

  /** utf16.Encode on scalar values. */
  function Units(text: seq<Scalar>): seq<Code> {
    if text == [] then [] else UnitsOf(text[0]) + Units(text[1..])
  }

  function UnitsOf(v: Scalar): (units: seq<Code>)
    ensures |units| == 1 ==> units == [v] && !IsHigh(units[0]) && !IsLow(units[0])
    ensures |units| == 1 || (|units| == 2 && IsHigh(units[0]) && IsLow(units[1]) && Combine(units[0], units[1]) == v)
  {
    if v < 0x10000 then [v]
    else
      var high: Code, low: Code := 0xD800 + (v - 0x10000) / 0x400, 0xDC00 + (v - 0x10000) % 0x400;
      [high, low]
  }

  function Combine(high: Code, low: Code): (v: Scalar)
    requires IsHigh(high) && IsLow(low)
    ensures v >= 0x10000
  {
    0x10000 + (high - 0xD800) * 0x400 + (low - 0xDC00)
  }

  /** Section 2.1 of RFC 2781: a unit outside the surrogates, or a high one and a low one. */
  predicate WellFormed(units: seq<Code>) {
    if units == [] then true
    else if IsHigh(units[0]) then |units| > 1 && IsLow(units[1]) && WellFormed(units[2..])
    else !IsLow(units[0]) && WellFormed(units[1..])
  }

  /** utf16.Decode; a stray surrogate, which the scan refuses first, would become U+FFFD. */
  function Scalars(units: seq<Code>): seq<Scalar> {
    if units == [] then []
    else if IsHigh(units[0]) && |units| > 1 && IsLow(units[1]) then [Combine(units[0], units[1])] + Scalars(units[2..])
    else if IsHigh(units[0]) || IsLow(units[0]) then [0xFFFD] + Scalars(units[1..])
    else [units[0]] + Scalars(units[1..])
  }

  /** Whatever is encoded is well formed and decodes to what it was. */
  lemma {:induction false} DecodeUnits(text: seq<Scalar>)
    ensures WellFormed(Units(text)) && Scalars(Units(text)) == text
  {
    if text != [] {
      DecodeUnits(text[1..]);
      var first, rest := UnitsOf(text[0]), Units(text[1..]);
      if |first| == 1 {
        assert (first + rest)[1..] == rest;
      } else {
        assert (first + rest)[2..] == rest;
      }
    }
  }

  /** Well-formed units are those of the text they decode to. */
  lemma {:induction false} EncodeScalars(units: seq<Code>)
    requires WellFormed(units)
    ensures Units(Scalars(units)) == units
    decreases |units|
  {
    if units != [] {
      if IsHigh(units[0]) {
        EncodeScalars(units[2..]);
        var text := Scalars(units);
        assert text[1..] == Scalars(units[2..]);
        PairOfCombined(units[0], units[1]);
        assert units == [units[0], units[1]] + units[2..];
      } else {
        EncodeScalars(units[1..]);
        assert Scalars(units)[1..] == Scalars(units[1..]);
        assert units == [units[0]] + units[1..];
      }
    }
  }

  lemma PairOfCombined(high: Code, low: Code)
    requires IsHigh(high) && IsLow(low)
    ensures UnitsOf(Combine(high, low)) == [high, low]
  {
  }

  /** So a sequence of units is well formed exactly when it is the encoding of some text. */
  lemma WellFormedIffEncoded(units: seq<Code>)
    ensures WellFormed(units) <==> exists text: seq<Scalar> :: Units(text) == units
  {
    if WellFormed(units) { EncodeScalars(units); }
    if text: seq<Scalar> :| Units(text) == units { DecodeUnits(text); }
  }

  // ----------------------------------------------------------------- bytes, LE

  function Bytes(units: seq<Code>): seq<Byte> {
    if units == [] then [] else [units[0] % 256, units[0] / 256] + Bytes(units[1..])
  }

  function CodeOf(low: Byte, high: Byte): Code {
    low as int + 256 * (high as int)
  }

  function Codes(bytes: seq<Byte>): seq<Code>
    requires |bytes| % 2 == 0
  {
    if bytes == [] then [] else [CodeOf(bytes[0], bytes[1])] + Codes(bytes[2..])
  }

  lemma {:induction false} CodesOfBytes(units: seq<Code>)
    ensures |Bytes(units)| == 2 * |units| && Codes(Bytes(units)) == units
  {
    if units != [] {
      CodesOfBytes(units[1..]);
      assert Bytes(units)[2..] == Bytes(units[1..]);
    }
  }

  lemma {:induction false} BytesOfCodes(bytes: seq<Byte>)
    requires |bytes| % 2 == 0
    ensures Bytes(Codes(bytes)) == bytes
    decreases |bytes|
  {
    if bytes != [] {
      BytesOfCodes(bytes[2..]);
      assert Codes(bytes)[1..] == Codes(bytes[2..]);
      assert bytes == [bytes[0], bytes[1]] + bytes[2..];
    }
  }

  lemma {:induction false} BytesOfMore(units: seq<Code>, u: Code)
    ensures Bytes(units + [u]) == Bytes(units) + [u % 256, u / 256]
  {
    if units == [] {
      assert units + [u] == [u] && [u][1..] == [];
    } else {
      BytesOfMore(units[1..], u);
      assert (units + [u])[1..] == units[1..] + [u];
    }
  }

  lemma {:induction false} CodesOfMore(bytes: seq<Byte>, low: Byte, high: Byte)
    requires |bytes| % 2 == 0
    ensures Codes(bytes + [low, high]) == Codes(bytes) + [CodeOf(low, high)]
    decreases |bytes|
  {
    if bytes == [] {
      assert bytes + [low, high] == [low, high] && [low, high][2..] == [];
    } else {
      CodesOfMore(bytes[2..], low, high);
      assert (bytes + [low, high])[2..] == bytes[2..] + [low, high];
    }
  }

  // -------------------------------------------------------------------- Base64

  /** Table 1 of section 4 of RFC 4648. */
  function CharOf(d: Digit): char {
    if d < 26 then ('A' as int + d) as char
    else if d < 52 then ('a' as int + d - 26) as char
    else if d < 62 then ('0' as int + d - 52) as char
    else if d == 62 then '+' else '/'
  }

  function DigitOf(c: char): Option<Digit> {
    if 'A' <= c <= 'Z' then Some(c as int - 'A' as int)
    else if 'a' <= c <= 'z' then Some(c as int - 'a' as int + 26)
    else if '0' <= c <= '9' then Some(c as int - '0' as int + 52)
    else if c == '+' then Some(62) else if c == '/' then Some(63) else None
  }

  lemma DigitOfChar(d: Digit)
    ensures DigitOf(CharOf(d)) == Some(d) && !IsSpace(CharOf(d)) && CharOf(d) != '='
  {
  }

  /** Three bytes as four digits; where only `n` bytes are left, the rest is padding. */
  function Group(x: Byte, y: Byte, z: Byte, n: nat): (g: string)
    ensures |g| == 4
  {
    [CharOf(x / 4), CharOf(x % 4 * 16 + y / 16),
     if n > 1 then CharOf(y % 16 * 4 + z / 64) else '=',
     if n > 2 then CharOf(z % 64) else '=']
  }

  function ByteAt(data: seq<Byte>, i: nat): Byte {
    if i < |data| then data[i] else 0
  }

  function GroupSize(data: seq<Byte>): (n: nat)
    ensures n <= 3 && n <= |data| && (data != [] ==> n > 0)
  {
    if |data| > 3 then 3 else |data|
  }

  function Encode64(data: seq<Byte>): string {
    if data == [] then ""
    else Group(ByteAt(data, 0), ByteAt(data, 1), ByteAt(data, 2), GroupSize(data)) + Encode64(data[GroupSize(data)..])
  }

  predicate IsBreak(c: char) {
    c == '\r' || c == '\n'
  }

  function WithoutBreaks(s: string): string {
    if s == "" then "" else (if IsBreak(s[0]) then "" else [s[0]]) + WithoutBreaks(s[1..])
  }

  /** StdEncoding.DecodeString: line breaks are skipped anywhere, and the bits of the last
      digit that no byte takes are not looked at. */
  function Decode64(s: string): Option<seq<Byte>> {
    DecodeGroups(WithoutBreaks(s))
  }

  function DecodeGroups(s: string): Option<seq<Byte>> {
    if s == "" then Some([])
    else if |s| < 4 then None
    else
      var group := DecodeGroup(s[0], s[1], s[2], s[3], |s| == 4);
      var rest := DecodeGroups(s[4..]);
      if group.None? || rest.None? then None else Some(group.value + rest.value)
  }

  /** Padding is accepted in the last group only. */
  function DecodeGroup(p: char, q: char, r: char, s: char, last: bool): Option<seq<Byte>> {
    var a, b, c, d := DigitOf(p), DigitOf(q), DigitOf(r), DigitOf(s);
    if a.None? || b.None? then None
    else if last && r == '=' && s == '=' then Some([First(a.value, b.value)])
    else if c.None? then None
    else if last && s == '=' then Some([First(a.value, b.value), Second(b.value, c.value)])
    else if d.None? then None
    else Some([First(a.value, b.value), Second(b.value, c.value), Third(c.value, d.value)])
  }

  function First(a: Digit, b: Digit): Byte {
    a * 4 + b / 16
  }

  function Second(b: Digit, c: Digit): Byte {
    b % 16 * 16 + c / 4
  }

  function Third(c: Digit, d: Digit): Byte {
    c % 4 * 64 + d
  }

  lemma GroupDecodes(x: Byte, y: Byte, z: Byte)
    ensures First(x / 4, x % 4 * 16 + y / 16) == x
    ensures Second(x % 4 * 16 + y / 16, y % 16 * 4 + z / 64) == y
    ensures Third(y % 16 * 4 + z / 64, z % 64) == z
  {
  }

  lemma DigitsAreRead(a: Digit, b: Digit, c: Digit, d: Digit, n: nat, last: bool)
    requires 1 <= n <= 3 && (n < 3 ==> last)
    ensures DecodeGroup(CharOf(a), CharOf(b), if n > 1 then CharOf(c) else '=', if n > 2 then CharOf(d) else '=', last)
         == Some(if n == 1 then [First(a, b)]
                 else if n == 2 then [First(a, b), Second(b, c)]
                 else [First(a, b), Second(b, c), Third(c, d)])
  {
    DigitOfChar(a);
    DigitOfChar(b);
    DigitOfChar(c);
    DigitOfChar(d);
    assert DigitOf('=').None?;
  }

  /** A group is read back as the bytes it was made of. */
  lemma GroupIsRead(x: Byte, y: Byte, z: Byte, n: nat, last: bool)
    requires 1 <= n <= 3 && (n < 3 ==> last && z == 0) && (n < 2 ==> y == 0)
    ensures var g := Group(x, y, z, n); DecodeGroup(g[0], g[1], g[2], g[3], last) == Some([x, y, z][..n])
  {
    DigitsAreRead(x / 4, x % 4 * 16 + y / 16, y % 16 * 4 + z / 64, z % 64, n, last);
    GroupDecodes(x, y, z);
    assert [x, y, z][..n] == if n == 1 then [x] else if n == 2 then [x, y] else [x, y, z];
  }

  lemma FirstGroup(g: string, rest: string)
    requires |g| == 4
    ensures DecodeGroups(g + rest) ==
      var group, more := DecodeGroup(g[0], g[1], g[2], g[3], rest == ""), DecodeGroups(rest);
      if group.None? || more.None? then None else Some(group.value + more.value)
  {
    assert (g + rest)[4..] == rest;
  }

  lemma FirstBytes(data: seq<Byte>)
    requires data != []
    ensures [ByteAt(data, 0), ByteAt(data, 1), ByteAt(data, 2)][..GroupSize(data)] + data[GroupSize(data)..] == data
  {
  }

  lemma {:induction false} DecodeGroupsOfEncoded(data: seq<Byte>)
    ensures DecodeGroups(Encode64(data)) == Some(data)
  {
    if data != [] {
      var n, x, y, z := GroupSize(data), ByteAt(data, 0), ByteAt(data, 1), ByteAt(data, 2);
      var rest := data[n..];
      DecodeGroupsOfEncoded(rest);
      assert rest == [] <==> Encode64(rest) == "";
      GroupIsRead(x, y, z, n, rest == []);
      FirstGroup(Group(x, y, z, n), Encode64(rest));
      FirstBytes(data);
    }
  }

  /** The length is that of section 4: four characters for every three bytes begun. */
  lemma {:induction false} EncodedLength(data: seq<Byte>)
    ensures |Encode64(data)| == (|data| + 2) / 3 * 4
  {
    if data != [] {
      EncodedLength(data[GroupSize(data)..]);
      CountGroups(|data|, GroupSize(data));
    }
  }

  lemma CountGroups(bytes: nat, group: nat)
    requires bytes > 0 && group == if bytes < 3 then bytes else 3
    ensures (bytes - group + 2) / 3 + 1 == (bytes + 2) / 3
  {
  }

  /** No space and no line break occurs in an encoding. */
  lemma {:induction false} EncodedIsSolid(data: seq<Byte>)
    ensures forall c <- Encode64(data) :: !IsSpace(c)
  {
    if data != [] {
      forall d: Digit ensures !IsSpace(CharOf(d)) { DigitOfChar(d); }
      EncodedIsSolid(data[GroupSize(data)..]);
    }
  }

  lemma {:induction false} NoBreaks(s: string)
    requires forall c <- s :: !IsSpace(c)
    ensures WithoutBreaks(s) == s
  {
    if s != "" {
      NoBreaks(s[1..]);
      assert s[0] in s && !IsBreak(s[0]);
      assert s == [s[0]] + s[1..];
    }
  }

  lemma SolidIsTrimmed(s: string)
    requires s == "" || (!IsSpace(s[0]) && !IsSpace(s[|s| - 1]))
    ensures TrimSpace(s) == s
  {
  }

  /** Base64 is read back from its own encoding, trimmed or not. */
  lemma DecodeEncoded64(data: seq<Byte>)
    ensures Decode64(TrimSpace(Encode64(data))) == Some(data)
  {
    var s := Encode64(data);
    EncodedIsSolid(data);
    if s != "" { assert s[0] in s && s[|s| - 1] in s; }
    SolidIsTrimmed(s);
    NoBreaks(s);
    DecodeGroupsOfEncoded(data);
  }

  // ----------------------------------------------------------------- transport

  function Encode(text: seq<Scalar>): string {
    Encode64(Bytes(Units(text)))
  }

  datatype Reading = BadBase64 | OddBytes | Unpaired | Read(text: seq<Scalar>)

  function Decode(value: string): Reading {
    match Decode64(TrimSpace(value))
    case None => BadBase64
    case Some(data) =>
      if |data| % 2 != 0 then OddBytes
      else if WellFormed(Codes(data)) then Read(Scalars(Codes(data)))
      else Unpaired
  }

  /** Decoding inverts encoding on every text. */
  lemma DecodeEncoded(text: seq<Scalar>)
    ensures Decode(Encode(text)) == Read(text)
  {
    DecodeEncoded64(Bytes(Units(text)));
    DecodedBytes(Encode(text), Units(text));
    DecodeUnits(text);
  }

  lemma DecodedBytes(value: string, units: seq<Code>)
    requires Decode64(TrimSpace(value)) == Some(Bytes(units))
    ensures Decode(value) == if WellFormed(units) then Read(Scalars(units)) else Unpaired
  {
    CodesOfBytes(units);
  }

  /** An accepted payload is encoded again to the same bytes, though line breaks and unused
      bits of the payload itself are not kept. */
  lemma EncodeDecoded(value: string)
    requires Decode(value).Read?
    ensures Decode64(TrimSpace(value)) == Some(Bytes(Units(Decode(value).text)))
    ensures Decode(Encode(Decode(value).text)) == Decode(value)
  {
    var data := Decode64(TrimSpace(value)).value;
    EncodeScalars(Codes(data));
    BytesOfCodes(data);
    DecodeEncoded(Decode(value).text);
  }

  lemma FirstThenRest(a: string, b: string)
    requires a != ""
    ensures WithoutBreaks(a + b) == (if IsBreak(a[0]) then "" else [a[0]]) + WithoutBreaks(a[1..] + b)
  {
    assert (a + b)[1..] == a[1..] + b;
  }

  lemma {:induction false} WithoutBreaksConcat(a: string, b: string)
    ensures WithoutBreaks(a + b) == WithoutBreaks(a) + WithoutBreaks(b)
  {
    if a == "" {
      assert a + b == b;
    } else {
      WithoutBreaksConcat(a[1..], b);
      FirstThenRest(a, b);
      Assoc(if IsBreak(a[0]) then "" else [a[0]], WithoutBreaks(a[1..]), WithoutBreaks(b));
    }
  }

  /** A payload is not unique: line breaks may stand anywhere in it... */
  lemma BreaksDoNotMatter(a: string, breaks: string, b: string)
    requires forall c <- breaks :: IsBreak(c)
    ensures Decode64(a + breaks + b) == Decode64(a + b)
  {
    WithoutBreaksConcat(a + breaks, b);
    WithoutBreaksConcat(a, breaks);
    WithoutBreaksConcat(a, b);
    OnlyBreaks(breaks);
    assert WithoutBreaks(a) + "" == WithoutBreaks(a);
  }

  lemma {:induction false} OnlyBreaks(s: string)
    requires forall c <- s :: IsBreak(c)
    ensures WithoutBreaks(s) == ""
  {
    if s != "" {
      assert s[0] in s;
      OnlyBreaks(s[1..]);
    }
  }

  /** ...and the low bits of the digit before the padding are not looked at. */
  lemma UnusedBitsDoNotMatter(a: Digit, b: Digit, other: Digit)
    requires b / 16 == other / 16
    ensures DecodeGroups([CharOf(a), CharOf(b), '=', '=']) == Some([First(a, b)])
    ensures DecodeGroups([CharOf(a), CharOf(other), '=', '=']) == Some([First(a, b)])
  {
    DigitOfChar(a);
    DigitOfChar(b);
    DigitOfChar(other);
    OneGroup([CharOf(a), CharOf(b), '=', '=']);
    OneGroup([CharOf(a), CharOf(other), '=', '=']);
  }

  lemma OneGroup(g: string)
    requires |g| == 4
    ensures DecodeGroups(g) == DecodeGroup(g[0], g[1], g[2], g[3], true)
  {
    FirstGroup(g, "");
    assert g + "" == g;
    var group := DecodeGroup(g[0], g[1], g[2], g[3], true);
    assert group.Some? ==> group.value + [] == group.value;
  }

  /** The budget holds an encoding of n units exactly when n is at most 49152; so the 32767
      units of the longest Windows value fit, in 87380 bytes. */
  lemma FitsBudgetIff(text: seq<Scalar>)
    ensures |Encode(text)| <= MAX_TRANSPORT_BYTES <==> |Units(text)| <= 49152
    ensures |Units(text)| == 32767 ==> |Encode(text)| == 87380
  {
    CodesOfBytes(Units(text));
    EncodedLength(Bytes(Units(text)));
    Budget(|Units(text)|, |Encode(text)|);
  }

  lemma Budget(n: nat, length: nat)
    requires length == (2 * n + 2) / 3 * 4
    ensures length <= MAX_TRANSPORT_BYTES <==> n <= 49152
    ensures n == 32767 ==> length == 87380
  {
  }

  // -------------------------------------------------------------------- methods

  /** The loop that lays the units out in bytes. */
  method EncodeWindowsString(value: seq<Scalar>) returns (r: string)
    ensures r == Encode(value)
  {
    var units := Units(value);
    var data := new Byte[|units| * 2];
    for index := 0 to |units|
      invariant data[..2 * index] == Bytes(units[..index])
    {
      BytesOfMore(units[..index], units[index]);
      assert units[..index + 1] == units[..index] + [units[index]];
      data[index * 2] := units[index] % 256;
      data[index * 2 + 1] := units[index] / 256;
      assert data[..2 * (index + 1)] == data[..2 * index] + [units[index] % 256, units[index] / 256];
    }
    assert units[..|units|] == units && data[..2 * |units|] == data[..];
    r := Encode64(data[..]);
  }

  /** The loops that read the units back and look for stray surrogates. */
  method DecodeWindowsString(value: string) returns (r: Reading)
    ensures r == Decode(value)
  {
    var data := Decode64(TrimSpace(value));
    if data.None? { return BadBase64; }
    if |data.value| % 2 != 0 { return OddBytes; }
    var units := ReadUnits(data.value);
    var paired := ScanSurrogates(units);
    if !paired { return Unpaired; }
    r := Read(Scalars(units));
  }

  method ReadUnits(data: seq<Byte>) returns (units: seq<Code>)
    requires |data| % 2 == 0
    ensures units == Codes(data)
  {
    var read := new Code[|data| / 2];
    for index := 0 to read.Length
      invariant read[..index] == Codes(data[..2 * index])
    {
      CodesOfMore(data[..2 * index], data[index * 2], data[index * 2 + 1]);
      assert data[..2 * (index + 1)] == data[..2 * index] + [data[index * 2], data[index * 2 + 1]];
      read[index] := CodeOf(data[index * 2], data[index * 2 + 1]);
      assert read[..index + 1] == read[..index] + [read[index]];
    }
    assert data[..2 * read.Length] == data && read[..read.Length] == read[..];
    units := read[..];
  }

  /** The scan accepts exactly the well-formed sequences. */
  method ScanSurrogates(units: seq<Code>) returns (ok: bool)
    ensures ok <==> WellFormed(units)
  {
    var index := 0;
    while index < |units|
      invariant 0 <= index <= |units|
      invariant WellFormed(units) <==> WellFormed(units[index..])
    {
      var unit := units[index];
      if 0xD800 <= unit <= 0xDBFF {
        if index + 1 >= |units| || units[index + 1] < 0xDC00 || units[index + 1] > 0xDFFF { return false; }
        assert units[index..][2..] == units[index + 2..];
        index := index + 1;
      } else if 0xDC00 <= unit <= 0xDFFF {
        return false;
      } else {
        assert units[index..][1..] == units[index + 1..];
      }
      index := index + 1;
    }
    return true;
  }
}
