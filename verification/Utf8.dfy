/**
  The runtime's text encoder and decoder: strings are vectors of 32-bit code points, C strings
  are UTF-8 up to a zero byte.
*/
module Utf8 {
  import opened Sequences

  /** The low eight bits, as a store to a `char` keeps them. */
  function Low(x: bv32): bv8 {
    (x & 0xFF) as bv8
  }

  /** Dropping the low six bits once, twice and three times. */
  function Drop6(c: bv32): bv32 {
    c >> 6
  }

  function Drop12(c: bv32): bv32 {
    Drop6(Drop6(c))
  }

  function Drop18(c: bv32): bv32 {
    Drop6(Drop12(c))
  }

  /** The form of section 3 of RFC 3629 for each range of code points. */
  function Encoding(c: bv32): (bytes: seq<bv8>)
    requires c < 0x20_0000
    ensures 1 <= |bytes| <= 4
  {
    if c < 0x80 then [Low(c)]
    else if c < 0x800 then [Low(0xC0 | Drop6(c)), Trail(c)]
    else if c < 0x1_0000 then [Low(0xE0 | Drop12(c)), Trail(Drop6(c)), Trail(c)]
    else [Low(0xF0 | Drop18(c)), Trail(Drop12(c)), Trail(Drop6(c)), Trail(c)]
  }

  /** A continuation byte with the low six bits. */
  function Trail(c: bv32): bv8 {
    Low((c & 0x3F) | 0x80)
  }

  predicate Encodable(text: seq<bv32>) {
    forall i :: 0 <= i < |text| ==> text[i] < 0x20_0000
  }

  function EncodingOf(text: seq<bv32>): (bytes: seq<bv8>)
    requires Encodable(text)
    ensures |text| <= |bytes| <= 4 * |text|
  {
    if text == [] then [] else Encoding(text[0]) + EncodingOf(text[1..])
  }

  lemma {:induction false} EncodingOfAppend(a: seq<bv32>, b: seq<bv32>)
    requires Encodable(a) && Encodable(b)
    ensures Encodable(a + b)
    ensures EncodingOf(a + b) == EncodingOf(a) + EncodingOf(b)
  {
    hide Encoding;
    if a == [] {
      assert a + b == b;
    } else {
      EncodingOfAppend(a[1..], b);
      assert (a + b)[0] == a[0] && (a + b)[1..] == a[1..] + b;
      Assoc(Encoding(a[0]), EncodingOf(a[1..]), EncodingOf(b));
    }
  }

  // ---------------------------------------------------------------- decoding

  /** The number of leading one bits of a byte. */
  function LeadingOnes(b: bv8): (k: nat)
    ensures k <= 8
  {
    if b & 0x80 == 0 then 0
    else if b & 0x40 == 0 then 1
    else if b & 0x20 == 0 then 2
    else if b & 0x10 == 0 then 3
    else if b & 0x08 == 0 then 4
    else if b & 0x04 == 0 then 5
    else if b & 0x02 == 0 then 6
    else if b & 0x01 == 0 then 7
    else 8
  }

  /** All ones below `k` leading zeros, in eight bits. */
  function Mask(k: nat): bv32
    requires k <= 8
  {
    match k
    case 0 => 0xFF case 1 => 0x7F case 2 => 0x3F case 3 => 0x1F case 4 => 0x0F
    case 5 => 0x07 case 6 => 0x03 case 7 => 0x01 case _ => 0x00
  }

  /** Six more bits from a continuation byte. */
  function Join(value: bv32, b: bv8): bv32 {
    (value << 6) + (b as bv32 & 0x3F)
  }

  /** What a leading byte contributes. */
  function FirstBits(b: bv8): bv32 {
    b as bv32 & Mask(LeadingOnes(b))
  }

  /** Folds in up to `k` continuation bytes, stopping at a zero byte; also says how many it used. */
  function Trailing(value: bv32, bytes: seq<bv8>, k: int): (r: (bv32, nat))
    ensures r.1 <= |bytes|
    decreases |bytes|
  {
    if k <= 0 || bytes == [] || bytes[0] == 0 then (value, 0)
    else
      var (v, n) := Trailing(Join(value, bytes[0]), bytes[1..], k - 1);
      (v, n + 1)
  }

  /** The code point at the start of some bytes, and how many bytes it takes. */
  function Decoded(bytes: seq<bv8>): (r: (bv32, nat))
    requires bytes != []
    ensures 1 <= r.1 <= |bytes|
  {
    var k := LeadingOnes(bytes[0]);
    var (v, n) := Trailing(FirstBits(bytes[0]), bytes[1..], k - 1);
    (v, n + 1)
  }

  predicate IsTrail(b: bv8) {
    0x80 <= b < 0xC0
  }

  lemma TrailIsTrail(c: bv32)
    ensures IsTrail(Trail(c)) && Trail(c) != 0
  {
  }

  lemma TrailingOne(value: bv32, b: bv8, rest: seq<bv8>, k: int)
    requires b != 0 && k > 0
    ensures Trailing(value, [b] + rest, k)
         == (Trailing(Join(value, b), rest, k - 1).0, Trailing(Join(value, b), rest, k - 1).1 + 1)
  {
    hide Join;
    assert ([b] + rest)[1..] == rest;
  }

  lemma OneByte(c: bv32)
    requires c < 0x80
    ensures LeadingOnes(Low(c)) == 0 && FirstBits(Low(c)) == c
  {
  }

  lemma TwoBytes(c: bv32)
    requires 0x80 <= c < 0x800
    ensures LeadingOnes(Low(0xC0 | Drop6(c))) == 2 && FirstBits(Low(0xC0 | Drop6(c))) == Drop6(c)
  {
  }

  lemma ThreeBytes(c: bv32)
    requires 0x800 <= c < 0x1_0000
    ensures LeadingOnes(Low(0xE0 | Drop12(c))) == 3 && FirstBits(Low(0xE0 | Drop12(c))) == Drop12(c)
  {
  }

  lemma FourBytes(c: bv32)
    requires 0x1_0000 <= c < 0x20_0000
    ensures LeadingOnes(Low(0xF0 | Drop18(c))) == 4 && FirstBits(Low(0xF0 | Drop18(c))) == Drop18(c)
  {
  }

  lemma TrailBits(x: bv32)
    ensures Trail(x) as bv32 & 0x3F == x & 0x3F
  {
  }

  lemma AddIsOr(x: bv32, y: bv32)
    ensures (x << 6) + (y & 0x3F) == (x << 6) | (y & 0x3F)
  {
  }

  /** Splitting six bits off and joining them again. */
  lemma Rejoin(x: bv32)
    ensures Join(Drop6(x), Trail(x)) == x
  {
    TrailBits(x);
    AddIsOr(x >> 6, x);
    assert ((x >> 6) << 6) | (x & 0x3F) == x;
  }

  lemma {:induction false} RejoinAll(c: bv32)
    ensures Join(Drop6(c), Trail(c)) == c
    ensures Join(Drop12(c), Trail(Drop6(c))) == Drop6(c)
    ensures Join(Drop18(c), Trail(Drop12(c))) == Drop12(c)
  {
    hide Join, Trail, Drop6;
    Rejoin(c);
    Rejoin(Drop6(c));
    Rejoin(Drop12(c));
  }

  /** How a leading byte and one, two or three continuation bytes decode. */
  lemma DecodeTwo(b: bv8, t1: bv8, rest: seq<bv8>)
    requires LeadingOnes(b) == 2 && t1 != 0
    ensures Decoded([b, t1] + rest) == (Join(FirstBits(b), t1), 2)
  {
    hide Join, FirstBits, LeadingOnes;
    assert ([b, t1] + rest)[1..] == [t1] + rest;
    TrailingOne(FirstBits(b), t1, rest, 1);
  }

  lemma DecodeThree(b: bv8, t1: bv8, t2: bv8, rest: seq<bv8>)
    requires LeadingOnes(b) == 3 && t1 != 0 && t2 != 0
    ensures Decoded([b, t1, t2] + rest) == (Join(Join(FirstBits(b), t1), t2), 3)
  {
    hide Join, FirstBits, LeadingOnes;
    assert ([b, t1, t2] + rest)[1..] == [t1] + ([t2] + rest);
    TrailingOne(FirstBits(b), t1, [t2] + rest, 2);
    TrailingOne(Join(FirstBits(b), t1), t2, rest, 1);
  }

  lemma DecodeFour(b: bv8, t1: bv8, t2: bv8, t3: bv8, rest: seq<bv8>)
    requires LeadingOnes(b) == 4 && t1 != 0 && t2 != 0 && t3 != 0
    ensures Decoded([b, t1, t2, t3] + rest) == (Join(Join(Join(FirstBits(b), t1), t2), t3), 4)
  {
    hide Join, FirstBits, LeadingOnes;
    assert ([b, t1, t2, t3] + rest)[1..] == [t1] + ([t2] + ([t3] + rest));
    TrailingOne(FirstBits(b), t1, [t2] + ([t3] + rest), 3);
    TrailingOne(Join(FirstBits(b), t1), t2, [t3] + rest, 2);
    TrailingOne(Join(Join(FirstBits(b), t1), t2), t3, rest, 1);
  }

  /** Decoding what was encoded gives the code point back, whatever follows it. */
  lemma DecodeEncoding(c: bv32, rest: seq<bv8>)
    requires c < 0x20_0000
    ensures Decoded(Encoding(c) + rest) == (c, |Encoding(c)|)
  {
    hide LeadingOnes, Trail, Low, Join, FirstBits, Drop6, Drop12, Drop18;
    TrailIsTrail(c);
    TrailIsTrail(Drop6(c));
    TrailIsTrail(Drop12(c));
    RejoinAll(c);
    if c < 0x80 {
      OneByte(c);
    } else if c < 0x800 {
      TwoBytes(c);
      DecodeTwo(Low(0xC0 | Drop6(c)), Trail(c), rest);
    } else if c < 0x1_0000 {
      ThreeBytes(c);
      DecodeThree(Low(0xE0 | Drop12(c)), Trail(Drop6(c)), Trail(c), rest);
    } else {
      FourBytes(c);
      DecodeFour(Low(0xF0 | Drop18(c)), Trail(Drop12(c)), Trail(Drop6(c)), Trail(c), rest);
    }
  }

  lemma FirstIsSmall(b: bv8)
    ensures FirstBits(b) < 0x80
    ensures LeadingOnes(b) >= 2 ==> FirstBits(b) < 0x20
    ensures LeadingOnes(b) >= 3 ==> FirstBits(b) < 0x10
  {
  }

  lemma JoinIsSmall(value: bv32, b: bv8)
    ensures value < 0x20 ==> Join(value, b) < 0x800
    ensures value < 0x400 ==> Join(value, b) < 0x1_0000
    ensures value < 0x10 ==> Join(value, b) < 0x400
  {
  }

  /** The encoder's form is the shortest: no bytes decode to the same code point in fewer. */
  lemma NoShorterForm(c: bv32, bytes: seq<bv8>)
    requires c < 0x20_0000 && bytes != [] && Decoded(bytes).0 == c
    ensures |Encoding(c)| <= Decoded(bytes).1
  {
    hide LeadingOnes, Trail, Low, Join, FirstBits;
    var b, rest := bytes[0], bytes[1..];
    FirstIsSmall(b);
    var first, k := FirstBits(b), LeadingOnes(b);
    if Decoded(bytes).1 > 1 {
      var second := Join(first, rest[0]);
      JoinIsSmall(first, rest[0]);
      assert Decoded(bytes) == (Trailing(second, rest[1..], k - 2).0, Trailing(second, rest[1..], k - 2).1 + 2);
      if Decoded(bytes).1 > 2 {
        JoinIsSmall(second, rest[1..][0]);
        var third := Join(second, rest[1..][0]);
        assert Decoded(bytes)
            == (Trailing(third, rest[1..][1..], k - 3).0, Trailing(third, rest[1..][1..], k - 3).1 + 3);
      }
    }
  }

  // ---------------------------------------------------------------- C strings

  /** What C sees of a block: the bytes before the first zero. */
  function CString(block: seq<bv8>): (s: seq<bv8>)
    ensures |s| <= |block| && s == block[..|s|]
    ensures forall i :: 0 <= i < |s| ==> s[i] != 0
    ensures |s| < |block| ==> block[|s|] == 0
  {
    if block == [] || block[0] == 0 then [] else [block[0]] + CString(block[1..])
  }

  /** The code points before the first zero. */
  function BeforeZero(text: seq<bv32>): (t: seq<bv32>)
    ensures t <= text
  {
    if text == [] || text[0] == 0 then [] else [text[0]] + BeforeZero(text[1..])
  }

  /** Bytes that start a code point. */
  function Starts(bytes: seq<bv8>): (n: nat)
    ensures n <= |bytes|
  {
    if bytes == [] then 0
    else Starts(bytes[..|bytes| - 1]) + if IsTrail(bytes[|bytes| - 1]) then 0 else 1
  }

  lemma {:induction false} StartsAppend(a: seq<bv8>, b: seq<bv8>)
    ensures Starts(a + b) == Starts(a) + Starts(b)
  {
    if b == [] {
      assert a + b == a;
    } else {
      StartsAppend(a, b[..|b| - 1]);
      assert (a + b)[..|a + b| - 1] == a + b[..|b| - 1];
    }
  }

  /** `count` code points decoded one after the other. */
  function DecodedAll(bytes: seq<bv8>, count: nat): seq<bv32> {
    if count == 0 || bytes == [] then seq(count, _ => 0)
    else
      var (v, n) := Decoded(bytes);
      [v] + DecodedAll(bytes[n..], count - 1)
  }

  // ---------------------------------------------------------------- the runtime's loops

  lemma {:induction false} CStringNoZero(s: seq<bv8>, rest: seq<bv8>)
    requires forall i :: 0 <= i < |s| ==> s[i] != 0
    ensures CString(s + [0] + rest) == s
  {
    if s == [] {
      assert (s + [0] + rest)[0] == 0;
    } else {
      CStringNoZero(s[1..], rest);
      assert (s + [0] + rest)[1..] == s[1..] + [0] + rest;
    }
  }

  /** Encoded code points other than zero hold no zero byte, and start exactly once each. */
  lemma EncodingBytes(c: bv32)
    requires c < 0x20_0000
    ensures c != 0 ==> forall i :: 0 <= i < |Encoding(c)| ==> Encoding(c)[i] != 0
    ensures c == 0 ==> Encoding(c) == [0]
    ensures !IsTrail(Encoding(c)[0])
    ensures forall i :: 0 < i < |Encoding(c)| ==> IsTrail(Encoding(c)[i])
  {
    hide Trail;
    TrailIsTrail(c);
    TrailIsTrail(Drop6(c));
    TrailIsTrail(Drop12(c));
  }

  lemma {:induction false} StartsOfTrails(bytes: seq<bv8>)
    requires forall i :: 0 <= i < |bytes| ==> IsTrail(bytes[i])
    ensures Starts(bytes) == 0
  {
    if bytes != [] {
      StartsOfTrails(bytes[..|bytes| - 1]);
    }
  }

  lemma StartsOfEncoding(c: bv32)
    requires c < 0x20_0000
    ensures Starts(Encoding(c)) == 1
  {
    hide Encoding, IsTrail;
    EncodingBytes(c);
    var e := Encoding(c);
    StartsOfTrails(e[1..]);
    StartsAppend([e[0]], e[1..]);
    assert e == [e[0]] + e[1..];
    assert Starts([e[0]]) == 1 by {
      assert [e[0]][..0] == [];
    }
  }

  /** The byte count `get_utf8_length` makes is the number of code points. */
  lemma {:induction false} StartsOfText(text: seq<bv32>)
    requires Encodable(text)
    ensures Starts(EncodingOf(text)) == |text|
  {
    hide Encoding, IsTrail;
    if text != [] {
      StartsOfText(text[1..]);
      StartsOfEncoding(text[0]);
      StartsAppend(Encoding(text[0]), EncodingOf(text[1..]));
    }
  }

  lemma {:induction false} DecodeText(text: seq<bv32>, rest: seq<bv8>)
    requires Encodable(text)
    ensures DecodedAll(EncodingOf(text) + rest, |text|) == text
  {
    hide Encoding, Decoded;
    if text != [] {
      var tail := EncodingOf(text[1..]) + rest;
      assert EncodingOf(text) + rest == Encoding(text[0]) + tail;
      DecodeEncoding(text[0], tail);
      DecodeText(text[1..], rest);
      assert (Encoding(text[0]) + tail)[|Encoding(text[0])|..] == tail;
    }
  }

  /** The C string of an encoded text is the encoding of what comes before its first zero. */
  lemma {:induction false} CStringOfText(text: seq<bv32>, rest: seq<bv8>)
    requires Encodable(text)
    ensures Encodable(BeforeZero(text))
    ensures CString(EncodingOf(text) + [0] + rest) == EncodingOf(BeforeZero(text))
  {
    hide Encoding;
    if text == [] {
      assert (EncodingOf(text) + [0] + rest)[0] == 0;
    } else {
      var e := Encoding(text[0]);
      EncodingBytes(text[0]);
      var after := EncodingOf(text[1..]) + [0] + rest;
      assert EncodingOf(text) + [0] + rest == e + after;
      if text[0] == 0 {
        assert (e + after)[0] == 0;
      } else {
        CStringOfText(text[1..], rest);
        CStringPast(e, after);
      }
    }
  }

  lemma {:induction false} CStringPast(s: seq<bv8>, after: seq<bv8>)
    requires forall i :: 0 <= i < |s| ==> s[i] != 0
    ensures CString(s + after) == s + CString(after)
  {
    if s == [] {
      assert s + after == after;
    } else {
      CStringPast(s[1..], after);
      assert (s + after)[1..] == s[1..] + after;
    }
  }

  /** Reading a byte of a C string; past its end there is a zero. */
  function At(s: seq<bv8>, i: nat): bv8 {
    if i < |s| then s[i] else 0
  }

  /** The number of code points in a C string. */
  method GetUtf8Length(s: seq<bv8>) returns (l: nat)
    ensures l == Starts(s)
  {
    l := 0;
    var i := 0;
    while i < |s|
      invariant 0 <= i <= |s|
      invariant l == Starts(s[..i])
    {
      assert s[..i + 1][..i] == s[..i];
      if !(0x80 <= s[i] < 0xC0) {
        l := l + 1;
      }
      i := i + 1;
    }
    assert s[..i] == s;
  }

  /** Decodes the code point at `start`; `next` is where the following one begins. */
  method DecodeCodePoint(s: seq<bv8>, start: nat) returns (value: bv32, next: nat)
    requires start < |s| && s[start] != 0
    ensures (value, next - start) == Decoded(s[start..])
    ensures start < next <= |s|
  {
    hide Join, LeadingOnes, FirstBits, Trailing;
    var k: int;
    value, k := ReadLead(s[start]);
    next := start + 1;
    k := k - 1;
    assert s[start..][1..] == s[next..];
    ghost var whole := Trailing(value, s[next..], k);
    while k > 0 && At(s, next) != 0
      invariant start < next <= |s|
      invariant whole == (Trailing(value, s[next..], k).0, Trailing(value, s[next..], k).1 + (next - start - 1))
      decreases |s| - next
    {
      TrailingOne(value, s[next], s[next + 1..], k);
      assert s[next..] == [s[next]] + s[next + 1..];
      value := JoinBits(value, s[next]);
      k, next := k - 1, next + 1;
    }
    TrailingNone(value, s[next..], k);
  }

  lemma TrailingNone(value: bv32, bytes: seq<bv8>, k: int)
    requires k <= 0 || bytes == [] || bytes[0] == 0
    ensures Trailing(value, bytes, k) == (value, 0)
  {
  }

  /** The number of leading ones of a byte, and its other bits. */
  method ReadLead(b: bv8) returns (value: bv32, k: nat)
    ensures k == LeadingOnes(b) && value == FirstBits(b)
  {
    k := LeadingOnes(b);
    var mask := Mask(k);
    value := b as bv32 & mask;
  }

  /** Shifts the value and adds the byte's low six bits. */
  method JoinBits(value: bv32, b: bv8) returns (r: bv32)
    ensures r == Join(value, b)
  {
    r := value << 6;
    r := r + (b as bv32 & 0x3F);
  }

  /** The string made from a literal. */
  method CreateLiteral(literal: seq<bv8>) returns (text: seq<bv32>)
    requires forall i :: 0 <= i < |literal| ==> literal[i] != 0
    ensures text == DecodedAll(literal, Starts(literal))
  {
    hide Decoded, DecodedAll;
    var count := GetUtf8Length(literal);
    text := [];
    var sp := 0;
    var i := 0;
    assert literal[0..] == literal;
    while i < count
      invariant 0 <= i <= count && sp <= |literal|
      invariant text + DecodedAll(literal[sp..], count - i) == DecodedAll(literal, count)
    {
      var value := 0;
      if sp < |literal| {
        ghost var was := sp;
        value, sp := DecodeCodePoint(literal, sp);
        assert literal[was..][sp - was..] == literal[sp..];
        DecodedNext(literal[was..], count - i);
      } else {
        DecodedNext(literal[sp..], count - i);
      }
      Assoc(text, [value], DecodedAll(literal[sp..], count - i - 1));
      text := text + [value];
      i := i + 1;
    }
    DecodedNone(literal[sp..]);
  }

  /** The first of several code points; past the end of a literal there are only zeros. */
  lemma DecodedNext(bytes: seq<bv8>, count: nat)
    requires count > 0
    ensures bytes != [] ==> (
              DecodedAll(bytes, count) == [Decoded(bytes).0] + DecodedAll(bytes[Decoded(bytes).1..], count - 1))
    ensures bytes == [] ==> DecodedAll(bytes, count) == [0] + DecodedAll(bytes, count - 1)
  {
  }

  lemma DecodedNone(bytes: seq<bv8>)
    ensures DecodedAll(bytes, 0) == []
  {
  }

  /** The registers and scratch bytes after `n` rounds of peeling six bits off `c`. */
  predicate Peeled(c: bv32, n: nat, code: bv32, lead: bv32, val: seq<bv8>)
    requires |val| == 4
  {
    || (n == 0 && code == c && lead == 0x7F)
    || (n == 1 && code == Drop6(c) && lead == 0x1F && val[0] == Trail(c) && c >= 0x80)
    || (n == 2 && code == Drop12(c) && lead == 0x0F && val[0] == Trail(c) && val[1] == Trail(Drop6(c)) && c >= 0x800)
    || (n == 3 && code == Drop18(c) && lead == 0x07 && val[0] == Trail(c) && val[1] == Trail(Drop6(c))
        && val[2] == Trail(Drop12(c)) && c >= 0x1_0000)
  }

  /** Another round is needed exactly when the code point is past the range of the present form. */
  lemma RoundNeeded(c: bv32)
    requires c < 0x20_0000
    ensures c > 0x7F <==> c >= 0x80
    ensures Drop6(c) > 0x1F <==> c >= 0x800
    ensures Drop12(c) > 0x0F <==> c >= 0x1_0000
    ensures Drop18(c) <= 0x07
  {
  }

  /** The byte the encoder puts last in its scratch buffer, which comes first in the output. */
  function LeadByte(code: bv32, lead: bv32): bv8 {
    Low((code & lead) | (!lead << 1))
  }

  function Reversed(s: seq<bv8>): (r: seq<bv8>)
    ensures |r| == |s|
    ensures forall i :: 0 <= i < |s| ==> r[i] == s[|s| - 1 - i]
  {
    seq(|s|, i requires 0 <= i < |s| => s[|s| - 1 - i])
  }

  lemma LeadByteForms(c: bv32)
    requires c < 0x20_0000
    ensures c < 0x80 ==> LeadByte(c, 0x7F) == Low(c)
    ensures c < 0x800 ==> LeadByte(Drop6(c), 0x1F) == Low(0xC0 | Drop6(c))
    ensures c < 0x1_0000 ==> LeadByte(Drop12(c), 0x0F) == Low(0xE0 | Drop12(c))
    ensures LeadByte(Drop18(c), 0x07) == Low(0xF0 | Drop18(c))
  {
  }

  /** Peels one code point into a scratch buffer, last byte first. */
  method Peel(c: bv32) returns (val: seq<bv8>)
    requires c < 0x20_0000
    ensures |val| <= 4 && Reversed(val) == Encoding(c)
  {
    hide Trail, LeadByte, Low, Drop6, Encoding;
    RoundNeeded(c);
    var buf: seq<bv8> := [0, 0, 0, 0];
    var code, lead: bv32, n := c, 0x7F, 0;
    while code > lead
      invariant n <= 3 && |buf| == 4 && Peeled(c, n, code, lead, buf)
      decreases 3 - n
    {
      buf := buf[n := Trail(code)];
      n := n + 1;
      code := Drop6(code);
      lead := if n == 1 then lead >> 2 else lead >> 1;
    }
    buf := buf[n := LeadByte(code, lead)];
    val := buf[..n + 1];
    PeeledIsEncoding(c, n, code, lead, buf);
  }

  lemma PeeledIsEncoding(c: bv32, n: nat, code: bv32, lead: bv32, buf: seq<bv8>)
    requires c < 0x20_0000 && |buf| == 4 && n <= 3 && code <= lead
    requires Peeled(c, n, code, lead, buf) && buf[n] == LeadByte(code, lead)
    ensures Reversed(buf[..n + 1]) == Encoding(c)
  {
    hide Trail, LeadByte, Low, Drop6;
    LeadByteForms(c);
    RoundNeeded(c);
  }

  /** Empties the scratch bytes into the block, last one first. */
  method CopyOut(blk: array<bv8>, start: nat, val: seq<bv8>)
    requires start + |val| <= blk.Length
    modifies blk
    ensures blk[..start + |val|] == old(blk[..start]) + Reversed(val)
  {
    ghost var done := blk[..start];
    var i, k := start, |val|;
    while k > 0
      invariant 0 <= k <= |val| && i == start + |val| - k
      invariant blk[..i] == done + Reversed(val)[..|val| - k]
    {
      k := k - 1;
      assert Reversed(val)[|val| - k - 1] == val[k];
      blk[i] := val[k];
      i := i + 1;
    }
  }

  /** The C string block for a text: its encoding, then a zero. */
  method CreateCString(text: seq<bv32>) returns (blk: array<bv8>)
    requires Encodable(text)
    ensures |EncodingOf(text)| < blk.Length && blk[..|EncodingOf(text)|] == EncodingOf(text)
    ensures blk[|EncodingOf(text)|] == 0
  {
    hide Encoding;
    blk := new bv8[4 * |text| * 6 + 1](_ => 0);
    var i := 0;
    var ind := 0;
    while ind < |text|
      invariant 0 <= ind <= |text| && 0 <= i <= 4 * ind
      invariant EncodingOf(text[..ind]) == blk[..i]
    {
      var val := Peel(text[ind]);
      CopyOut(blk, i, val);
      i := i + |val|;
      EncodingOfAppend(text[..ind], [text[ind]]);
      EncodingOfOne(text[ind]);
      assert text[..ind + 1] == text[..ind] + [text[ind]];
      ind := ind + 1;
    }
    assert text[..ind] == text;
    blk[i] := 0;
  }

  lemma EncodingOfOne(c: bv32)
    requires c < 0x20_0000
    ensures Encodable([c]) && EncodingOf([c]) == Encoding(c)
  {
    assert [c][1..] == [];
    assert EncodingOf([c]) == Encoding(c) + [];
  }

  /** Making a C string and reading it back as a literal gives the text up to its first zero; so the whole text
      survives exactly when it holds no zero code point. */
  lemma {:induction false} RoundTrip(text: seq<bv32>, block: seq<bv8>)
    requires Encodable(text)
    requires |EncodingOf(text)| < |block| && block[..|EncodingOf(text)|] == EncodingOf(text)
    requires block[|EncodingOf(text)|] == 0
    ensures var literal := CString(block);
            var back := DecodedAll(literal, Starts(literal));
            && back == BeforeZero(text)
            && (back == text <==> forall i :: 0 <= i < |text| ==> text[i] != 0)
  {
    hide Decoded, Encoding;
    var n := |EncodingOf(text)|;
    assert block == EncodingOf(text) + [0] + block[n + 1..];
    CStringOfText(text, block[n + 1..]);
    var before := BeforeZero(text);
    StartsOfText(before);
    DecodeText(before, []);
    assert EncodingOf(before) + [] == EncodingOf(before);
    BeforeZeroWhole(text);
  }

  lemma {:induction false} BeforeZeroWhole(text: seq<bv32>)
    ensures BeforeZero(text) == text <==> forall i :: 0 <= i < |text| ==> text[i] != 0
  {
    if text != [] && text[0] != 0 {
      BeforeZeroWhole(text[1..]);
      assert text == [text[0]] + text[1..];
      if forall i :: 0 <= i < |text| ==> text[i] != 0 {
        assert forall i :: 0 <= i < |text[1..]| ==> text[1..][i] == text[i + 1];
      } else {
        var i :| 0 <= i < |text| && text[i] == 0;
        assert text[1..][i - 1] == 0;
        assert BeforeZero(text)[1..] == BeforeZero(text[1..]);
      }
    }
  }

  lemma DroppedBits(c: bv32)
    ensures Drop6(c) == c >> 6
    ensures Drop12(c) == c >> 12
    ensures Drop18(c) == c >> 18
  {
    DroppedTwice(c);
    assert (c >> 12) >> 6 == c >> 18;
  }

  lemma DroppedTwice(c: bv32)
    ensures (c >> 6) >> 6 == c >> 12
  {
  }

  lemma TrailForm(c: bv32)
    ensures Trail(c) == (0x80 | (c & 0x3F)) as bv8
  {
    assert ((c & 0x3F) | 0x80) & 0xFF == 0x80 | (c & 0x3F);
  }

  lemma LeadForms(x: bv32)
    ensures x < 0x80 ==> Low(x) == (x & 0x7F) as bv8
    ensures x < 0x20 ==> Low(0xC0 | x) == (0xC0 | (x & 0x1F)) as bv8
    ensures x < 0x10 ==> Low(0xE0 | x) == (0xE0 | (x & 0x0F)) as bv8
    ensures x < 0x08 ==> Low(0xF0 | x) == (0xF0 | (x & 0x07)) as bv8
  {
    assert x < 0x80 ==> x & 0xFF == x & 0x7F;
    assert x < 0x20 ==> (0xC0 | x) & 0xFF == 0xC0 | (x & 0x1F);
    assert x < 0x10 ==> (0xE0 | x) & 0xFF == 0xE0 | (x & 0x0F);
    assert x < 0x08 ==> (0xF0 | x) & 0xFF == 0xF0 | (x & 0x07);
  }

  lemma LeadRanges(c: bv32)
    ensures c < 0x800 ==> Drop6(c) < 0x20
    ensures c < 0x1_0000 ==> Drop12(c) < 0x10
    ensures c < 0x20_0000 ==> Drop18(c) < 0x08
  {
  }

  /** The bytes of each form, bit by bit: the table of section 3 of RFC 3629. */
  lemma ByteForms(c: bv32)
    requires c < 0x20_0000
    ensures c < 0x80 ==> Encoding(c) == [(c & 0x7F) as bv8]
    ensures 0x80 <= c < 0x800 ==>
              Encoding(c) == [(0xC0 | ((c >> 6) & 0x1F)) as bv8, (0x80 | (c & 0x3F)) as bv8]
    ensures 0x800 <= c < 0x1_0000 ==>
              Encoding(c) == [(0xE0 | ((c >> 12) & 0x0F)) as bv8, (0x80 | ((c >> 6) & 0x3F)) as bv8,
                              (0x80 | (c & 0x3F)) as bv8]
    ensures 0x1_0000 <= c ==>
              Encoding(c) == [(0xF0 | ((c >> 18) & 0x07)) as bv8, (0x80 | ((c >> 12) & 0x3F)) as bv8,
                              (0x80 | ((c >> 6) & 0x3F)) as bv8, (0x80 | (c & 0x3F)) as bv8]
  {
    hide Low, Trail, Drop6, Drop12, Drop18;
    DroppedBits(c);
    LeadRanges(c);
    LeadForms(c);
    LeadForms(Drop6(c));
    LeadForms(Drop12(c));
    LeadForms(Drop18(c));
    TrailForm(c);
    TrailForm(Drop6(c));
    TrailForm(Drop12(c));
  }

  /** The examples of section 7 of RFC 3629: a capital A, an inequality with identity, a Greek alpha, and an ideograph
      outside the basic plane. */
  lemma StandardExamples()
    ensures Encoding(0x41) == [0x41]
    ensures Encoding(0x391) == [0xCE, 0x91]
    ensures Encoding(0x2262) == [0xE2, 0x89, 0xA2]
    ensures Encoding(0x2_33B4) == [0xF0, 0xA3, 0x8E, 0xB4]
  {
  }
}
