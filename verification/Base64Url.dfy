/**
 * Base64url without padding (RFC 4648 sections 4 and 5): the printer and the strict reader.
 */
module Base64Url {
  import opened Wrappers
  import opened Bytes
  import opened RelayJson

  type Sextet = v: int | 0 <= v < 64

  /** The alphabet of RFC 4648 section 4. */
  function StandardDigit(v: Sextet): Unit {
    if v < 26 then 0x41 + v
    else if v < 52 then 0x61 + (v - 26)
    else if v < 62 then 0x30 + (v - 52)
    else if v == 62 then 0x2b
    else 0x2f
  }

  const PAD: Unit := 0x3d

  /** `btoa`: three bytes to four digits, the last group padded. */
  function Btoa(b: Bytes): Text {
    if b == [] then []
    else if |b| == 1 then [StandardDigit(First(b[0])), StandardDigit(Second(b[0], 0)), PAD, PAD]
    else if |b| == 2 then
      [StandardDigit(First(b[0])), StandardDigit(Second(b[0], b[1])), StandardDigit(Third(b[1], 0)), PAD]
    else
      [StandardDigit(First(b[0])), StandardDigit(Second(b[0], b[1])),
       StandardDigit(Third(b[1], b[2])), StandardDigit(Fourth(b[2]))] + Btoa(b[3..])
  }

  /** The replacements behind `btoa`: two digits change and the padding goes. */
  function UrlSafe(s: Text): Text {
    if s == [] then []
    else
      (if s[0] == PAD then [] else [if s[0] == 0x2b then 0x2d else if s[0] == 0x2f then 0x5f else s[0]])
      + UrlSafe(s[1..])
  }

  /** `encodeBase64UrlNoPadding`. */
  function Encode(b: Bytes): Text {
    UrlSafe(Btoa(b))
  }

  function Digit(v: Sextet): Unit {
    if v == 62 then 0x2d else if v == 63 then 0x5f else StandardDigit(v)
  }

  function Value(u: Unit): (r: Option<Sextet>)
    ensures forall v: Sextet :: r == Some(v) <==> u == Digit(v)
  {
    if 0x41 <= u <= 0x5a then Some(u - 0x41)
    else if 0x61 <= u <= 0x7a then Some(u - 0x61 + 26)
    else if 0x30 <= u <= 0x39 then Some(u - 0x30 + 52)
    else if u == 0x2d then Some(62)
    else if u == 0x5f then Some(63)
    else None
  }

  // The four sextets of a group of three bytes; missing bytes count as zero.

  function First(a: Byte): Sextet { a / 4 }
  function Second(a: Byte, b: Byte): Sextet { a % 4 * 16 + b / 16 }
  function Third(b: Byte, c: Byte): Sextet { b % 16 * 4 + c / 64 }
  function Fourth(c: Byte): Sextet { c % 64 }

  lemma EncodeNothing()
    ensures Encode([]) == []
  {}

  lemma EncodeOne(a: Byte)
    ensures Encode([a]) == [Digit(First(a)), Digit(Second(a, 0))]
  {
    SafeDigit(First(a), [StandardDigit(Second(a, 0)), PAD, PAD]);
    SafeDigit(Second(a, 0), [PAD, PAD]);
    SafePad([PAD]);
    SafePad([]);
  }

  lemma EncodeTwo(a: Byte, b: Byte)
    ensures Encode([a, b]) == [Digit(First(a)), Digit(Second(a, b)), Digit(Third(b, 0))]
  {
    SafeDigit(First(a), [StandardDigit(Second(a, b)), StandardDigit(Third(b, 0)), PAD]);
    SafeDigit(Second(a, b), [StandardDigit(Third(b, 0)), PAD]);
    SafeDigit(Third(b, 0), [PAD]);
    SafePad([]);
  }

  lemma BtoaThree(a: Byte, b: Byte, c: Byte, rest: Bytes)
    ensures Btoa([a, b, c] + rest)
         == [StandardDigit(First(a))] + ([StandardDigit(Second(a, b))]
            + ([StandardDigit(Third(b, c))] + ([StandardDigit(Fourth(c))] + Btoa(rest))))
  {
    hide StandardDigit, First, Second, Third, Fourth;
    assert ([a, b, c] + rest)[3..] == rest;
  }

  lemma EncodeThree(a: Byte, b: Byte, c: Byte, rest: Bytes)
    ensures Encode([a, b, c] + rest)
         == [Digit(First(a)), Digit(Second(a, b)), Digit(Third(b, c)), Digit(Fourth(c))] + Encode(rest)
  {
    hide Btoa, UrlSafe, Digit, StandardDigit, First, Second, Third, Fourth;
    var s := Btoa(rest);
    var p, q, r, z := First(a), Second(a, b), Third(b, c), Fourth(c);
    BtoaThree(a, b, c, rest);
    SafeDigit(p, [StandardDigit(q)] + ([StandardDigit(r)] + ([StandardDigit(z)] + s)));
    SafeDigit(q, [StandardDigit(r)] + ([StandardDigit(z)] + s));
    SafeDigit(r, [StandardDigit(z)] + s);
    SafeDigit(z, s);
  }

  lemma SafeDigit(v: Sextet, rest: Text)
    ensures UrlSafe([StandardDigit(v)] + rest) == [Digit(v)] + UrlSafe(rest)
  {
    assert ([StandardDigit(v)] + rest)[1..] == rest;
  }

  lemma SafePad(rest: Text)
    ensures UrlSafe([PAD] + rest) == UrlSafe(rest)
  {
    assert ([PAD] + rest)[1..] == rest;
  }

  // ------------------------------------------------------------- the reader

  /** Bits waiting in the accumulator between two digits. */
  type Waiting = n: nat | n == 0 || n == 2 || n == 4 || n == 6

  function Pow2(n: Waiting): nat {
    if n == 0 then 1 else if n == 2 then 4 else if n == 4 then 16 else 64
  }

  function Cons(b: Byte, rest: Option<Bytes>): Option<Bytes> {
    if rest.None? then None else Some([b] + rest.value)
  }

  /** Reading the rest of a text with some bits waiting. */
  function DecodeFrom(s: Text, accumulated: nat, bits: Waiting): Option<Bytes>
    requires accumulated < Pow2(bits)
    decreases |s|
  {
    if s == [] then if bits > 0 && accumulated != 0 then None else Some([])
    else
      var v := Value(s[0]);
      if v.None? then None
      else
        var a := accumulated * 64 + v.value;
        if bits == 0 then DecodeFrom(s[1..], a, 6)
        else Cons(a / Pow2(bits - 2) % 256, DecodeFrom(s[1..], a % Pow2(bits - 2), bits - 2))
  }

  /** The answer of `decodeBase64UrlNoPadding`. */
  function Decode(s: Text): Option<Bytes> {
    if |s| % 4 == 1 then None else DecodeFrom(s, 0, 0)
  }

  method DecodeBase64UrlNoPadding(text: Text) returns (r: Option<Bytes>)
    ensures r == Decode(text)
  {
    hide DecodeFrom, Value, Pow2;
    if |text| % 4 == 1 {
      return None;
    }
    PowersOfTwo();
    var accumulated: nat, bitCount: nat := 0, 0;
    var bytes: Bytes := [];
    assert text[0..] == text;
    BehindNothing(DecodeFrom(text, 0, 0));
    for i := 0 to |text|
      invariant (bitCount == 0 || bitCount == 2 || bitCount == 4 || bitCount == 6) && accumulated < Pow2(bitCount)
      invariant DecodeFrom(text, 0, 0) == Behind(bytes, DecodeFrom(text[i..], accumulated, bitCount))
    {
      DecodeOne(text, i, accumulated, bitCount);
      var value := Value(text[i]);
      if value.None? {
        return None;
      }
      Shifted(accumulated, bitCount, value.value);
      accumulated := accumulated * 64 + value.value;
      bitCount := bitCount + 6;
      if bitCount >= 8 {
        bitCount := bitCount - 8;
        var byte: Byte := accumulated / Pow2(bitCount) % 256;
        accumulated := accumulated % Pow2(bitCount);
        BehindOne(bytes, byte, DecodeFrom(text[i + 1..], accumulated, bitCount));
        bytes := bytes + [byte];
      }
    }
    DecodeEnd(accumulated, bitCount);
    assert text[|text|..] == [];
    if bitCount > 0 && accumulated != 0 {
      return None;
    }
    assert bytes + [] == bytes;
    r := Some(bytes);
  }

  function Behind(bytes: Bytes, rest: Option<Bytes>): Option<Bytes> {
    if rest.None? then None else Some(bytes + rest.value)
  }

  lemma BehindNothing(rest: Option<Bytes>)
    ensures Behind([], rest) == rest
  {
    assert rest.Some? ==> [] + rest.value == rest.value;
  }

  lemma BehindOne(bytes: Bytes, b: Byte, rest: Option<Bytes>)
    ensures Behind(bytes, Cons(b, rest)) == Behind(bytes + [b], rest)
  {
    if rest.Some? {
      assert bytes + ([b] + rest.value) == bytes + [b] + rest.value;
    }
  }

  lemma DecodeOne(s: Text, i: nat, accumulated: nat, bits: Waiting)
    requires i < |s| && accumulated < Pow2(bits)
    ensures var v := Value(s[i]);
      DecodeFrom(s[i..], accumulated, bits) ==
        if v.None? then None
        else
          var a := accumulated * 64 + v.value;
          if bits == 0 then DecodeFrom(s[i + 1..], a, 6)
          else Cons(a / Pow2(bits - 2) % 256, DecodeFrom(s[i + 1..], a % Pow2(bits - 2), bits - 2))
  {
    assert s[i..][1..] == s[i + 1..];
  }

  lemma PowersOfTwo()
    ensures Pow2(0) == 1 && Pow2(2) == 4 && Pow2(4) == 16 && Pow2(6) == 64
  {}

  /** A digit always fits behind the waiting bits, and what waits afterwards fits again. */
  lemma Shifted(accumulated: nat, bits: Waiting, v: Sextet)
    requires accumulated < Pow2(bits)
    ensures bits == 0 ==> accumulated * 64 + v < Pow2(6)
    ensures bits > 0 ==> (accumulated * 64 + v) / Pow2(bits - 2) < 256
    ensures bits > 0 ==> (accumulated * 64 + v) % Pow2(bits - 2) < Pow2(bits - 2)
  {}

  lemma DecodeEnd(accumulated: nat, bits: Waiting)
    requires accumulated < Pow2(bits)
    ensures DecodeFrom([], accumulated, bits) == if bits > 0 && accumulated != 0 then None else Some([])
  {}

  // -------------------------------------------------------------- round trips

  /** The three bytes of four sextets. */
  function Byte0(p: Sextet, q: Sextet): Byte { p * 4 + q / 16 }
  function Byte1(q: Sextet, r: Sextet): Byte { q % 16 * 16 + r / 4 }
  function Byte2(r: Sextet, z: Sextet): Byte { r % 4 * 64 + z }

  lemma DecodeDigit(v: Sextet, rest: Text, accumulated: nat, bits: Waiting)
    requires accumulated < Pow2(bits)
    ensures var a := accumulated * 64 + v;
      DecodeFrom([Digit(v)] + rest, accumulated, bits) ==
        if bits == 0 then DecodeFrom(rest, a, 6)
        else Cons(a / Pow2(bits - 2) % 256, DecodeFrom(rest, a % Pow2(bits - 2), bits - 2))
  {
    assert ([Digit(v)] + rest)[1..] == rest;
    assert Value(Digit(v)) == Some(v);
  }

  lemma Split16(p: Sextet, q: Sextet)
    ensures (p * 64 + q) / 16 % 256 == p * 4 + q / 16 && (p * 64 + q) % 16 == q % 16
  {
    assert p * 64 + q == 16 * (p * 4 + q / 16) + q % 16;
  }

  lemma Split4(n: nat, r: Sextet)
    requires n < 16
    ensures (n * 64 + r) / 4 % 256 == n * 16 + r / 4 && (n * 64 + r) % 4 == r % 4
  {
    assert n * 64 + r == 4 * (n * 16 + r / 4) + r % 4;
  }

  lemma DecodeTwo(p: Sextet, q: Sextet, rest: Text)
    ensures DecodeFrom([Digit(p)] + ([Digit(q)] + rest), 0, 0) == Cons(Byte0(p, q), DecodeFrom(rest, q % 16, 4))
  {
    hide DecodeFrom, Digit;
    DecodeDigit(p, [Digit(q)] + rest, 0, 0);
    DecodeDigit(q, rest, p, 6);
    Split16(p, q);
  }

  lemma DecodeThird(q: Sextet, r: Sextet, rest: Text)
    ensures DecodeFrom([Digit(r)] + rest, q % 16, 4) == Cons(Byte1(q, r), DecodeFrom(rest, r % 4, 2))
  {
    hide DecodeFrom, Digit;
    DecodeDigit(r, rest, q % 16, 4);
    Split4(q % 16, r);
  }

  lemma DecodeFourth(r: Sextet, z: Sextet, rest: Text)
    ensures DecodeFrom([Digit(z)] + rest, r % 4, 2) == Cons(Byte2(r, z), DecodeFrom(rest, 0, 0))
  {
    hide DecodeFrom, Digit;
    DecodeDigit(z, rest, r % 4, 2);
  }

  lemma NothingWaits(a: Byte)
    ensures Second(a, 0) % 16 == 0 && Third(a, 0) % 4 == 0
  {}

  lemma GroupBytes(a: Byte, b: Byte, c: Byte)
    ensures Byte0(First(a), Second(a, b)) == a
    ensures Byte1(Second(a, b), Third(b, c)) == b
    ensures Byte2(Third(b, c), Fourth(c)) == c
  {}

  lemma GroupSextets(p: Sextet, q: Sextet, r: Sextet, z: Sextet)
    ensures First(Byte0(p, q)) == p
    ensures Second(Byte0(p, q), Byte1(q, r)) == q
    ensures Third(Byte1(q, r), Byte2(r, z)) == r
    ensures Fourth(Byte2(r, z)) == z
    ensures q % 16 == 0 ==> Second(Byte0(p, q), 0) == q
    ensures r % 4 == 0 ==> Third(Byte1(q, r), 0) == r
  {}

  /** Decoding what was encoded gives the bytes back, for all bytes. */
  lemma {:induction false} EncodedIsDecoded(b: Bytes)
    ensures Decode(Encode(b)) == Some(b)
    ensures |Encode(b)| % 4 != 1
    decreases |b|
  {
    hide Encode, DecodeFrom;
    if b == [] {
      EncodeNothing();
      DecodeEnd(0, 0);
    } else if |b| == 1 {
      OneByteRoundTrip(b[0]);
      assert b == [b[0]];
    } else if |b| == 2 {
      TwoByteRoundTrip(b[0], b[1]);
      assert b == [b[0], b[1]];
    } else {
      var rest := b[3..];
      EncodedIsDecoded(rest);
      GroupRoundTrip(b[0], b[1], b[2], rest);
      assert b == [b[0], b[1], b[2]] + rest;
    }
  }

  lemma Units(u: Unit, v: Unit, w: Unit)
    ensures [u] + ([v] + []) == [u, v] && [u] + ([v] + ([w] + [])) == [u, v, w]
  {}

  lemma OneByteRoundTrip(a: Byte)
    ensures Decode(Encode([a])) == Some([a]) && |Encode([a])| == 2
  {
    hide Encode, DecodeFrom, Digit, First, Second, Third, Fourth, Byte0, Byte1, Byte2;
    var p, q := First(a), Second(a, 0);
    EncodeOne(a);
    DecodePair(p, q);
    GroupBytes(a, 0, 0);
    NothingWaits(a);
    DecodeEnd(0, 4);
    assert [a] + [] == [a];
  }

  lemma DecodePair(p: Sextet, q: Sextet)
    ensures DecodeFrom([Digit(p), Digit(q)], 0, 0) == Cons(Byte0(p, q), DecodeFrom([], q % 16, 4))
  {
    hide DecodeFrom, Digit, Byte0;
    DecodeTwo(p, q, []);
    Units(Digit(p), Digit(q), 0);
  }

  lemma TwoByteRoundTrip(a: Byte, b: Byte)
    ensures Decode(Encode([a, b])) == Some([a, b]) && |Encode([a, b])| == 3
  {
    hide Encode, DecodeFrom, Digit, First, Second, Third, Fourth, Byte0, Byte1, Byte2;
    var p, q, r := First(a), Second(a, b), Third(b, 0);
    NothingWaits(b);
    EncodeTwo(a, b);
    GroupBytes(a, b, 0);
    DecodeTwo(p, q, [Digit(r)] + []);
    DecodeThird(q, r, []);
    DecodeEnd(r % 4, 2);
    Units(Digit(p), Digit(q), Digit(r));
    assert [a] + ([b] + []) == [a, b];
  }

  lemma GroupRoundTrip(a: Byte, b: Byte, c: Byte, rest: Bytes)
    requires Decode(Encode(rest)) == Some(rest) && |Encode(rest)| % 4 != 1
    ensures Decode(Encode([a, b, c] + rest)) == Some([a, b, c] + rest) && |Encode([a, b, c] + rest)| % 4 != 1
  {
    hide Encode, DecodeFrom, Digit, First, Second, Third, Fourth, Byte0, Byte1, Byte2;
    var p, q, r, z := First(a), Second(a, b), Third(b, c), Fourth(c);
    var tail := Encode(rest);
    EncodeThree(a, b, c, rest);
    GroupBytes(a, b, c);
    DecodeFour(p, q, r, z, tail);
    assert [a] + ([b] + ([c] + rest)) == [a, b, c] + rest;
  }

  lemma DecodeFour(p: Sextet, q: Sextet, r: Sextet, z: Sextet, rest: Text)
    ensures DecodeFrom([Digit(p), Digit(q), Digit(r), Digit(z)] + rest, 0, 0)
         == Cons(Byte0(p, q), Cons(Byte1(q, r), Cons(Byte2(r, z), DecodeFrom(rest, 0, 0))))
  {
    hide DecodeFrom, Digit, Byte0, Byte1, Byte2;
    DecodeTwo(p, q, [Digit(r)] + ([Digit(z)] + rest));
    DecodeThird(q, r, [Digit(z)] + rest);
    DecodeFourth(r, z, rest);
    assert [Digit(p)] + ([Digit(q)] + ([Digit(r)] + ([Digit(z)] + rest))) == [Digit(p), Digit(q), Digit(r), Digit(z)] + rest;
  }

  /**
   * Any accepted text re-encodes to itself: no two texts decode to the same bytes, and nothing but the
   * canonical spelling of RFC 4648 section 3.5 is accepted.
   */
  lemma {:induction false} AcceptedIsCanonical(s: Text)
    requires Decode(s).Some?
    ensures Encode(Decode(s).value) == s
    decreases |s|
  {
    hide Encode, DecodeFrom, Value;
    if s == [] {
      DecodeEnd(0, 0);
      EncodeNothing();
    } else if |s| == 2 {
      AcceptedTwo(s);
    } else if |s| == 3 {
      AcceptedThree(s);
    } else {
      var p, q, r, z := AcceptedFour(s);
      var rest := s[4..];
      DecodeFour(p, q, r, z, rest);
      AcceptedIsCanonical(rest);
      EncodeFour(p, q, r, z, rest);
    }
  }

  /** A digit that is read stands for a sextet. */
  lemma Readable(s: Text, accumulated: nat, bits: Waiting)
    requires s != [] && accumulated < Pow2(bits) && DecodeFrom(s, accumulated, bits).Some?
    ensures Value(s[0]).Some? && s[0] == Digit(Value(s[0]).value) && s == [Digit(Value(s[0]).value)] + s[1..]
  {}

  lemma AcceptedPair(s: Text) returns (p: Sextet, q: Sextet)
    requires |s| >= 2 && DecodeFrom(s, 0, 0).Some?
    ensures s == [Digit(p)] + ([Digit(q)] + s[2..])
    ensures DecodeFrom(s, 0, 0) == Cons(Byte0(p, q), DecodeFrom(s[2..], q % 16, 4))
  {
    hide Digit, DecodeFrom, Value, Byte0;
    Readable(s, 0, 0);
    p := Value(s[0]).value;
    DecodeDigit(p, s[1..], 0, 0);
    Readable(s[1..], p, 6);
    q := Value(s[1]).value;
    assert s[1..][1..] == s[2..];
    DecodeTwo(p, q, s[2..]);
  }

  lemma AcceptedTwo(s: Text)
    requires |s| == 2 && DecodeFrom(s, 0, 0).Some?
    ensures Encode(DecodeFrom(s, 0, 0).value) == s
  {
    hide Digit, Encode, DecodeFrom, First, Second, Third, Fourth, Byte0, Byte1, Byte2;
    var p, q := AcceptedPair(s);
    var a := Byte0(p, q);
    DecodeEnd(q % 16, 4);
    GroupSextets(p, q, 0, 0);
    EncodeOne(a);
    assert [a] + [] == [a];
    Units(Digit(p), Digit(q), 0);
  }

  lemma AcceptedThree(s: Text)
    requires |s| == 3 && DecodeFrom(s, 0, 0).Some?
    ensures Encode(DecodeFrom(s, 0, 0).value) == s
  {
    hide Digit, Encode, DecodeFrom, First, Second, Third, Fourth, Byte0, Byte1, Byte2, Value;
    var p, q := AcceptedPair(s);
    Readable(s[2..], q % 16, 4);
    var r := Value(s[2]).value;
    assert s[2..][1..] == [];
    DecodeThird(q, r, []);
    DecodeEnd(r % 4, 2);
    var a, b := Byte0(p, q), Byte1(q, r);
    GroupSextets(p, q, r, 0);
    EncodeTwo(a, b);
    assert [a] + ([b] + []) == [a, b];
    Units(Digit(p), Digit(q), Digit(r));
  }

  lemma AcceptedFour(s: Text) returns (p: Sextet, q: Sextet, r: Sextet, z: Sextet)
    requires |s| >= 4 && DecodeFrom(s, 0, 0).Some?
    ensures s == [Digit(p), Digit(q), Digit(r), Digit(z)] + s[4..] && DecodeFrom(s[4..], 0, 0).Some?
  {
    hide Digit, DecodeFrom, Byte0, Byte1, Byte2, Value;
    p, q := AcceptedPair(s);
    Readable(s[2..], q % 16, 4);
    r := Value(s[2]).value;
    assert s[2..][1..] == s[3..];
    DecodeThird(q, r, s[3..]);
    Readable(s[3..], r % 4, 2);
    z := Value(s[3]).value;
    assert s[3..][1..] == s[4..];
    DecodeFourth(r, z, s[4..]);
  }

  lemma EncodeFour(p: Sextet, q: Sextet, r: Sextet, z: Sextet, rest: Text)
    requires DecodeFrom(rest, 0, 0).Some? && Encode(DecodeFrom(rest, 0, 0).value) == rest
    ensures var tail := DecodeFrom(rest, 0, 0).value;
      Encode([Byte0(p, q)] + ([Byte1(q, r)] + ([Byte2(r, z)] + tail))) == [Digit(p), Digit(q), Digit(r), Digit(z)] + rest
  {
    hide Digit, Encode, DecodeFrom, First, Second, Third, Fourth, Byte0, Byte1, Byte2;
    var tail := DecodeFrom(rest, 0, 0).value;
    var a, b, c := Byte0(p, q), Byte1(q, r), Byte2(r, z);
    EncodeThree(a, b, c, tail);
    GroupSextets(p, q, r, z);
    assert [a] + ([b] + ([c] + tail)) == [a, b, c] + tail;
  }

  // ------------------------------------------------------------- the standard

  /** The digits are those of RFC 4648 section 5, and a group of digits is the number its three bytes are. */
  lemma DigitsOfTheStandard(v: Sextet, a: Byte, b: Byte, c: Byte)
    ensures v < 26 ==> Digit(v) as char == 'A' + v as char
    ensures 26 <= v < 52 ==> Digit(v) as char == 'a' + (v - 26) as char
    ensures 52 <= v < 62 ==> Digit(v) as char == '0' + (v - 52) as char
    ensures Digit(62) as char == '-' && Digit(63) as char == '_'
    ensures First(a) * 0x40000 + Second(a, b) * 0x1000 + Third(b, c) * 0x40 + Fourth(c) == a * 0x10000 + b * 0x100 + c
  {}
}
