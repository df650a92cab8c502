/**
 * Signing and verifying relay tokens. The MAC under one key and purpose, UTF-8 and the parsing of
 * claims are library code here, given as functions.
 */
module RelayToken {
  import opened Wrappers
  import opened Bytes
  import opened RelayJson
  import opened Base64Url
  import opened RelayCredential

  const DOT: Unit := 0x2e
  const MAX_TOKEN_LENGTH: nat := 4096

  /** `parse` is `JSON.parse` followed by the strict parse of this kind of claims. */
  datatype Scheme = Scheme(
    mac: Bytes -> Bytes,
    encodeUtf8: Text -> Bytes,
    decodeUtf8: Bytes -> Option<Text>,
    parse: Text -> Option<Claim>)

  /** `split(".")`. */
  function Parts(s: Text): (r: seq<Text>)
    ensures r != []
  {
    if s == [] then [[]]
    else
      var rest := Parts(s[1..]);
      if s[0] == DOT then [[]] + rest else [[s[0]] + rest[0]] + rest[1..]
  }

  /** `signRelayToken`: `None` when serializing throws. */
  function Sign(k: Scheme, claims: Claim): Option<Text> {
    var text := Serialize(claims);
    if text.None? then None
    else
      var payload := k.encodeUtf8(text.value);
      Some(Encode(payload) + ([DOT] + Encode(k.mac(payload))))
  }

  /** `verifyRelayToken`, with an exception read as no claims. */
  function Verify(k: Scheme, token: Text): Option<Claim> {
    if |token| > MAX_TOKEN_LENGTH then None
    else
      var parts := Parts(token);
      if |parts| != 2 || parts[0] == [] || parts[1] == [] then None
      else
        var payload, mac := Decode(parts[0]), Decode(parts[1]);
        if payload.None? || mac.None? || k.mac(payload.value) != mac.value then None
        else VerifyPayload(k, payload.value)
  }

  /** The checks behind the MAC: UTF-8, no duplicate keys, valid claims, canonical spelling. */
  function VerifyPayload(k: Scheme, payload: Bytes): Option<Claim> {
    var text := k.decodeUtf8(payload);
    if text.None? || Scan(text.value, []) then None
    else
      var claims := k.parse(text.value);
      if claims.None? then None
      else
        var canonical := Serialize(claims.value);
        if canonical.None? || k.encodeUtf8(canonical.value) != payload then None else claims
  }

  // -------------------------------------------------------------- one spelling

  lemma {:induction false} JoinParts(s: Text)
    requires |Parts(s)| == 2
    ensures s == Parts(s)[0] + ([DOT] + Parts(s)[1])
    decreases |s|
  {
    var rest := Parts(s[1..]);
    if s[0] == DOT {
      NoDotOnePart(s[1..]);
      assert Parts(s) == [[]] + rest;
      assert s == [] + ([DOT] + s[1..]);
    } else {
      JoinParts(s[1..]);
      Consed(s[0], rest[0], [DOT] + rest[1], s);
    }
  }

  lemma Consed(u: Unit, a: Text, b: Text, s: Text)
    requires s != [] && s[0] == u && s[1..] == a + b
    ensures s == [u] + a + b
  {
    assert s == [s[0]] + s[1..];
  }

  lemma {:induction false} NoDotOnePart(s: Text)
    requires |Parts(s)| == 1
    ensures Parts(s) == [s]
    decreases |s|
  {
    if s != [] {
      NoDotOnePart(s[1..]);
      assert s == [s[0]] + s[1..];
    }
  }

  /**
   * Two tokens that verify to the same claims under one key and purpose are the same string: a
   * credential has one spelling.
   */
  lemma OneSpelling(k: Scheme, s: Text, t: Text)
    requires Verify(k, s).Some? && Verify(k, s) == Verify(k, t)
    ensures s == t
  {
    hide Decode, Parts, Serialize, Scan;
    Spelled(k, s);
    Spelled(k, t);
  }

  lemma Spelled(k: Scheme, token: Text)
    requires Verify(k, token).Some?
    ensures Sign(k, Verify(k, token).value) == Some(token)
  {
    hide Decode, Encode, Parts, Serialize, Scan;
    var parts := Parts(token);
    JoinParts(token);
    AcceptedIsCanonical(parts[0]);
    AcceptedIsCanonical(parts[1]);
  }

  // ------------------------------------------------------------- sign, verify

  lemma {:induction false} NoDotIn(s: Text, accumulated: nat, bits: Waiting)
    requires accumulated < Pow2(bits) && DecodeFrom(s, accumulated, bits).Some?
    ensures DOT !in s
    decreases |s|
  {
    if s != [] {
      var a := accumulated * 64 + Value(s[0]).value;
      if bits == 0 { NoDotIn(s[1..], a, 6); } else { NoDotIn(s[1..], a % Pow2(bits - 2), bits - 2); }
      assert s == [s[0]] + s[1..];
    }
  }

  lemma {:induction false} PartsOfPlain(s: Text)
    requires DOT !in s
    ensures Parts(s) == [s]
    decreases |s|
  {
    if s != [] {
      PartsOfPlain(s[1..]);
      assert s == [s[0]] + s[1..];
    }
  }

  lemma {:induction false} PartsOfTwo(a: Text, b: Text)
    requires DOT !in a && DOT !in b
    ensures Parts(a + ([DOT] + b)) == [a, b]
    decreases |a|
  {
    var s := a + ([DOT] + b);
    if a == [] {
      assert s[1..] == b;
      PartsOfPlain(b);
    } else {
      PartsOfTwo(a[1..], b);
      assert s[1..] == a[1..] + ([DOT] + b);
      assert a == [a[0]] + a[1..];
    }
  }

  /** What a scheme owes its callers for one set of claims: faithful UTF-8, a parser that reads it back. */
  predicate ReadsBack(k: Scheme, claims: Claim) {
    && Serialize(claims).Some?
    && var text := Serialize(claims).value;
    && k.decodeUtf8(k.encodeUtf8(text)) == Some(text) && k.encodeUtf8(text) != []
    && k.parse(text) == Some(claims)
    && k.mac(k.encodeUtf8(text)) != []
  }

  /** A signed token verifies to its claims exactly when it is short enough to be looked at. */
  lemma SignedVerifies(k: Scheme, claims: Claim)
    requires WellKeyed(claims) && ReadsBack(k, claims)
    ensures Sign(k, claims).Some?
    ensures Verify(k, Sign(k, claims).value) == Some(claims) <==> |Sign(k, claims).value| <= MAX_TOKEN_LENGTH
  {
    hide Encode, DecodeFrom, Parts, Scan, CanonicalTree;
    var payload := k.encodeUtf8(Serialize(claims).value);
    var mac := k.mac(payload);
    EncodedIsDecoded(payload);
    EncodedIsDecoded(mac);
    NoDotIn(Encode(payload), 0, 0);
    NoDotIn(Encode(mac), 0, 0);
    PartsOfTwo(Encode(payload), Encode(mac));
    EncodedNotEmpty(payload);
    EncodedNotEmpty(mac);
    CanonicalPassesScanner(claims);
  }

  lemma EncodedNotEmpty(b: Bytes)
    requires b != []
    ensures Encode(b) != []
  {
    EncodedIsDecoded(b);
    DecodeEnd(0, 0);
  }

  /** What a token that verifies has passed: the length, the MAC of its payload, no repeated key, the canonical text. */
  lemma VerifiedFacts(k: Scheme, token: Text)
    requires Verify(k, token).Some?
    ensures |token| <= 4096 && |Parts(token)| == 2 && Parts(token)[0] != [] && Parts(token)[1] != []
    ensures var payload, mac, claims := Decode(Parts(token)[0]), Decode(Parts(token)[1]), Verify(k, token).value;
      && payload.Some? && mac.Some? && k.mac(payload.value) == mac.value
      && k.decodeUtf8(payload.value).Some? && !Scan(k.decodeUtf8(payload.value).value, [])
      && k.parse(k.decodeUtf8(payload.value).value) == Some(claims)
      && Serialize(claims).Some? && k.encodeUtf8(Serialize(claims).value) == payload.value
  {
    hide Decode, Parts, Serialize, Scan;
  }
}
