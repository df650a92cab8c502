/**
 * JSON text as the relay reads it: string tokens, and the scanner for duplicate keys.
 */
module RelayJson {
  import opened Wrappers

  /** A UTF-16 code unit; a text may hold unpaired surrogates. */
  type Unit = u: int | 0 <= u < 0x10000
  type Text = seq<Unit>

  const QUOTE: Unit := 0x22
  const BACKSLASH: Unit := 0x5c
  const LETTER_U: Unit := 0x75
  const COLON: Unit := 0x3a
  const COMMA: Unit := 0x2c
  const OPEN_BRACE: Unit := 0x7b
  const CLOSE_BRACE: Unit := 0x7d
  const OPEN_BRACKET: Unit := 0x5b
  const CLOSE_BRACKET: Unit := 0x5d

  /** RFC 8259 section 2. */
  predicate IsWhitespace(u: Unit) {
    u == 0x20 || u == 0x09 || u == 0x0a || u == 0x0d
  }

  function HexValue(u: Unit): Option<nat> {
    if 0x30 <= u <= 0x39 then Some(u - 0x30)
    else if 0x61 <= u <= 0x66 then Some(u - 0x61 + 10)
    else if 0x41 <= u <= 0x46 then Some(u - 0x41 + 10)
    else None
  }

  /** The unit a two-character escape stands for. */
  function SimpleEscape(u: Unit): Option<Unit> {
    if u == QUOTE || u == BACKSLASH || u == 0x2f then Some(u)
    else if u == 0x62 then Some(0x08)
    else if u == 0x66 then Some(0x0c)
    else if u == 0x6e then Some(0x0a)
    else if u == 0x72 then Some(0x0d)
    else if u == 0x74 then Some(0x09)
    else None
  }

  /** White space, escapes and hexadecimal digits are those of RFC 8259 sections 2 and 7, and no others. */
  lemma GrammarOfTheStandard(u: Unit)
    ensures IsWhitespace(u) <==> u < 0x80 && u as char in " \t\n\r"
    ensures SimpleEscape(u).Some? <==> u < 0x80 && u as char in "\"\\/bfnrt"
    ensures HexValue(u).Some? <==> u < 0x80 && ('0' <= u as char <= '9' || 'a' <= u as char <= 'f' || 'A' <= u as char <= 'F')
    ensures HexValue(u).Some? ==>
              HexValue(u).value == if u as char <= '9' then u - 0x30 else if u as char <= 'F' then u - 0x41 + 10 else u - 0x61 + 10
    ensures SimpleEscape(0x22) == Some(0x22) && SimpleEscape(0x5c) == Some(0x5c) && SimpleEscape(0x2f) == Some(0x2f)
    ensures SimpleEscape(0x62) == Some(0x08) && SimpleEscape(0x66) == Some(0x0c) && SimpleEscape(0x6e) == Some(0x0a)
    ensures SimpleEscape(0x72) == Some(0x0d) && SimpleEscape(0x74) == Some(0x09)
  {}

  // ----------------------------------------------------------- string tokens

  /** What a string token says: RFC 8259 section 7, one piece per decoded unit. */
  datatype Piece = Plain(unit: Unit) | Simple(letter: Unit) | Hex(a: Unit, b: Unit, c: Unit, d: Unit)

  predicate ValidPiece(p: Piece) {
    match p
    case Plain(u) => u >= 0x20 && u != QUOTE && u != BACKSLASH
    case Simple(u) => SimpleEscape(u).Some?
    case Hex(a, b, c, d) => HexValue(a).Some? && HexValue(b).Some? && HexValue(c).Some? && HexValue(d).Some?
  }

  predicate ValidPieces(pieces: seq<Piece>) {
    forall p :: p in pieces ==> ValidPiece(p)
  }

  function PieceText(p: Piece): Text {
    match p
    case Plain(u) => [u]
    case Simple(u) => [BACKSLASH, u]
    case Hex(a, b, c, d) => [BACKSLASH, LETTER_U, a, b, c, d]
  }

  function PieceUnit(p: Piece): Unit
    requires ValidPiece(p)
  {
    match p
    case Plain(u) => u
    case Simple(u) => SimpleEscape(u).value
    case Hex(a, b, c, d) =>
      HexValue(a).value * 0x1000 + HexValue(b).value * 0x100 + HexValue(c).value * 0x10 + HexValue(d).value
  }

  /** The text of a token after its opening quote. */
  function TokenTail(pieces: seq<Piece>): Text {
    if pieces == [] then [QUOTE] else PieceText(pieces[0]) + TokenTail(pieces[1..])
  }

  function Decoded(pieces: seq<Piece>): Text
    requires ValidPieces(pieces)
  {
    if pieces == [] then [] else [PieceUnit(pieces[0])] + Decoded(pieces[1..])
  }

  /** A decoded token and how many units it took after its opening quote. */
  datatype Token = Token(value: Text, length: nat)

  /** The next unit of a token, the number of units it is written with, or the end. */
  datatype Reading = End | Malformed | Next(unit: Unit, width: nat)

  function ReadUnit(s: Text): (r: Reading)
    ensures r.Next? ==> 0 < r.width <= |s|
    ensures r.End? ==> |s| > 0
  {
    if s == [] then Malformed
    else if s[0] == QUOTE then End
    else if s[0] != BACKSLASH then Next(s[0], 1)
    else if |s| == 1 then Malformed
    else if s[1] == LETTER_U then
      if |s| < 6 || !ValidPiece(Hex(s[2], s[3], s[4], s[5])) then Malformed
      else Next(PieceUnit(Hex(s[2], s[3], s[4], s[5])), 6)
    else if SimpleEscape(s[1]).None? then Malformed
    else Next(SimpleEscape(s[1]).value, 2)
  }

  /** Decoding one unit at a time from just behind the opening quote. */
  function ReadString(s: Text): (r: Option<Token>)
    ensures r.Some? ==> 0 < r.value.length <= |s|
    decreases |s|
  {
    match ReadUnit(s)
    case End => Some(Token([], 1))
    case Malformed => None
    case Next(u, n) => ReadOn(u, n, ReadString(s[n..]))
  }

  function ReadOn(u: Unit, n: nat, rest: Option<Token>): Option<Token> {
    if rest.None? then None else Some(Token([u] + rest.value.value, n + rest.value.length))
  }

  /** Every RFC 8259 string token is decoded to what its pieces say and consumed to its last unit. */
  lemma {:induction false} TokenIsRead(pieces: seq<Piece>, rest: Text)
    requires ValidPieces(pieces)
    ensures ReadString(TokenTail(pieces) + rest) == Some(Token(Decoded(pieces), |TokenTail(pieces)|))
    decreases |pieces|
  {
    hide ReadString, PieceText, PieceUnit;
    if pieces == [] {
      ClosingQuote(rest);
    } else {
      TokenIsRead(pieces[1..], rest);
      PieceIsRead(pieces[0], TokenTail(pieces[1..]) + rest);
      Regroup(PieceText(pieces[0]), TokenTail(pieces[1..]), rest);
    }
  }

  /** One unit as the code takes it: a piece, or a control character that stands for itself. */
  predicate Taken(p: Piece, u: Unit) {
    if p.Plain? then u == p.unit && u != QUOTE && u != BACKSLASH else ValidPiece(p) && u == PieceUnit(p)
  }

  /** Nothing else is decoded: what is read is a row of pieces and a closing quote, and the result is what they say. */
  lemma {:induction false} OnlyTokensAreRead(s: Text) returns (pieces: seq<Piece>)
    requires ReadString(s).Some?
    ensures |TokenTail(pieces)| == ReadString(s).value.length && TokenTail(pieces) == s[..|TokenTail(pieces)|]
    ensures |pieces| == |ReadString(s).value.value|
    ensures forall i :: 0 <= i < |pieces| ==> Taken(pieces[i], ReadString(s).value.value[i])
    decreases |s|
  {
    hide ReadString, TokenTail;
    ReadStringStep(s);
    match ReadUnit(s) {
      case End =>
        pieces := [];
        EmptyTail();
        assert s[..1] == [QUOTE];
      case Next(u, n) =>
        var p := FirstPiece(s);
        var more := OnlyTokensAreRead(s[n..]);
        pieces := [p] + more;
        assert pieces[1..] == more;
        TailStep(pieces);
        Prefixes(s, n, |TokenTail(more)|);
    }
  }

  lemma ReadStringStep(s: Text)
    ensures ReadUnit(s).End? ==> ReadString(s) == Some(Token([], 1))
    ensures ReadUnit(s).Malformed? ==> ReadString(s).None?
    ensures ReadUnit(s).Next? ==>
              ReadString(s) == ReadOn(ReadUnit(s).unit, ReadUnit(s).width, ReadString(s[ReadUnit(s).width..]))
  {}

  lemma EmptyTail()
    ensures TokenTail([]) == [QUOTE]
  {}

  lemma TailStep(pieces: seq<Piece>)
    requires pieces != []
    ensures TokenTail(pieces) == PieceText(pieces[0]) + TokenTail(pieces[1..])
  {}

  lemma Prefixes(s: Text, n: nat, m: nat)
    requires n + m <= |s|
    ensures s[..n] + s[n..][..m] == s[..n + m]
  {}

  lemma FirstPiece(s: Text) returns (p: Piece)
    requires ReadUnit(s).Next?
    ensures Taken(p, ReadUnit(s).unit) && PieceText(p) == s[..ReadUnit(s).width]
  {
    p := if s[0] != BACKSLASH then Plain(s[0]) else if s[1] == LETTER_U then Hex(s[2], s[3], s[4], s[5]) else Simple(s[1]);
  }

  lemma ClosingQuote(rest: Text)
    ensures ReadString([QUOTE] + rest) == Some(Token([], 1))
  {}

  lemma Regroup(a: Text, b: Text, c: Text)
    ensures a + b + c == a + (b + c)
  {}

  lemma PieceIsRead(p: Piece, more: Text)
    requires ValidPiece(p)
    ensures ReadString(PieceText(p) + more) == ReadOn(PieceUnit(p), |PieceText(p)|, ReadString(more))
  {
    var s := PieceText(p) + more;
    assert s[|PieceText(p)|..] == more;
  }

  /** The answer of `decodeJsonString` for a token that opens at `start`. */
  function TokenAt(text: Text, start: nat): (r: Option<(Text, nat)>)
    requires start < |text|
    ensures r.Some? ==> start + 1 < r.value.1 <= |text|
  {
    var read := ReadString(text[start + 1..]);
    if read.None? then None else Some((read.value.value, start + 1 + read.value.length))
  }

  /** At `i`, with `out` decoded so far, the answer hangs on the rest of the text. */
  predicate ReadSoFar(text: Text, start: nat, i: nat, out: Text)
    requires start < i <= |text|
  {
    var rest := ReadString(text[i..]);
    TokenAt(text, start) == if rest.None? then None else Some((out + rest.value.value, i + rest.value.length))
  }

  lemma ReadMore(text: Text, start: nat, i: nat, out: Text)
    requires start < i <= |text| && ReadSoFar(text, start, i, out)
    ensures match ReadUnit(text[i..])
      case End => TokenAt(text, start) == Some((out, i + 1))
      case Malformed => TokenAt(text, start) == None
      case Next(u, n) => i + n <= |text| && ReadSoFar(text, start, i + n, out + [u])
  {
    var reading := ReadUnit(text[i..]);
    if reading.Next? {
      assert text[i..][reading.width..] == text[i + reading.width..];
      var rest := ReadString(text[i + reading.width..]);
      if rest.Some? {
        assert out + ([reading.unit] + rest.value.value) == out + [reading.unit] + rest.value.value;
      }
    } else if reading.End? {
      assert out + [] == out;
    }
  }

  /** `decodeJsonString`: the loop over indices, with the value built up as it goes. */
  method DecodeJsonString(text: Text, start: nat) returns (token: Option<(Text, nat)>)
    requires start < |text|
    ensures token == TokenAt(text, start)
  {
    hide ReadSoFar, ReadString, TokenAt;
    var out: Text := [];
    var i := start + 1;
    ReadNothing(text, start);
    while i < |text|
      invariant start < i <= |text| && ReadSoFar(text, start, i, out)
    {
      ReadMore(text, start, i, out);
      var ch := text[i];
      if ch == QUOTE {
        return Some((out, i + 1));
      }
      if ch == BACKSLASH {
        if i + 1 == |text| {
          return None;
        }
        var escape := text[i + 1];
        if escape == LETTER_U {
          if |text| < i + 6 || !ValidPiece(Hex(text[i + 2], text[i + 3], text[i + 4], text[i + 5])) {
            return None;
          }
          out := out + [PieceUnit(Hex(text[i + 2], text[i + 3], text[i + 4], text[i + 5]))];
          i := i + 6;
          continue;
        }
        var simple := SimpleEscape(escape);
        if simple.None? {
          return None;
        }
        out := out + [simple.value];
        i := i + 2;
        continue;
      }
      out := out + [ch];
      i := i + 1;
    }
    ReadMore(text, start, i, out);
    token := None;
  }

  lemma ReadNothing(text: Text, start: nat)
    requires start < |text|
    ensures ReadSoFar(text, start, start + 1, [])
  {
    var rest := ReadString(text[start + 1..]);
    assert rest.Some? ==> [] + rest.value.value == rest.value.value;
  }

  // ------------------------------------------------------------ canonical text

  function LowerHexDigit(n: nat): (u: Unit)
    requires n < 16
    ensures HexValue(u) == Some(n)
  {
    if n < 10 then 0x30 + n else 0x61 + (n - 10)
  }

  /** How canonical JSON (RFC 8785) writes one unit. */
  function EscapePiece(u: Unit): (p: Piece)
    ensures ValidPiece(p) && PieceUnit(p) == u
  {
    if u == QUOTE || u == BACKSLASH then Simple(u)
    else if u == 0x08 then Simple(0x62)
    else if u == 0x09 then Simple(0x74)
    else if u == 0x0a then Simple(0x6e)
    else if u == 0x0c then Simple(0x66)
    else if u == 0x0d then Simple(0x72)
    else if u < 0x20 then Hex(0x30, 0x30, LowerHexDigit(u / 16), LowerHexDigit(u % 16))
    else Plain(u)
  }

  const HEX_DIGITS := "0123456789abcdef"

  /** The escapes of RFC 8785 section 3.2.2.2: seven short ones, lower-case hexadecimal below 0x20, and no others. */
  lemma EscapeTable(u: Unit)
    ensures PieceText(EscapePiece(u)) ==
              if u == 0x22 then [0x5c, 0x22] else if u == 0x5c then [0x5c, 0x5c]
              else if u == 0x08 then [0x5c, 0x62] else if u == 0x09 then [0x5c, 0x74] else if u == 0x0a then [0x5c, 0x6e]
              else if u == 0x0c then [0x5c, 0x66] else if u == 0x0d then [0x5c, 0x72]
              else if u < 0x20 then [0x5c, 0x75, 0x30, 0x30, HEX_DIGITS[u / 16] as int, HEX_DIGITS[u % 16] as int]
              else [u]
  {}

  function EscapePieces(value: Text): (pieces: seq<Piece>)
    ensures ValidPieces(pieces) && Decoded(pieces) == value
  {
    if value == [] then [] else [EscapePiece(value[0])] + EscapePieces(value[1..])
  }

  /** `escapeCanonicalJsonString`: surrogates and everything else above 0x1f stand for themselves. */
  method EscapeCanonicalJsonString(value: Text) returns (out: Text)
    ensures out == [QUOTE] + TokenTail(EscapePieces(value))
  {
    out := [QUOTE];
    for i := 0 to |value|
      invariant out + TokenTail(EscapePieces(value[i..])) == [QUOTE] + TokenTail(EscapePieces(value))
    {
      assert value[i..][1..] == value[i + 1..];
      out := out + PieceText(EscapePiece(value[i]));
    }
    out := out + [QUOTE];
  }

  /** Decoding what was escaped gives the value back and consumes the whole token, whatever follows it. */
  lemma EscapedIsDecoded(value: Text, rest: Text)
    ensures ReadString(TokenTail(EscapePieces(value)) + rest)
         == Some(Token(value, |TokenTail(EscapePieces(value))|))
  {
    TokenIsRead(EscapePieces(value), rest);
  }

  // --------------------------------------------------------------- documents

  /**
   * The concrete syntax of RFC 8259 values, white space included: a tree is one parse of one text.
   * A scalar is a number, `true`, `false` or `null`.
   */
  datatype Tree =
    | Scalar(text: Text)
    | Str(pieces: seq<Piece>)
    | Array(blank: Text, items: Items)
    | Object(blank: Text, members: Members)

  datatype Items = NoItems | Item(before: Text, value: Tree, after: Text, more: Items)

  datatype Members =
    | NoMembers
    | Member(before: Text, key: seq<Piece>, middle: Text, ahead: Text, value: Tree, after: Text, more: Members)

  predicate Blank(s: Text) {
    forall u :: u in s ==> IsWhitespace(u)
  }

  /** Letters, digits, signs and the decimal point: enough for every scalar. */
  predicate ScalarUnit(u: Unit) {
    0x30 <= u <= 0x39 || 0x61 <= u <= 0x7a || 0x41 <= u <= 0x5a || u == 0x2b || u == 0x2d || u == 0x2e
  }

  predicate Grammatical(t: Tree) {
    match t
    case Scalar(text) => text != [] && forall u :: u in text ==> ScalarUnit(u)
    case Str(pieces) => ValidPieces(pieces)
    case Array(blank, items) => Blank(blank) && GrammaticalItems(items)
    case Object(blank, members) => Blank(blank) && GrammaticalMembers(members)
  }

  predicate GrammaticalItems(items: Items) {
    items.Item? ==>
      Blank(items.before) && Grammatical(items.value) && Blank(items.after) && GrammaticalItems(items.more)
  }

  predicate GrammaticalMembers(ms: Members) {
    ms.Member? ==>
      && Blank(ms.before) && ValidPieces(ms.key) && Blank(ms.middle) && Blank(ms.ahead)
      && Grammatical(ms.value) && Blank(ms.after) && GrammaticalMembers(ms.more)
  }

  function StringText(pieces: seq<Piece>): Text {
    [QUOTE] + TokenTail(pieces)
  }

  function TextOf(t: Tree): Text
    decreases t, 0
  {
    match t
    case Scalar(text) => text
    case Str(pieces) => StringText(pieces)
    case Array(blank, items) => [OPEN_BRACKET] + (blank + (TextOfItems(items) + [CLOSE_BRACKET]))
    case Object(blank, members) => [OPEN_BRACE] + (blank + (TextOfMembers(members) + [CLOSE_BRACE]))
  }

  function TextOfItems(items: Items): Text
    decreases items, 0
  {
    if items.NoItems? then []
    else items.before + (TextOf(items.value) + (items.after + MoreItems(items.more)))
  }

  function MoreItems(items: Items): Text
    decreases items, 1
  {
    if items.NoItems? then [] else [COMMA] + TextOfItems(items)
  }

  function TextOfMembers(ms: Members): Text
    decreases ms, 0
  {
    if ms.NoMembers? then []
    else
      ms.before + (StringText(ms.key) + (ms.middle + ([COLON]
      + (ms.ahead + (TextOf(ms.value) + (ms.after + MoreMembers(ms.more)))))))
  }

  function MoreMembers(ms: Members): Text
    decreases ms, 1
  {
    if ms.NoMembers? then [] else [COMMA] + TextOfMembers(ms)
  }

  function Keys(ms: Members): seq<Text>
    requires GrammaticalMembers(ms)
  {
    if ms.NoMembers? then [] else [Decoded(ms.key)] + Keys(ms.more)
  }

  predicate Repeats(keys: seq<Text>) {
    exists i, j :: 0 <= i < j < |keys| && keys[i] == keys[j]
  }

  /** Some object, at any depth, has two members with the same decoded key. */
  predicate HasDuplicate(t: Tree)
    requires Grammatical(t)
  {
    match t
    case Scalar(_) => false
    case Str(_) => false
    case Array(_, items) => ItemHasDuplicate(items)
    case Object(_, members) => Repeats(Keys(members)) || MemberHasDuplicate(members)
  }

  predicate ItemHasDuplicate(items: Items)
    requires GrammaticalItems(items)
  {
    items.Item? && (HasDuplicate(items.value) || ItemHasDuplicate(items.more))
  }

  predicate MemberHasDuplicate(ms: Members)
    requires GrammaticalMembers(ms)
  {
    ms.Member? && (HasDuplicate(ms.value) || MemberHasDuplicate(ms.more))
  }

  // ------------------------------------------------------------- the scanner

  /** The keys seen in each open object; `None` for an open array. */
  type Scopes = seq<Option<set<Text>>>

  predicate ColonNext(s: Text) {
    s != [] && if IsWhitespace(s[0]) then ColonNext(s[1..]) else s[0] == COLON
  }

  function Pop(scopes: Scopes): Scopes {
    if scopes == [] then [] else scopes[..|scopes| - 1]
  }

  predicate InObject(scopes: Scopes) {
    scopes != [] && scopes[|scopes| - 1].Some?
  }

  function Seen(scopes: Scopes): set<Text>
    requires InObject(scopes)
  {
    scopes[|scopes| - 1].value
  }

  function WithKey(scopes: Scopes, key: Text): Scopes
    requires InObject(scopes)
  {
    scopes[|scopes| - 1 := Some(Seen(scopes) + {key})]
  }

  function ScopesAfter(u: Unit, scopes: Scopes): Scopes {
    if u == OPEN_BRACE then scopes + [Some({})]
    else if u == OPEN_BRACKET then scopes + [None]
    else if u == CLOSE_BRACE || u == CLOSE_BRACKET then Pop(scopes)
    else scopes
  }

  /** Whether a flat scan of the rest of a text, with these scopes open, comes upon a repeated key. */
  predicate Scan(s: Text, scopes: Scopes)
    decreases |s|, 0
  {
    if s == [] then false
    else if s[0] == QUOTE then
      var token := ReadString(s[1..]);
      token.Some? && ScanToken(s[1 + token.value.length..], token.value.value, scopes)
    else Scan(s[1..], ScopesAfter(s[0], scopes))
  }

  /** The scan behind a string token: a colon next in an object makes it a key. */
  predicate ScanToken(rest: Text, value: Text, scopes: Scopes)
    decreases |rest|, 1
  {
    if ColonNext(rest) && InObject(scopes) then
      value in Seen(scopes) || Scan(rest, WithKey(scopes, value))
    else Scan(rest, scopes)
  }

  predicate PlainUnit(u: Unit) {
    u != QUOTE && u != OPEN_BRACE && u != CLOSE_BRACE && u != OPEN_BRACKET && u != CLOSE_BRACKET
  }

  lemma {:induction false} ScanSkips(s: Text, rest: Text, scopes: Scopes)
    requires forall u :: u in s ==> PlainUnit(u)
    ensures Scan(s + rest, scopes) == Scan(rest, scopes)
    decreases |s|
  {
    if s == [] {
      assert s + rest == rest;
    } else {
      assert s[0] in s;
      ScanSkips(s[1..], rest, scopes);
      ScanUnit(s[0], s[1..] + rest, scopes);
      Uncons(s, rest);
    }
  }

  lemma {:induction false} ColonBehindBlank(blank: Text, rest: Text)
    requires Blank(blank)
    ensures ColonNext(blank + rest) == ColonNext(rest)
    decreases |blank|
  {
    if blank == [] {
      assert blank + rest == rest;
    } else {
      ColonBehindBlank(blank[1..], rest);
      assert (blank + rest)[1..] == blank[1..] + rest;
    }
  }

  lemma ScanString(pieces: seq<Piece>, rest: Text, scopes: Scopes)
    requires ValidPieces(pieces)
    ensures Scan(StringText(pieces) + rest, scopes) == ScanToken(rest, Decoded(pieces), scopes)
  {
    var tail := TokenTail(pieces);
    TokenIsRead(pieces, rest);
    assert (StringText(pieces) + rest)[1..] == tail + rest;
    assert (StringText(pieces) + rest)[1 + |tail|..] == rest;
  }

  lemma Uncons(s: Text, rest: Text)
    requires s != []
    ensures s + rest == [s[0]] + (s[1..] + rest)
  {}

  lemma ScanUnit(u: Unit, rest: Text, scopes: Scopes)
    requires u != QUOTE
    ensures Scan([u] + rest, scopes) == Scan(rest, ScopesAfter(u, scopes))
  {
    assert ([u] + rest)[1..] == rest;
  }

  /** With keys already seen: a member repeats one of them or an earlier one, or its value has a duplicate. */
  predicate Clash(ms: Members, seen: set<Text>)
    requires GrammaticalMembers(ms)
  {
    ms.Member? && (Decoded(ms.key) in seen || HasDuplicate(ms.value) || Clash(ms.more, seen + {Decoded(ms.key)}))
  }

  lemma {:induction false} ClashMeans(ms: Members, seen: set<Text>)
    requires GrammaticalMembers(ms)
    ensures Clash(ms, seen) <==>
              Repeats(Keys(ms)) || MemberHasDuplicate(ms) || exists k :: k in Keys(ms) && k in seen
    decreases ms
  {
    if ms.Member? {
      var key, keys := Decoded(ms.key), Keys(ms.more);
      ClashMeans(ms.more, seen + {key});
      RepeatsBehind(key, keys);
      assert Keys(ms) == [key] + keys;
    }
  }

  lemma RepeatsBehind(key: Text, keys: seq<Text>)
    ensures Repeats([key] + keys) <==> key in keys || Repeats(keys)
  {
    var all := [key] + keys;
    if Repeats(keys) {
      var i, j :| 0 <= i < j < |keys| && keys[i] == keys[j];
      assert all[i + 1] == all[j + 1];
    }
    if key in keys {
      var j :| 0 <= j < |keys| && keys[j] == key;
      assert all[0] == all[j + 1];
    }
    if Repeats(all) {
      RepeatsAhead(key, keys);
    }
  }

  lemma RepeatsAhead(key: Text, keys: seq<Text>)
    requires Repeats([key] + keys)
    ensures key in keys || Repeats(keys)
  {
    var all := [key] + keys;
    var i, j :| 0 <= i < j < |all| && all[i] == all[j];
    assert all[j] == keys[j - 1];
    if i > 0 {
      assert keys[i - 1] == keys[j - 1];
    }
  }

  function WithKeys(scopes: Scopes, ms: Members): (r: Scopes)
    requires InObject(scopes) && GrammaticalMembers(ms)
    ensures |r| == |scopes| && r[..|r| - 1] == scopes[..|scopes| - 1]
    decreases ms
  {
    if ms.NoMembers? then scopes else WithKeys(WithKey(scopes, Decoded(ms.key)), ms.more)
  }

  /** Behind a value comes white space and then a comma or what closes the collection. */
  lemma NoColonBehind(after: Text, more: Text, rest: Text)
    requires Blank(after) && (more == [] || more[0] == COMMA) && !ColonNext(rest)
    ensures !ColonNext(after + (more + rest))
  {
    ColonBehindBlank(after, more + rest);
    if more == [] {
      assert more + rest == rest;
    }
  }

  lemma {:induction false} ScanValue(t: Tree, rest: Text, scopes: Scopes)
    requires Grammatical(t) && !ColonNext(rest)
    ensures Scan(TextOf(t) + rest, scopes) == (HasDuplicate(t) || Scan(rest, scopes))
    decreases t, 0
  {
    hide Scan, ColonNext;
    match t {
      case Scalar(text) => ScanSkips(text, rest, scopes);
      case Str(pieces) => ScanString(pieces, rest, scopes);
      case Array(blank, items) =>
        var inner := TextOfItems(items) + [CLOSE_BRACKET];
        BracketedText(OPEN_BRACKET, blank, TextOfItems(items), CLOSE_BRACKET, rest);
        ScanUnit(OPEN_BRACKET, blank + (TextOfItems(items) + ([CLOSE_BRACKET] + rest)), scopes);
        ScanSkips(blank, TextOfItems(items) + ([CLOSE_BRACKET] + rest), scopes + [None]);
        CloserIsNoColon(CLOSE_BRACKET, rest);
        ScanItems(items, [CLOSE_BRACKET] + rest, scopes + [None]);
        ScanUnit(CLOSE_BRACKET, rest, scopes + [None]);
        PushPop(scopes, scopes + [None]);
      case Object(blank, members) =>
        var inside := scopes + [Some({})];
        BracketedText(OPEN_BRACE, blank, TextOfMembers(members), CLOSE_BRACE, rest);
        ScanUnit(OPEN_BRACE, blank + (TextOfMembers(members) + ([CLOSE_BRACE] + rest)), scopes);
        ScanSkips(blank, TextOfMembers(members) + ([CLOSE_BRACE] + rest), inside);
        CloserIsNoColon(CLOSE_BRACE, rest);
        ScanMembers(members, [CLOSE_BRACE] + rest, inside);
        ScanUnit(CLOSE_BRACE, rest, WithKeys(inside, members));
        PushPop(scopes, WithKeys(inside, members));
        ClashMeans(members, {});
    }
  }

  lemma BracketedText(open: Unit, blank: Text, inner: Text, close: Unit, rest: Text)
    ensures [open] + (blank + (inner + [close])) + rest == [open] + (blank + (inner + ([close] + rest)))
  {
    Regroup([open], blank + (inner + [close]), rest);
    Regroup(blank, inner + [close], rest);
    Regroup(inner, [close], rest);
  }

  lemma CloserIsNoColon(u: Unit, rest: Text)
    requires u == CLOSE_BRACE || u == CLOSE_BRACKET
    ensures !ColonNext([u] + rest)
  {}

  lemma PushPop(scopes: Scopes, pushed: Scopes)
    requires |pushed| == |scopes| + 1 && pushed[..|scopes|] == scopes
    ensures Pop(pushed) == scopes
  {}

  lemma {:induction false} ScanItems(items: Items, rest: Text, scopes: Scopes)
    requires GrammaticalItems(items) && !ColonNext(rest)
    ensures Scan(TextOfItems(items) + rest, scopes) == (ItemHasDuplicate(items) || Scan(rest, scopes))
    decreases items, 1
  {
    hide Scan, ColonNext;
    if items.NoItems? {
      assert [] + rest == rest;
    } else {
      var value, more := TextOf(items.value), MoreItems(items.more);
      Regroup(items.before, value + (items.after + more), rest);
      Regroup(value, items.after + more, rest);
      Regroup(items.after, more, rest);
      ScanSkips(items.before, value + (items.after + (more + rest)), scopes);
      NoColonBehind(items.after, more, rest);
      ScanValue(items.value, items.after + (more + rest), scopes);
      ScanSkips(items.after, more + rest, scopes);
      ScanItems(items.more, rest, scopes);
      if items.more.Item? {
        Regroup([COMMA], TextOfItems(items.more), rest);
        ScanUnit(COMMA, TextOfItems(items.more) + rest, scopes);
      }
    }
  }

  lemma {:induction false} ScanMembers(ms: Members, rest: Text, scopes: Scopes)
    requires GrammaticalMembers(ms) && !ColonNext(rest) && InObject(scopes)
    ensures Scan(TextOfMembers(ms) + rest, scopes) == (Clash(ms, Seen(scopes)) || Scan(rest, WithKeys(scopes, ms)))
    decreases ms, 1
  {
    hide Scan, ColonNext;
    if ms.NoMembers? {
      assert [] + rest == rest;
    } else {
      var value, more := TextOf(ms.value), MoreMembers(ms.more);
      var key := Decoded(ms.key);
      var next := WithKey(scopes, key);
      var behindValue := ms.after + (more + rest);
      var behindColon := ms.ahead + (value + behindValue);
      MemberText(ms, value, more, rest);
      ScanSkips(ms.before, StringText(ms.key) + (ms.middle + ([COLON] + behindColon)), scopes);
      ScanString(ms.key, ms.middle + ([COLON] + behindColon), scopes);
      ColonBehindBlank(ms.middle, [COLON] + behindColon);
      ColonIsNext(behindColon);
      ScanSkips(ms.middle, [COLON] + behindColon, next);
      ScanUnit(COLON, behindColon, next);
      ScanSkips(ms.ahead, value + behindValue, next);
      NoColonBehind(ms.after, more, rest);
      ScanValue(ms.value, behindValue, next);
      ScanSkips(ms.after, more + rest, next);
      ScanMembers(ms.more, rest, next);
      if ms.more.Member? {
        Regroup([COMMA], TextOfMembers(ms.more), rest);
        ScanUnit(COMMA, TextOfMembers(ms.more) + rest, next);
      }
    }
  }

  lemma ColonIsNext(rest: Text)
    ensures ColonNext([COLON] + rest)
  {}

  lemma MemberText(ms: Members, value: Text, more: Text, rest: Text)
    requires ms.Member? && value == TextOf(ms.value) && more == MoreMembers(ms.more)
    ensures TextOfMembers(ms) + rest
         == ms.before + (StringText(ms.key) + (ms.middle + ([COLON] + (ms.ahead + (value + (ms.after + (more + rest)))))))
  {
    var e := ms.after + more;
    var d := ms.ahead + (value + e);
    Regroup(ms.before, StringText(ms.key) + (ms.middle + ([COLON] + d)), rest);
    Regroup(StringText(ms.key), ms.middle + ([COLON] + d), rest);
    Regroup(ms.middle, [COLON] + d, rest);
    Regroup([COLON], d, rest);
    Regroup(ms.ahead, value + e, rest);
    Regroup(value, e, rest);
    Regroup(ms.after, more, rest);
  }

  /** On every JSON text the flat scan finds a duplicate exactly when some object of the document has one. */
  lemma ScannerIsExact(before: Text, t: Tree, after: Text)
    requires Blank(before) && Grammatical(t) && Blank(after)
    ensures Scan(before + (TextOf(t) + after), []) <==> HasDuplicate(t)
  {
    ScanSkips(before, TextOf(t) + after, []);
    ScanSkips(after, [], []);
    ColonBehindBlank(after, []);
    assert after + [] == after;
    ScanValue(t, after, []);
  }

  // The scanner as it runs.

  method SkipWhitespace(text: Text, start: nat) returns (j: nat)
    requires start <= |text|
    ensures start <= j <= |text|
    ensures ColonNext(text[start..]) <==> j < |text| && text[j] == COLON
  {
    j := start;
    while j < |text| && IsWhitespace(text[j])
      invariant start <= j <= |text| && (ColonNext(text[start..]) <==> ColonNext(text[j..]))
    {
      assert text[j..][1..] == text[j + 1..];
      j := j + 1;
    }
  }

  /** `hasDuplicateJsonKeys`: one pass with a stack of key sets. */
  method HasDuplicateJsonKeys(text: Text) returns (duplicate: bool)
    ensures duplicate <==> Scan(text, [])
  {
    hide ReadString, ColonNext;
    var keyStack: Scopes := [];
    var i := 0;
    assert text[0..] == text;
    while i < |text|
      invariant 0 <= i <= |text| && (Scan(text, []) <==> Scan(text[i..], keyStack))
    {
      var ch := text[i];
      TailOfTail(text, i);
      if ch == QUOTE {
        var token := DecodeJsonString(text, i);
        if token.None? {
          return false;
        }
        var (value, end) := token.value;
        BehindToken(text, i);
        i := end;
        var j := SkipWhitespace(text, i);
        if j < |text| && text[j] == COLON && InObject(keyStack) {
          if value in Seen(keyStack) {
            return true;
          }
          keyStack := WithKey(keyStack, value);
        }
        continue;
      }
      keyStack := ScopesAfter(ch, keyStack);
      i := i + 1;
    }
    duplicate := false;
  }

  lemma TailOfTail(text: Text, i: nat)
    requires i < |text|
    ensures text[i..][0] == text[i] && text[i..][1..] == text[i + 1..]
  {}

  lemma BehindToken(text: Text, i: nat)
    requires i < |text| && TokenAt(text, i).Some?
    ensures text[i..][1 + ReadString(text[i + 1..]).value.length..] == text[TokenAt(text, i).value.1..]
  {}
}
