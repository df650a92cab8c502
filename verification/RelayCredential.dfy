/**
 * Canonical claims (RFC 8785) and the tokens that carry them.
 */
module RelayCredential {
  import opened Wrappers
  import opened Bytes
  import opened RelayJson
  import opened Base64Url

  // -------------------------------------------------------- canonical claims

  /** A value of the claim domain; the members of a record come in any order. */
  datatype Claim =
    | NullClaim
    | BoolClaim(value: bool)
    | NumberClaim(number: int)
    | TextClaim(text: Text)
    | RecordClaim(entries: seq<Entry>)
  datatype Entry = Entry(key: Text, value: Claim)

  /** JavaScript's order of strings: by code units. */
  predicate Before(a: Text, b: Text) {
    b != [] && (a == [] || a[0] < b[0] || (a[0] == b[0] && Before(a[1..], b[1..])))
  }

  lemma {:induction false} BeforeIsTotal(a: Text, b: Text)
    ensures a == b || Before(a, b) || Before(b, a)
    ensures !(Before(a, b) && Before(b, a)) && !Before(a, a)
    decreases |a|
  {
    if a != [] && b != [] && a[0] == b[0] {
      BeforeIsTotal(a[1..], b[1..]);
      BeforeIsTotal(a[1..], a[1..]);
      assert a == [a[0]] + a[1..] && b == [b[0]] + b[1..];
    } else if a != [] {
      BeforeIsTotal(a[1..], a[1..]);
    }
  }

  lemma {:induction false} BeforeIsTransitive(a: Text, b: Text, c: Text)
    requires Before(a, b) && Before(b, c)
    ensures Before(a, c)
    decreases |a|
  {
    if a != [] && b != [] && a[0] == b[0] && b[0] == c[0] {
      BeforeIsTransitive(a[1..], b[1..], c[1..]);
    }
  }

  /** A text comes first if it is a proper beginning of the other, or less at the first unit in which they differ. */
  lemma {:induction false} BeforeExactly(a: Text, b: Text)
    ensures Before(a, b) <==>
              || a < b
              || exists k :: 0 <= k < |a| && k < |b| && a[..k] == b[..k] && a[k] < b[k]
    decreases |a|
  {
    if a != [] && b != [] && a[0] == b[0] {
      var p, q := a[1..], b[1..];
      BeforeExactly(p, q);
      assert a == [a[0]] + p && b == [b[0]] + q;
      assert a < b <==> p < q;
      forall k | 0 <= k < |p| && k < |q| ensures p[..k] == q[..k] <==> a[..k + 1] == b[..k + 1] {
        assert a[..k + 1] == [a[0]] + p[..k] && b[..k + 1] == [b[0]] + q[..k];
        assert a[..k + 1][1..] == p[..k] && b[..k + 1][1..] == q[..k];
      }
      if k :| 0 <= k < |p| && k < |q| && p[..k] == q[..k] && p[k] < q[k] {
        assert a[..k + 1] == b[..k + 1] && a[k + 1] < b[k + 1];
      }
      if k :| 0 <= k < |a| && k < |b| && a[..k] == b[..k] && a[k] < b[k] {
        assert p[..k - 1] == q[..k - 1] && p[k - 1] < q[k - 1];
      }
    } else if a != [] && b != [] {
      assert a[..0] == b[..0];
      assert forall k :: 0 < k < |a| && k < |b| && a[..k] == b[..k] ==> a[..k][0] == b[..k][0];
    }
  }

  function Insert(e: Entry, sorted: seq<Entry>): seq<Entry> {
    if sorted == [] then [e]
    else if Before(e.key, sorted[0].key) then [e] + sorted
    else [sorted[0]] + Insert(e, sorted[1..])
  }

  /** The entries by key. */
  function Sort(entries: seq<Entry>): seq<Entry> {
    if entries == [] then [] else Insert(entries[0], Sort(entries[1..]))
  }

  lemma {:induction false} InsertContents(e: Entry, sorted: seq<Entry>)
    ensures multiset(Insert(e, sorted)) == multiset{e} + multiset(sorted)
  {
    if sorted != [] && !Before(e.key, sorted[0].key) {
      InsertContents(e, sorted[1..]);
      assert sorted == [sorted[0]] + sorted[1..];
    }
  }

  lemma {:induction false} SortContents(entries: seq<Entry>)
    ensures multiset(Sort(entries)) == multiset(entries)
  {
    if entries != [] {
      SortContents(entries[1..]);
      InsertContents(entries[0], Sort(entries[1..]));
      assert entries == [entries[0]] + entries[1..];
    }
  }

  /** Entries with different keys may be inserted in either order. */
  lemma {:induction false} InsertCommutes(d: Entry, e: Entry, sorted: seq<Entry>)
    requires d.key != e.key
    ensures Insert(d, Insert(e, sorted)) == Insert(e, Insert(d, sorted))
    decreases |sorted|
  {
    BeforeIsTotal(d.key, e.key);
    if sorted == [] {
      assert [e][1..] == [] && [d][1..] == [];
    } else {
      var first, rest := sorted[0], sorted[1..];
      assert ([d] + sorted)[1..] == sorted && ([e] + sorted)[1..] == sorted;
      assert ([first] + Insert(d, rest))[1..] == Insert(d, rest) && ([first] + Insert(e, rest))[1..] == Insert(e, rest);
      InsertCommutes(d, e, rest);
      if Before(d.key, e.key) && Before(e.key, first.key) { BeforeIsTransitive(d.key, e.key, first.key); }
      if Before(e.key, d.key) && Before(d.key, first.key) { BeforeIsTransitive(e.key, d.key, first.key); }
    }
  }

  predicate DistinctKeys(entries: seq<Entry>) {
    forall i, j :: 0 <= i < j < |entries| ==> entries[i].key != entries[j].key
  }

  /** The same entries in another order sort to the same list. */
  lemma {:induction false} SortIgnoresOrder(a: seq<Entry>, b: seq<Entry>)
    requires multiset(a) == multiset(b) && DistinctKeys(b)
    ensures Sort(a) == Sort(b)
    decreases |a|
  {
    hide DistinctKeys, Insert;
    if a == [] {
      assert |multiset(a)| == |a| && |multiset(b)| == |b|;
    } else {
      assert a[0] in multiset(b);
      var i :| 0 <= i < |b| && b[i] == a[0];
      var rest := b[..i] + b[i + 1..];
      Without(a, 0);
      Without(b, i);
      assert a[..0] + a[1..] == a[1..];
      SortIgnoresOrder(a[1..], rest);
      MoveToFront(b[..i], b[i], b[i + 1..]);
    }
  }

  lemma Without(b: seq<Entry>, i: nat)
    requires i < |b|
    ensures b == b[..i] + [b[i]] + b[i + 1..]
    ensures multiset(b[..i] + b[i + 1..]) == multiset(b) - multiset{b[i]}
    ensures DistinctKeys(b) ==> DistinctKeys(b[..i] + b[i + 1..]) && forall d :: d in b[..i] ==> d.key != b[i].key
  {
    assert b == b[..i] + [b[i]] + b[i + 1..];
    var rest := b[..i] + b[i + 1..];
    assert forall j :: 0 <= j < |rest| ==> rest[j] == b[if j < i then j else j + 1];
  }

  lemma {:induction false} MoveToFront(front: seq<Entry>, e: Entry, back: seq<Entry>)
    requires forall d :: d in front ==> d.key != e.key
    ensures Sort(front + [e] + back) == Insert(e, Sort(front + back))
    decreases |front|
  {
    if front == [] {
      assert front + [e] + back == [e] + back && front + back == back;
    } else {
      MoveToFront(front[1..], e, back);
      InsertCommutes(front[0], e, Sort(front[1..] + back));
      assert (front + [e] + back)[1..] == front[1..] + [e] + back;
      assert (front + back)[1..] == front[1..] + back;
    }
  }

  function Digits(n: nat): (s: Text)
    ensures s != [] && forall u :: u in s ==> ScalarUnit(u)
  {
    (if n < 10 then [] else Digits(n / 10)) + [0x30 + n % 10]
  }

  function DecimalText(n: int): (s: Text)
    ensures s != [] && forall u :: u in s ==> ScalarUnit(u)
  {
    if n < 0 then [0x2d] + Digits(-n) else Digits(n)
  }

  const TRUE_TEXT: Text := [0x74, 0x72, 0x75, 0x65]
  const FALSE_TEXT: Text := [0x66, 0x61, 0x6c, 0x73, 0x65]
  const NULL_TEXT: Text := [0x6e, 0x75, 0x6c, 0x6c]

  /** Every number is a safe integer; otherwise serializing throws. */
  predicate Serializable(c: Claim) {
    match c
    case NumberClaim(n) => 0 - MAX_SAFE <= n <= MAX_SAFE
    case RecordClaim(entries) => forall i :: 0 <= i < |entries| ==> Serializable(entries[i].value)
    case _ => true
  }

  /** No record names a key twice, as in every JavaScript object. */
  predicate WellKeyed(c: Claim) {
    c.RecordClaim? ==>
      DistinctKeys(c.entries) && forall i :: 0 <= i < |c.entries| ==> WellKeyed(c.entries[i].value)
  }

  /** The document canonical serialization writes: no white space, members sorted. */
  function CanonicalTree(c: Claim): Tree
    decreases c, 2, 0
  {
    match c
    case NullClaim => Scalar(NULL_TEXT)
    case BoolClaim(b) => Scalar(if b then TRUE_TEXT else FALSE_TEXT)
    case NumberClaim(n) => Scalar(DecimalText(n))
    case TextClaim(s) => Str(EscapePieces(s))
    case RecordClaim(entries) =>
      SortContents(entries);
      Object([], CanonicalMembers(c, Sort(entries)))
  }

  function CanonicalMembers(owner: Claim, entries: seq<Entry>): Members
    requires owner.RecordClaim? && multiset(entries) <= multiset(owner.entries)
    decreases owner, 1, |entries|
  {
    if entries == [] then NoMembers
    else
      assert entries[0] in multiset(owner.entries);
      assert entries == [entries[0]] + entries[1..];
      Member([], EscapePieces(entries[0].key), [], [], CanonicalTree(entries[0].value), [],
             CanonicalMembers(owner, entries[1..]))
  }

  /** `serializeCanonicalJson`. */
  function Serialize(c: Claim): Option<Text> {
    if Serializable(c) then Some(TextOf(CanonicalTree(c))) else None
  }

  /** Serializing throws exactly on a number that is no safe integer, anywhere in the claims. */
  lemma SerializedUnlessUnsafe(c: Claim)
    ensures c.NumberClaim? ==> (Serialize(c).Some? <==> -9007199254740991 <= c.number <= 9007199254740991)
    ensures c.RecordClaim? ==>
              (Serialize(c).Some? <==> forall e :: e in c.entries ==> Serialize(e.value).Some?)
    ensures !c.NumberClaim? && !c.RecordClaim? ==> Serialize(c).Some?
  {
    hide CanonicalTree;
  }

  /** The order in which a record lists its members does not show in its serialization. */
  lemma SerializeIgnoresOrder(a: seq<Entry>, b: seq<Entry>)
    requires multiset(a) == multiset(b) && DistinctKeys(b)
    ensures Serialize(RecordClaim(a)) == Serialize(RecordClaim(b))
  {
    SortIgnoresOrder(a, b);
    SortContents(a);
    SortContents(b);
    SameMembers(RecordClaim(a), RecordClaim(b), Sort(a));
    if Serializable(RecordClaim(a)) { SameNumbers(a, b); }
    if Serializable(RecordClaim(b)) { SameNumbers(b, a); }
  }

  lemma SameNumbers(a: seq<Entry>, b: seq<Entry>)
    requires multiset(a) == multiset(b) && Serializable(RecordClaim(a))
    ensures Serializable(RecordClaim(b))
  {
    forall i | 0 <= i < |b| ensures Serializable(b[i].value) {
      assert b[i] in multiset(a);
    }
  }

  lemma {:induction false} SameMembers(c: Claim, d: Claim, entries: seq<Entry>)
    requires c.RecordClaim? && multiset(entries) <= multiset(c.entries)
    requires d.RecordClaim? && multiset(entries) <= multiset(d.entries)
    ensures CanonicalMembers(c, entries) == CanonicalMembers(d, entries)
    decreases |entries|
  {
    if entries != [] {
      assert entries == [entries[0]] + entries[1..];
      SameMembers(c, d, entries[1..]);
    }
  }

  lemma DistinctCons(e: Entry, entries: seq<Entry>)
    ensures DistinctKeys([e] + entries) <==> DistinctKeys(entries) && forall d :: d in entries ==> d.key != e.key
  {
    var all := [e] + entries;
    assert forall i :: 0 <= i < |entries| ==> all[i + 1] == entries[i];
    if DistinctKeys(all) {
      forall i, j | 0 <= i < j < |entries| ensures entries[i].key != entries[j].key {
        assert all[i + 1].key != all[j + 1].key;
      }
      forall d | d in entries ensures d.key != e.key {
        var i :| 0 <= i < |entries| && entries[i] == d;
        assert all[0].key != all[i + 1].key;
      }
    }
  }

  lemma {:induction false} InsertKeepsDistinct(e: Entry, sorted: seq<Entry>)
    requires DistinctKeys(sorted) && forall d :: d in sorted ==> d.key != e.key
    ensures DistinctKeys(Insert(e, sorted))
    decreases |sorted|
  {
    hide DistinctKeys;
    DistinctCons(e, sorted);
    if sorted != [] {
      var first, rest := sorted[0], sorted[1..];
      assert sorted == [first] + rest;
      DistinctCons(first, rest);
      InsertKeepsDistinct(e, rest);
      DistinctCons(first, Insert(e, rest));
      InsertContents(e, rest);
      assert forall d :: d in Insert(e, rest) ==> d in multiset(Insert(e, rest));
    } else {
      assert [e] + sorted == [e];
    }
  }

  lemma {:induction false} SortKeepsDistinct(entries: seq<Entry>)
    requires DistinctKeys(entries)
    ensures DistinctKeys(Sort(entries))
    decreases |entries|
  {
    hide DistinctKeys;
    if entries != [] {
      var first, rest := entries[0], entries[1..];
      assert entries == [first] + rest;
      DistinctCons(first, rest);
      SortKeepsDistinct(rest);
      SortContents(rest);
      assert forall d :: d in Sort(rest) ==> d in multiset(Sort(rest));
      InsertKeepsDistinct(first, Sort(rest));
    }
  }

  /** What canonical serialization writes is grammatical and repeats no key. */
  lemma {:induction false} CanonicalFacts(c: Claim)
    requires WellKeyed(c)
    ensures Grammatical(CanonicalTree(c)) && !HasDuplicate(CanonicalTree(c))
    decreases c, 2, 0
  {
    if c.RecordClaim? {
      var sorted := Sort(c.entries);
      SortContents(c.entries);
      MembersFacts(c, sorted);
      SortKeepsDistinct(c.entries);
    }
  }

  lemma {:induction false} MembersFacts(owner: Claim, entries: seq<Entry>)
    requires owner.RecordClaim? && WellKeyed(owner) && multiset(entries) <= multiset(owner.entries)
    ensures var ms := CanonicalMembers(owner, entries);
      && GrammaticalMembers(ms) && !MemberHasDuplicate(ms)
      && |Keys(ms)| == |entries| && forall i :: 0 <= i < |entries| ==> Keys(ms)[i] == entries[i].key
    decreases owner, 1, |entries|
  {
    hide DistinctKeys, EscapePieces, HasDuplicate, Grammatical;
    if entries != [] {
      FirstOf(owner.entries, entries);
      CanonicalFacts(entries[0].value);
      MembersFacts(owner, entries[1..]);
    }
  }

  lemma FirstOf(all: seq<Entry>, entries: seq<Entry>)
    requires entries != [] && multiset(entries) <= multiset(all)
    ensures entries[0] in all && multiset(entries[1..]) <= multiset(all)
  {
    assert entries == [entries[0]] + entries[1..];
    assert entries[0] in multiset(all);
  }

  /** The duplicate-key scanner passes every canonical serialization. */
  lemma CanonicalPassesScanner(c: Claim)
    requires WellKeyed(c)
    ensures !Scan(TextOf(CanonicalTree(c)), [])
  {
    CanonicalFacts(c);
    ScannerIsExact([], CanonicalTree(c), []);
    assert [] + (TextOf(CanonicalTree(c)) + []) == TextOf(CanonicalTree(c));
  }

  // ---------------------------------------------------- what the document says

  /** Nothing comes before something it belongs after. */
  predicate Ascending(entries: seq<Entry>) {
    forall i, j :: 0 <= i < j < |entries| ==> !Before(entries[j].key, entries[i].key)
  }

  lemma AscendsFrom(e: Entry, sorted: seq<Entry>)
    ensures Ascending([e] + sorted) <==> Ascending(sorted) && forall d :: d in sorted ==> !Before(d.key, e.key)
  {
    var all := [e] + sorted;
    assert forall i :: 0 <= i < |sorted| ==> all[i + 1] == sorted[i];
    if Ascending(all) {
      forall i, j | 0 <= i < j < |sorted| ensures !Before(sorted[j].key, sorted[i].key) {
        assert !Before(all[j + 1].key, all[i + 1].key);
      }
      forall d | d in sorted ensures !Before(d.key, e.key) {
        var i :| 0 <= i < |sorted| && sorted[i] == d;
        assert !Before(all[i + 1].key, all[0].key);
      }
    }
  }

  lemma {:induction false} InsertAscends(e: Entry, sorted: seq<Entry>)
    requires Ascending(sorted)
    ensures Ascending(Insert(e, sorted))
    decreases |sorted|
  {
    if sorted != [] {
      hide Ascending, Before;
      var first, rest := sorted[0], sorted[1..];
      assert sorted == [first] + rest;
      AscendsFrom(first, rest);
      if Before(e.key, first.key) {
        forall d | d in sorted ensures !Before(d.key, e.key) {
          BelongsBehind(e.key, first.key, d.key);
        }
        AscendsFrom(e, sorted);
      } else {
        InsertAscends(e, rest);
        InsertContents(e, rest);
        assert forall d :: d in Insert(e, rest) ==> d in multiset(Insert(e, rest));
        AscendsFrom(first, Insert(e, rest));
      }
    }
  }

  lemma BelongsBehind(a: Text, b: Text, c: Text)
    requires Before(a, b) && (c == b || !Before(c, b))
    ensures !Before(c, a)
  {
    BeforeIsTotal(a, b);
    if Before(c, a) && c != b {
      BeforeIsTransitive(c, a, b);
    }
  }

  /** The members are written by their keys, in ascending order, each as often as it was given. */
  lemma {:induction false} SortAscends(entries: seq<Entry>)
    ensures Ascending(Sort(entries)) && multiset(Sort(entries)) == multiset(entries)
  {
    SortContents(entries);
    if entries != [] {
      SortAscends(entries[1..]);
      InsertAscends(entries[0], Sort(entries[1..]));
    }
  }

  /** The number a row of decimal digits stands for. */
  function DigitsValue(s: Text): int {
    if s == [] then 0 else 10 * DigitsValue(s[..|s| - 1]) + s[|s| - 1] - 0x30
  }

  predicate IsDigits(s: Text) {
    s != [] && (|s| > 1 ==> s[0] != 0x30) && forall i :: 0 <= i < |s| ==> 0x30 <= s[i] <= 0x39
  }

  /** Digits without leading zeros, behind a minus sign if the number is negative. */
  predicate SpellsNumber(text: Text, n: int) {
    if n < 0 then text != [] && text[0] == 0x2d && IsDigits(text[1..]) && DigitsValue(text[1..]) == 0 - n
    else IsDigits(text) && DigitsValue(text) == n
  }

  lemma {:induction false} DigitsSpell(n: nat)
    ensures IsDigits(Digits(n)) && DigitsValue(Digits(n)) == n && (n > 0 ==> Digits(n)[0] != 0x30)
  {
    hide IsDigits, DigitsValue;
    if n < 10 {
      OneDigit(0x30 + n);
      assert Digits(n) == [0x30 + n];
    } else {
      DigitsSpell(n / 10);
      DigitAppended(Digits(n / 10), 0x30 + n % 10);
    }
  }

  lemma OneDigit(d: Unit)
    requires 0x30 <= d <= 0x39
    ensures IsDigits([d]) && DigitsValue([d]) == d - 0x30
  {
    assert [d][..0] == [];
  }

  lemma DigitAppended(s: Text, d: Unit)
    requires 0x30 <= d <= 0x39
    ensures DigitsValue(s + [d]) == 10 * DigitsValue(s) + d - 0x30
    ensures IsDigits(s) && s[0] != 0x30 ==> IsDigits(s + [d])
  {
    assert (s + [d])[..|s|] == s;
  }

  /** The document says these claims: the right words, numbers and strings, and the members in ascending order. */
  ghost predicate Spells(t: Tree, c: Claim)
    requires Grammatical(t)
    decreases t, 0
  {
    match c
    case NullClaim => t == Scalar([0x6e, 0x75, 0x6c, 0x6c])
    case BoolClaim(true) => t == Scalar([0x74, 0x72, 0x75, 0x65])
    case BoolClaim(false) => t == Scalar([0x66, 0x61, 0x6c, 0x73, 0x65])
    case NumberClaim(n) => t.Scalar? && SpellsNumber(t.text, n)
    case TextClaim(s) => t.Str? && Decoded(t.pieces) == s
    case RecordClaim(entries) =>
      t.Object? && exists sorted ::
        multiset(sorted) == multiset(entries) && Ascending(sorted) && SpellsMembers(t.members, sorted)
  }

  ghost predicate SpellsMembers(ms: Members, entries: seq<Entry>)
    requires GrammaticalMembers(ms)
    decreases ms, 1
  {
    if ms.NoMembers? then entries == []
    else
      && entries != [] && Decoded(ms.key) == entries[0].key && Spells(ms.value, entries[0].value)
      && SpellsMembers(ms.more, entries[1..])
  }

  /** What canonical serialization writes says the claims it was given. */
  lemma {:induction false} CanonicalSpells(c: Claim)
    requires WellKeyed(c)
    ensures Grammatical(CanonicalTree(c)) && Spells(CanonicalTree(c), c)
    decreases c, 2, 0
  {
    CanonicalFacts(c);
    match c {
      case NumberClaim(n) =>
        DigitsSpell(if n < 0 then 0 - n else n);
        if n < 0 {
          assert DecimalText(n)[1..] == Digits(0 - n);
        }
      case RecordClaim(entries) =>
        SortAscends(entries);
        MembersSpell(c, Sort(entries));
      case _ =>
    }
  }

  lemma {:induction false} MembersSpell(owner: Claim, entries: seq<Entry>)
    requires owner.RecordClaim? && WellKeyed(owner) && multiset(entries) <= multiset(owner.entries)
    ensures var ms := CanonicalMembers(owner, entries); GrammaticalMembers(ms) && SpellsMembers(ms, entries)
    decreases owner, 1, |entries|
  {
    hide DistinctKeys, EscapePieces, Spells, Grammatical;
    if entries != [] {
      FirstOf(owner.entries, entries);
      CanonicalSpells(entries[0].value);
      MembersSpell(owner, entries[1..]);
    }
  }

  /** A canonical document is written without any blanks. */
  predicate NoBlanks(t: Tree)
    decreases t, 0
  {
    match t
    case Object(blank, ms) => blank == [] && NoBlanksIn(ms)
    case Array(_, _) => false
    case _ => true
  }

  predicate NoBlanksIn(ms: Members)
    decreases ms, 1
  {
    ms.Member? ==>
      && ms.before == [] && ms.middle == [] && ms.ahead == [] && ms.after == []
      && NoBlanks(ms.value) && NoBlanksIn(ms.more)
  }

  lemma {:induction false} CanonicalHasNoBlanks(c: Claim)
    ensures NoBlanks(CanonicalTree(c))
    decreases c, 2, 0
  {
    if c.RecordClaim? {
      SortContents(c.entries);
      MembersHaveNoBlanks(c, Sort(c.entries));
    }
  }

  lemma {:induction false} MembersHaveNoBlanks(owner: Claim, entries: seq<Entry>)
    requires owner.RecordClaim? && multiset(entries) <= multiset(owner.entries)
    ensures NoBlanksIn(CanonicalMembers(owner, entries))
    decreases owner, 1, |entries|
  {
    if entries != [] {
      FirstOf(owner.entries, entries);
      CanonicalHasNoBlanks(entries[0].value);
      MembersHaveNoBlanks(owner, entries[1..]);
    }
  }
}
