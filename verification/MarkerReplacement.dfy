/**
 * Replacing the prepared body's marker while the body streams by.
 */
module MarkerReplacement {
  import opened Bytes

  /** A replaced text and how often the marker was replaced. */
  datatype Replaced<T> = Replaced(text: seq<T>, count: nat)

  /** The whole body with every leftmost, non-overlapping occurrence of the marker replaced. */
  function Replace<T(==)>(s: seq<T>, marker: seq<T>, replacement: seq<T>): Replaced<T>
    requires marker != []
    decreases |s|
  {
    if |s| < |marker| then Replaced(s, 0)
    else if marker <= s then
      var rest := Replace(s[|marker|..], marker, replacement);
      Replaced(replacement + rest.text, rest.count + 1)
    else
      var rest := Replace(s[1..], marker, replacement);
      Replaced([s[0]] + rest.text, rest.count)
  }

  datatype Scanned<T> = Scanned(emitted: seq<T>, pending: seq<T>, count: nat)

  /** What one buffer yields: everything up to the first suffix that might still become the marker. */
  function Scan<T(==)>(s: seq<T>, marker: seq<T>, replacement: seq<T>): (r: Scanned<T>)
    requires marker != []
    ensures r.pending < marker
    decreases |s|
  {
    if s == [] then Scanned([], [], 0)
    else if marker <= s then
      var rest := Scan(s[|marker|..], marker, replacement);
      Scanned(replacement + rest.emitted, rest.pending, rest.count + 1)
    else if s <= marker then Scanned([], s, 0)
    else
      var rest := Scan(s[1..], marker, replacement);
      Scanned([s[0]] + rest.emitted, rest.pending, rest.count)
  }

  /** Scanning a buffer loses nothing, whatever bytes follow it. */
  lemma {:induction false} ScanThenReplace<T>(s: seq<T>, t: seq<T>, marker: seq<T>, replacement: seq<T>)
    requires marker != []
    ensures Splits(s, t, marker, replacement)
    decreases |s|
  {
    if s == [] {
      assert s + t == t;
      assert [] + t == t;
    } else if marker <= s {
      ScanThenReplace(s[|marker|..], t, marker, replacement);
      SplitsAfterMarker(s, t, marker, replacement);
    } else if !(s <= marker) {
      ScanThenReplace(s[1..], t, marker, replacement);
      SplitsAfterByte(s, t, marker, replacement);
    }
  }

  predicate Splits<T(==)>(s: seq<T>, t: seq<T>, marker: seq<T>, replacement: seq<T>)
    requires marker != []
  {
    var a := Scan(s, marker, replacement);
    Replace(s + t, marker, replacement) == Prepend(a.emitted, a.count, Replace(a.pending + t, marker, replacement))
  }

  lemma SplitsAfterMarker<T>(s: seq<T>, t: seq<T>, marker: seq<T>, replacement: seq<T>)
    requires marker != [] && marker <= s && Splits(s[|marker|..], t, marker, replacement)
    ensures Splits(s, t, marker, replacement)
  {
    var rest := s[|marker|..];
    var a := Scan(rest, marker, replacement);
    calc {
      Replace(s + t, marker, replacement);
      { assert marker <= s + t && (s + t)[|marker|..] == rest + t; }
      Prepend(replacement, 1, Replace(rest + t, marker, replacement));
      { PrependTwice(replacement, 1, a.emitted, a.count, Replace(a.pending + t, marker, replacement)); }
      Prepend(replacement + a.emitted, 1 + a.count, Replace(a.pending + t, marker, replacement));
    }
  }

  lemma SplitsAfterByte<T>(s: seq<T>, t: seq<T>, marker: seq<T>, replacement: seq<T>)
    requires marker != [] && s != [] && !(marker <= s) && !(s <= marker) && Splits(s[1..], t, marker, replacement)
    ensures Splits(s, t, marker, replacement)
  {
    var rest := s[1..];
    var a := Scan(rest, marker, replacement);
    calc {
      Replace(s + t, marker, replacement);
      { NotYetMarker(s, t, marker); ReplaceSkips(s + t, marker, replacement); assert (s + t)[1..] == rest + t; }
      Prepend([s[0]], 0, Replace(rest + t, marker, replacement));
      { PrependTwice([s[0]], 0, a.emitted, a.count, Replace(a.pending + t, marker, replacement)); }
      Prepend([s[0]] + a.emitted, a.count, Replace(a.pending + t, marker, replacement));
    }
  }

  /** Where no marker starts, the first byte is copied. */
  lemma ReplaceSkips<T>(s: seq<T>, marker: seq<T>, replacement: seq<T>)
    requires marker != [] && s != [] && !(marker <= s)
    ensures Replace(s, marker, replacement) == Prepend([s[0]], 0, Replace(s[1..], marker, replacement))
  {
    if |s| < |marker| {
      assert s == [s[0]] + s[1..];
    }
  }

  function Prepend<T>(text: seq<T>, count: nat, rest: Replaced<T>): Replaced<T> {
    Replaced(text + rest.text, count + rest.count)
  }

  lemma PrependTwice<T>(head: seq<T>, n: nat, next: seq<T>, k: nat, rest: Replaced<T>)
    ensures Prepend(head, n, Prepend(next, k, rest)) == Prepend(head + next, n + k, rest)
  {
    assert head + (next + rest.text) == head + next + rest.text;
  }

  /** A buffer that neither starts with the marker nor begins it will not start with it later either. */
  lemma NotYetMarker<T>(s: seq<T>, t: seq<T>, marker: seq<T>)
    requires !(marker <= s) && !(s <= marker)
    ensures !(marker <= s + t)
  {
    assert |marker| <= |s| ==> (s + t)[..|marker|] == s[..|marker|];
    assert |marker| > |s| && |marker| <= |s + t| ==> (s + t)[..|marker|][..|s|] == s;
  }

  lemma ShortText<T>(s: seq<T>, marker: seq<T>, replacement: seq<T>)
    requires |s| < |marker|
    ensures Replace(s, marker, replacement) == Replaced(s, 0)
  {}

  /** The whole rest of the buffer from `i` on begins the marker. */
  predicate MatchesPrefix<T(==)>(s: seq<T>, i: nat, marker: seq<T>)
    requires i <= |s|
  {
    s[i..] <= marker
  }

  /** `replaceOneQuotedMarker`: one pass over pending bytes and chunk, copying unmatched bytes in batches. */
  method ReplaceOneQuotedMarker(combined: Bytes, marker: Bytes, replacement: Bytes)
    returns (emitted: Bytes, pending: Bytes, replacements: nat)
    requires marker != []
    ensures Scanned(emitted, pending, replacements) == Scan(combined, marker, replacement)
  {
    hide ScansFrom, Scan;
    emitted, replacements := [], 0;
    var i, batchStart := 0, 0;
    ghost var done: Bytes := [];
    ScanStarts(combined, marker, replacement);
    while i < |combined|
      invariant 0 <= batchStart <= i <= |combined|
      invariant done == emitted + combined[batchStart..i]
      invariant ScansFrom(combined, i, marker, replacement, done, replacements)
    {
      OccursMeansPrefix(combined, i, marker);
      if combined[i] == marker[0] {
        if OccursAt(combined, marker, i) {
          ScanMatch(combined, i, marker, replacement, done, replacements);
          done := done + replacement;
          emitted := emitted + combined[batchStart..i] + replacement;
          replacements := replacements + 1;
          i := i + |marker|;
          batchStart := i;
          continue;
        }
        if MatchesPrefix(combined, i, marker) {
          ScanStops(combined, i, marker, replacement, done, replacements);
          emitted := emitted + combined[batchStart..i];
          pending := combined[i..];
          return;
        }
      }
      ScanSkip(combined, i, marker, replacement, done, replacements);
      done := done + [combined[i]];
      assert combined[batchStart..i] + [combined[i]] == combined[batchStart..i + 1];
      i := i + 1;
    }
    assert combined[|combined|..] == [];
    ScanStops(combined, i, marker, replacement, done, replacements);
    emitted := emitted + combined[batchStart..];
    pending := [];
  }

  lemma ScanStarts<T>(s: seq<T>, marker: seq<T>, replacement: seq<T>)
    requires marker != []
    ensures ScansFrom(s, 0, marker, replacement, [], 0)
  {
    assert s[0..] == s;
  }

  lemma ScanStops<T>(s: seq<T>, i: nat, marker: seq<T>, replacement: seq<T>, done: seq<T>, count: nat)
    requires marker != [] && i <= |s| && ScansFrom(s, i, marker, replacement, done, count)
    requires s[i..] < marker
    ensures Scan(s, marker, replacement) == Scanned(done, s[i..], count)
  {}

  /** Up to `i` the scan of `s` has emitted `done`. */
  predicate ScansFrom<T(==)>(s: seq<T>, i: nat, marker: seq<T>, replacement: seq<T>, done: seq<T>, count: nat)
    requires marker != [] && i <= |s|
  {
    var rest := Scan(s[i..], marker, replacement);
    Scan(s, marker, replacement) == Scanned(done + rest.emitted, rest.pending, count + rest.count)
  }

  lemma OccursMeansPrefix<T>(s: seq<T>, i: nat, marker: seq<T>)
    requires i <= |s|
    ensures OccursAt(s, marker, i) <==> marker <= s[i..]
  {
    assert i + |marker| <= |s| ==> s[i..][..|marker|] == s[i..i + |marker|];
  }

  lemma ScanMatch<T>(s: seq<T>, i: nat, marker: seq<T>, replacement: seq<T>, done: seq<T>, count: nat)
    requires marker != [] && OccursAt(s, marker, i) && i < |s| && ScansFrom(s, i, marker, replacement, done, count)
    ensures ScansFrom(s, i + |marker|, marker, replacement, done + replacement, count + 1)
  {
    OccursMeansPrefix(s, i, marker);
    assert s[i..][|marker|..] == s[i + |marker|..];
    var rest := Scan(s[i + |marker|..], marker, replacement);
    assert done + (replacement + rest.emitted) == done + replacement + rest.emitted;
  }

  lemma ScanSkip<T>(s: seq<T>, i: nat, marker: seq<T>, replacement: seq<T>, done: seq<T>, count: nat)
    requires marker != [] && i < |s| && ScansFrom(s, i, marker, replacement, done, count)
    requires !(marker <= s[i..]) && !(s[i..] <= marker)
    ensures ScansFrom(s, i + 1, marker, replacement, done + [s[i]], count)
  {
    assert s[i..][1..] == s[i + 1..];
    var rest := Scan(s[i + 1..], marker, replacement);
    assert done + ([s[i]] + rest.emitted) == done + [s[i]] + rest.emitted;
  }

  /** The stream `replaceOutputMarker` builds: what it passed on for what it was given. */
  class OutputStream {
    const marker: Bytes
    const replacement: Bytes
    var pending: Bytes
    var replacements: nat
    var enqueued: Bytes
    /** Everything read from the source so far. */
    ghost var consumed: Bytes

    ghost predicate Valid()
      reads this
    {
      && marker != [] && pending < marker
      && forall t: Bytes :: Agrees(consumed + t, pending + t)
    }

    ghost predicate Agrees(whole: Bytes, rest: Bytes)
      requires marker != []
      reads this
    {
      var a, b := Replace(whole, marker, replacement), Replace(rest, marker, replacement);
      a == Replaced(enqueued + b.text, replacements + b.count)
    }

    constructor (marker: Bytes, replacement: Bytes)
      requires marker != []
      ensures Valid() && consumed == [] && this.marker == marker && this.replacement == replacement
    {
      this.marker, this.replacement := marker, replacement;
      pending, replacements, enqueued, consumed := [], 0, [], [];
      new;
      forall t: Bytes ensures Agrees(consumed + t, pending + t) {
        assert enqueued + Replace([] + t, marker, replacement).text == Replace([] + t, marker, replacement).text;
      }
    }

    /** `pull` with a chunk of any length. */
    method Pull(chunk: Bytes)
      requires Valid()
      modifies this
      ensures Valid() && consumed == old(consumed) + chunk
    {
      hide Replace, Scan;
      var combined := pending + chunk;
      var emitted, nextPending, count := ReplaceOneQuotedMarker(combined, marker, replacement);
      forall t: Bytes
        ensures Replace(consumed + chunk + t, marker, replacement)
             == Replaced(enqueued + emitted + Replace(nextPending + t, marker, replacement).text,
                         replacements + count + Replace(nextPending + t, marker, replacement).count)
      {
        assert Agrees(consumed + (chunk + t), pending + (chunk + t));
        assert consumed + (chunk + t) == consumed + chunk + t && pending + (chunk + t) == combined + t;
        ScanThenReplace(combined, t, marker, replacement);
      }
      pending := nextPending;
      replacements := replacements + count;
      enqueued := enqueued + emitted;
      consumed := consumed + chunk;
    }

    /** `pull` at the end of the source: the stream closes normally iff exactly one marker was replaced. */
    method Finish() returns (closed: bool)
      requires Valid()
      modifies this
      ensures Replaced(enqueued, replacements) == Replace(old(consumed), marker, replacement)
      ensures closed <==> Replace(old(consumed), marker, replacement).count == 1
    {
      assert Agrees(consumed + [], pending + []);
      assert consumed + [] == consumed && pending + [] == pending;
      ShortText(pending, marker, replacement);
      if |pending| > 0 {
        enqueued := enqueued + pending;
        pending := [];
      }
      closed := replacements == 1;
    }
  }

  /** However a body is cut into chunks, empty ones included, the stream emits its replacement as a whole. */
  method ReplaceOutputMarker(chunks: seq<Bytes>, marker: Bytes, replacement: Bytes) returns (output: Bytes, closed: bool)
    requires marker != []
    ensures output == Replace(Flatten(chunks), marker, replacement).text
    ensures closed <==> Replace(Flatten(chunks), marker, replacement).count == 1
  {
    var stream := new OutputStream(marker, replacement);
    for i := 0 to |chunks|
      invariant stream.Valid() && stream.consumed == Flatten(chunks[..i])
      invariant stream.marker == marker && stream.replacement == replacement
    {
      stream.Pull(chunks[i]);
      FlattenAppend(chunks[..i], chunks[i]);
      assert chunks[..i] + [chunks[i]] == chunks[..i + 1];
    }
    assert chunks[..|chunks|] == chunks;
    closed := stream.Finish();
    output := stream.enqueued;
  }

  lemma OccursDrop<T>(s: seq<T>, n: nat, marker: seq<T>, i: nat)
    requires n <= |s|
    ensures OccursAt(s[n..], marker, i) <==> OccursAt(s, marker, i + n)
  {
    assert i + n + |marker| <= |s| ==> s[n..][i..i + |marker|] == s[i + n..i + n + |marker|];
  }

  /** A text in which the marker occurs once comes out with just that occurrence replaced. */
  lemma {:induction false} OneOccurrenceReplaced<T>(before: seq<T>, after: seq<T>, marker: seq<T>, replacement: seq<T>)
    requires marker != []
    requires forall i :: 0 <= i <= |before| + |after| && OccursAt(before + marker + after, marker, i) ==> i == |before|
    ensures Replace(before + marker + after, marker, replacement) == Replaced(before + replacement + after, 1)
    decreases |before|
  {
    var s := before + marker + after;
    if before == [] {
      assert s == marker + after && s[|marker|..] == after;
      forall i: nat ensures !OccursAt(after, marker, i) {
        OccursDrop(s, |marker|, marker, i);
      }
      NoOccurrence(after, marker, replacement);
      assert before + replacement + after == replacement + after;
    } else {
      var rest := before[1..] + marker + after;
      assert s[1..] == rest && s[0] == before[0];
      assert s[0..] == s;
      OccursMeansPrefix(s, 0, marker);
      forall i | 0 <= i <= |before[1..]| + |after| && OccursAt(rest, marker, i) ensures i == |before[1..]| {
        OccursDrop(s, 1, marker, i);
      }
      OneOccurrenceReplaced(before[1..], after, marker, replacement);
      assert [before[0]] + (before[1..] + replacement + after) == before + replacement + after;
    }
  }

  /**
   * Where the first occurrence of the marker ends, replacing starts anew: every occurrence that does not
   * overlap one before it is replaced and counted.
   */
  lemma {:induction false} FirstOccurrenceReplaced<T>(before: seq<T>, after: seq<T>, marker: seq<T>, replacement: seq<T>)
    requires marker != [] && forall i :: 0 <= i < |before| ==> !OccursAt(before + marker + after, marker, i)
    ensures var rest := Replace(after, marker, replacement);
      Replace(before + marker + after, marker, replacement) == Replaced(before + replacement + rest.text, rest.count + 1)
    decreases |before|
  {
    hide Replace, OccursAt;
    var s := before + marker + after;
    var rest := Replace(after, marker, replacement);
    if before == [] {
      assert s == marker + after;
      ReplaceHead(after, marker, replacement);
    } else {
      var tail := before[1..] + marker + after;
      assert s[1..] == tail && s[0] == before[0] && s[0..] == s;
      OccursMeansPrefix(s, 0, marker);
      ReplaceSkips(s, marker, replacement);
      forall i | 0 <= i < |before[1..]| ensures !OccursAt(tail, marker, i) {
        OccursDrop(s, 1, marker, i);
      }
      FirstOccurrenceReplaced(before[1..], after, marker, replacement);
    }
    Joined(before, replacement, rest.text);
  }

  lemma Joined<T>(before: seq<T>, a: seq<T>, b: seq<T>)
    ensures before == [] ==> before + a + b == a + b
    ensures before != [] ==> [before[0]] + (before[1..] + a + b) == before + a + b
  {}

  lemma ReplaceHead<T>(after: seq<T>, marker: seq<T>, replacement: seq<T>)
    requires marker != []
    ensures Replace(marker + after, marker, replacement) == Prepend(replacement, 1, Replace(after, marker, replacement))
  {
    assert (marker + after)[|marker|..] == after;
  }

  lemma {:induction false} NoOccurrence<T>(s: seq<T>, marker: seq<T>, replacement: seq<T>)
    requires marker != [] && forall i: nat :: !OccursAt(s, marker, i)
    ensures Replace(s, marker, replacement) == Replaced(s, 0)
    decreases |s|
  {
    if |s| >= |marker| {
      assert s[0..] == s;
      OccursMeansPrefix(s, 0, marker);
      forall i: nat ensures !OccursAt(s[1..], marker, i) {
        OccursDrop(s, 1, marker, i);
      }
      NoOccurrence(s[1..], marker, replacement);
    }
  }
}
