/**
 * Splitting a text stream into server-sent events on blank lines, and finding the usage in them.
 */
module EventSplitter {
  import opened Wrappers
  import opened Bytes

  /** The length of a match of `\r?\n\r?\n` at `i`, or zero. */
  function BoundaryLength(s: string, i: nat): (n: nat)
    requires i <= |s|
    ensures n > 0 ==> 2 <= n <= 4 && i + n <= |s|
  {
    var first := if i < |s| && s[i] == '\r' then i + 1 else i;
    if first < |s| && s[first] == '\n' then
      var second := if first + 1 < |s| && s[first + 1] == '\r' then first + 2 else first + 1;
      if second < |s| && s[second] == '\n' then second + 1 - i else 0
    else 0
  }

  /** The leftmost boundary from `i` on, or the end of the text. */
  function BoundaryFrom(s: string, i: nat): (p: nat)
    requires i <= |s|
    ensures i <= p <= |s| && (p < |s| ==> BoundaryLength(s, p) > 0)
    ensures forall k :: i <= k < p ==> BoundaryLength(s, k) == 0
    decreases |s| - i
  {
    if i == |s| || BoundaryLength(s, i) > 0 then i else BoundaryFrom(s, i + 1)
  }

  /** The complete events of a text and what follows the last boundary. */
  datatype Pieces = Pieces(events: seq<string>, rest: string)

  function Cut(s: string): Pieces
    decreases |s|
  {
    var p := BoundaryFrom(s, 0);
    if p == |s| then Pieces([], s)
    else
      Behind([s[..p]], Cut(s[p + BoundaryLength(s, p)..]))
  }

  function Behind(events: seq<string>, pieces: Pieces): Pieces {
    Pieces(events + pieces.events, pieces.rest)
  }

  lemma BehindTwice(a: seq<string>, b: seq<string>, pieces: Pieces)
    ensures Behind(a, Behind(b, pieces)) == Behind(a + b, pieces)
  {
    assert a + (b + pieces.events) == a + b + pieces.events;
  }

  /** The events of a whole text; a trailing empty piece is none. */
  function Events(s: string): seq<string> {
    Flushed(Cut(s))
  }

  function Flushed(pieces: Pieces): seq<string> {
    pieces.events + if pieces.rest == "" then [] else [pieces.rest]
  }

  /** Two line ends in a row, each with or without a carriage return. */
  predicate IsBoundary(s: string) {
    s == "\n\n" || s == "\r\n\n" || s == "\n\r\n" || s == "\r\n\r\n"
  }

  /** A boundary begins exactly where one of the four can be read, and is as long as that one. */
  lemma BoundaryExactly(s: string, i: nat, n: nat)
    requires i + n <= |s| && n > 0
    ensures BoundaryLength(s, i) == n <==> IsBoundary(s[i..i + n])
  {
    var t := s[i..i + n];
    assert forall k :: 0 <= k < n ==> t[k] == s[i + k];
    if BoundaryLength(s, i) == n {
      assert t == if n == 2 then "\n\n" else if n == 4 then "\r\n\r\n" else if s[i] == '\r' then "\r\n\n" else "\n\r\n";
    }
  }

  /** The events with boundaries behind them: a text that is cut into them. */
  function Bounded(events: seq<string>, boundaries: seq<string>): string
    requires |events| == |boundaries|
  {
    if events == [] then "" else events[0] + boundaries[0] + Bounded(events[1..], boundaries[1..])
  }

  /** Cutting loses nothing: with boundaries put back, the events and the rest are the text again. */
  lemma {:induction false} CutRebuilds(s: string) returns (boundaries: seq<string>)
    ensures |boundaries| == |Cut(s).events| && forall b :: b in boundaries ==> IsBoundary(b)
    ensures Bounded(Cut(s).events, boundaries) + Cut(s).rest == s
    decreases |s|
  {
    hide Cut, BoundaryFrom, BoundaryLength;
    var p := BoundaryFrom(s, 0);
    boundaries := [];
    if p == |s| {
      CutNothing(s);
    } else {
      var n := BoundaryLength(s, p);
      BoundaryExactly(s, p, n);
      CutFirst(s);
      var more := CutRebuilds(s[p + n..]);
      var events := Cut(s[p + n..]).events;
      boundaries := [s[p..p + n]] + more;
      assert ([s[..p]] + events)[1..] == events && boundaries[1..] == more;
      Rejoined(s, p, n, Bounded(events, more), Cut(s[p + n..]).rest);
    }
  }

  lemma Rejoined(s: string, p: nat, n: nat, inner: string, rest: string)
    requires p + n <= |s| && inner + rest == s[p + n..]
    ensures s[..p] + s[p..p + n] + inner + rest == s
  {
    assert s[..p] + s[p..p + n] + (inner + rest) == s[..p] + s[p..p + n] + inner + rest;
  }

  /** A boundary seen in the beginning of a text is the first boundary of the whole text. */
  lemma BoundaryStays(s: string, t: string)
    requires BoundaryFrom(s, 0) < |s|
    ensures BoundaryFrom(s + t, 0) == BoundaryFrom(s, 0)
    ensures BoundaryLength(s + t, BoundaryFrom(s, 0)) == BoundaryLength(s, BoundaryFrom(s, 0))
  {
    var p := BoundaryFrom(s, 0);
    SameBoundary(s, t, p);
    forall k | 0 <= k < p ensures BoundaryLength(s + t, k) == 0 {
      NoEarlierBoundary(s, t, k, p);
    }
  }

  lemma SameBoundary(s: string, t: string, p: nat)
    requires p <= |s| && BoundaryLength(s, p) > 0
    ensures BoundaryLength(s + t, p) == BoundaryLength(s, p)
  {}

  /** Whatever is appended, no boundary can begin before one that is complete. */
  lemma NoEarlierBoundary(s: string, t: string, k: nat, p: nat)
    requires k < p <= |s| && BoundaryLength(s, p) > 0 && BoundaryLength(s, k) == 0
    ensures BoundaryLength(s + t, k) == 0
  {
    var u := s + t;
    assert forall i :: 0 <= i < |s| ==> u[i] == s[i];
  }

  /** Cutting a text in two steps, with what was left pending in between, is cutting it at once. */
  lemma {:induction false} CutAgain(s: string, t: string)
    ensures Cut(s + t) == Behind(Cut(s).events, Cut(Cut(s).rest + t))
    decreases |s|
  {
    hide Cut, Behind;
    var p := BoundaryFrom(s, 0);
    if p == |s| {
      CutNothing(s);
      BehindNothing(Cut(s + t));
    } else {
      var tail := s[p + BoundaryLength(s, p)..];
      CutAgain(tail, t);
      CutFirst(s);
      CutExtended(s, t);
      Assemble([s[..p]], Cut(s), Cut(tail), Cut(Cut(tail).rest + t));
    }
  }

  lemma Assemble(head: seq<string>, whole: Pieces, tail: Pieces, later: Pieces)
    requires whole == Behind(head, tail)
    ensures Behind(head, Behind(tail.events, later)) == Behind(whole.events, later) && whole.rest == tail.rest
  {
    BehindTwice(head, tail.events, later);
  }

  lemma CutNothing(s: string)
    requires BoundaryFrom(s, 0) == |s|
    ensures Cut(s) == Pieces([], s)
  {}

  lemma CutFirst(s: string)
    requires BoundaryFrom(s, 0) < |s|
    ensures var p := BoundaryFrom(s, 0);
      Cut(s) == Behind([s[..p]], Cut(s[p + BoundaryLength(s, p)..]))
  {
    hide BoundaryFrom, BoundaryLength, Behind;
  }

  /** Text appended behind a boundary goes to the part behind the boundary. */
  lemma CutExtended(s: string, t: string)
    requires BoundaryFrom(s, 0) < |s|
    ensures var p := BoundaryFrom(s, 0);
      Cut(s + t) == Behind([s[..p]], Cut(s[p + BoundaryLength(s, p)..] + t))
  {
    hide Cut, BoundaryFrom, BoundaryLength, Behind;
    BoundaryStays(s, t);
    CutFirst(s + t);
    SliceBehind(s, t, BoundaryFrom(s, 0), BoundaryLength(s, BoundaryFrom(s, 0)));
  }

  lemma SliceBehind(s: string, t: string, p: nat, n: nat)
    requires p + n <= |s|
    ensures (s + t)[p + n..] == s[p + n..] + t && (s + t)[..p] == s[..p]
  {}

  lemma BehindNothing(pieces: Pieces)
    ensures Behind([], pieces) == pieces
  {}

  // -------------------------------------------------------------- the reader

  /** Without the early stop: every chunk is cut behind what is pending, and the last one flushes. */
  function ParsedEvents(pending: string, chunks: seq<string>, last: string): seq<string>
    decreases |chunks|
  {
    if chunks == [] then Events(pending + last)
    else
      var pieces := Cut(pending + chunks[0]);
      pieces.events + ParsedEvents(pieces.rest, chunks[1..], last)
  }

  /** However a text is cut into chunks, inside a boundary too, its events come out the same. */
  lemma {:induction false} EventsHoweverCut(pending: string, chunks: seq<string>, last: string)
    ensures ParsedEvents(pending, chunks, last) == Events(pending + Flatten(chunks) + last)
    decreases |chunks|
  {
    if chunks == [] {
      Regroup(pending, [], [], last);
    } else {
      var pieces := Cut(pending + chunks[0]);
      var rest := Flatten(chunks[1..]);
      EventsHoweverCut(pieces.rest, chunks[1..], last);
      Regroup(pieces.rest, chunks[0], rest, last);
      Regroup(pending, chunks[0], rest, last);
      OneChunkMore(pending, chunks, last, pieces, rest + last);
    }
  }

  lemma OneChunkMore(pending: string, chunks: seq<string>, last: string, pieces: Pieces, t: string)
    requires chunks != [] && pieces == Cut(pending + chunks[0])
    requires ParsedEvents(pieces.rest, chunks[1..], last) == Events(pieces.rest + t)
    ensures ParsedEvents(pending, chunks, last) == Events(pending + chunks[0] + t)
  {
    FlushedBehind(pieces.events, Cut(pieces.rest + t));
    CutAgain(pending + chunks[0], t);
  }

  lemma Regroup(a: string, b: string, c: string, d: string)
    ensures a + (b + c) + d == a + b + (c + d) && a + c + d == a + (c + d)
    ensures a + [] + d == a + d
  {}

  lemma FlushedBehind(events: seq<string>, pieces: Pieces)
    ensures Flushed(Behind(events, pieces)) == events + Flushed(pieces)
  {
    if pieces.rest != "" {
      assert events + pieces.events + [pieces.rest] == events + (pieces.events + [pieces.rest]);
    }
  }

  // ------------------------------------------------------------------- usage

  /** The usage in the last event that carries any; `extract` stands for the usage extraction. */
  function LastUsage<U>(events: seq<string>, extract: string -> Option<U>): Option<U> {
    if events == [] then None
    else
      var e := extract(events[|events| - 1]);
      if e.Some? then e else LastUsage(events[..|events| - 1], extract)
  }

  /** The usage known after some more events. */
  function After<U>(usage: Option<U>, events: seq<string>, extract: string -> Option<U>): Option<U> {
    var found := LastUsage(events, extract);
    if found.Some? then found else usage
  }

  lemma {:induction false} LastOfBoth<U>(a: seq<string>, b: seq<string>, extract: string -> Option<U>)
    ensures LastUsage(a + b, extract) == After(LastUsage(a, extract), b, extract)
    decreases |b|
  {
    if b == [] {
      assert a + b == a;
    } else {
      LastOfBoth(a, b[..|b| - 1], extract);
      assert (a + b)[..|a + b| - 1] == a + b[..|b| - 1];
    }
  }

  lemma {:induction false} LastIsCarried<U>(events: seq<string>, extract: string -> Option<U>)
    ensures var u := LastUsage(events, extract);
      && (u.Some? ==> exists e :: e in events && extract(e) == u)
      && (u.None? ==> forall e :: e in events ==> extract(e).None?)
    decreases |events|
  {
    if events != [] {
      LastIsCarried(events[..|events| - 1], extract);
    }
  }

  /** The reader's state and its callbacks. */
  class EventReader<U> {
    const extract: string -> Option<U>
    var pendingEvent: string
    var usage: Option<U>

    constructor (extract: string -> Option<U>)
      ensures this.extract == extract && pendingEvent == "" && usage == None
    {
      this.extract, pendingEvent, usage := extract, "", None;
    }

    method ParseEvent(event: string)
      modifies this`usage
      ensures usage == After(old(usage), [event], extract)
    {
      OneEvent(event, extract);
      var extracted := extract(event);
      if extracted.Some? {
        usage := extracted;
      }
    }

    /** `consumeEventText`: parses every complete event, and what is left if it flushes. */
    method ConsumeEventText(text: string, flush: bool)
      modifies this`pendingEvent, this`usage
      ensures !flush ==>
                var pieces := Cut(old(pendingEvent) + text);
                pendingEvent == pieces.rest && usage == After(old(usage), pieces.events, extract)
      ensures flush ==> usage == After(old(usage), Events(old(pendingEvent) + text), extract) && pendingEvent == ""
    {
      hide Cut, LastUsage, BoundaryFrom;
      pendingEvent := pendingEvent + text;
      ghost var whole := pendingEvent;
      ghost var parsed: seq<string> := [];
      BehindNothing(Cut(whole));
      NothingMore(usage, extract);
      var p := BoundaryFrom(pendingEvent, 0);
      while p < |pendingEvent|
        invariant p == BoundaryFrom(pendingEvent, 0)
        invariant Cut(whole) == Behind(parsed, Cut(pendingEvent))
        invariant usage == After(old(usage), parsed, extract)
        decreases |pendingEvent|
      {
        var n := BoundaryLength(pendingEvent, p);
        ghost var event := pendingEvent[..p];
        CutFirst(pendingEvent);
        BehindTwice(parsed, [event], Cut(pendingEvent[p + n..]));
        ParseEvent(pendingEvent[..p]);
        LastOfBoth(parsed, [event], extract);
        parsed := parsed + [event];
        pendingEvent := pendingEvent[p + n..];
        p := BoundaryFrom(pendingEvent, 0);
      }
      CutNothing(pendingEvent);
      NothingBehind(parsed, pendingEvent, Cut(whole));
      if flush && |pendingEvent| > 0 {
        LastOfBoth(parsed, [pendingEvent], extract);
        ParseEvent(pendingEvent);
        pendingEvent := "";
      }
    }

    /** `transform`: once a usage is known, no more text is looked at. */
    method Transform(chunk: string)
      modifies this`pendingEvent, this`usage
      ensures old(usage).Some? ==> usage == old(usage) && pendingEvent == old(pendingEvent)
      ensures old(usage).None? ==>
                var pieces := Cut(old(pendingEvent) + chunk);
                pendingEvent == pieces.rest && usage == LastUsage(pieces.events, extract)
    {
      if usage.None? {
        ConsumeEventText(chunk, false);
      }
    }

    method Flush(last: string)
      modifies this`pendingEvent, this`usage
      ensures usage ==
        if old(usage).Some? then old(usage) else LastUsage(Events(old(pendingEvent) + last), extract)
    {
      if usage.None? {
        ConsumeEventText(last, true);
      }
    }

    /** A whole stream. */
    method Read(chunks: seq<string>, last: string)
      requires pendingEvent == "" && usage == None
      modifies this`pendingEvent, this`usage
      ensures usage == ReadUsage("", chunks, last, extract)
    {
      for i := 0 to |chunks|
        invariant ReadUsage("", chunks, last, extract)
               == if usage.Some? then usage else ReadUsage(pendingEvent, chunks[i..], last, extract)
      {
        Transform(chunks[i]);
        assert chunks[i..][1..] == chunks[i + 1..];
      }
      Flush(last);
    }
  }

  lemma OneEvent<U>(event: string, extract: string -> Option<U>)
    ensures LastUsage([event], extract) == extract(event)
  {
    assert [event][..0] == [];
  }

  lemma NothingBehind(events: seq<string>, rest: string, pieces: Pieces)
    requires pieces == Behind(events, Pieces([], rest))
    ensures pieces == Pieces(events, rest) && Flushed(pieces) == if rest == "" then events else events + [rest]
  {}

  lemma NothingMore<U>(usage: Option<U>, extract: string -> Option<U>)
    ensures After(usage, [], extract) == usage
  {}

  /** With the early stop: the usage of the first chunk that completes an event carrying some. */
  function ReadUsage<U>(pending: string, chunks: seq<string>, last: string, extract: string -> Option<U>): Option<U>
    decreases |chunks|
  {
    if chunks == [] then LastUsage(Events(pending + last), extract)
    else
      var pieces := Cut(pending + chunks[0]);
      var found := LastUsage(pieces.events, extract);
      if found.Some? then found else ReadUsage(pieces.rest, chunks[1..], last, extract)
  }

  /** No two events carry different usages; in particular at most one event carrying any will do. */
  predicate SameUsage<U(==)>(events: seq<string>, extract: string -> Option<U>) {
    forall d, e :: d in events && e in events && extract(d).Some? && extract(e).Some? ==> extract(d) == extract(e)
  }

  /**
   * The usage found with the early stop does not depend on how the text is cut into chunks exactly when
   * no two of its complete events carry different usages. If moreover the piece left for the flush,
   * with the `last` text the decoder adds there, carries no other usage, it is that of the last event.
   */
  lemma UsageHoweverCut<U>(text: string, last: string, extract: string -> Option<U>)
    ensures (forall a: seq<string>, b: seq<string> :: Flatten(a) == text && Flatten(b) == text ==>
               ReadUsage("", a, last, extract) == ReadUsage("", b, last, extract))
       <==> SameUsage(Cut(text).events, extract)
    ensures SameUsage(Events(text + last), extract) ==>
              forall chunks: seq<string> :: Flatten(chunks) == text ==>
                ReadUsage("", chunks, last, extract) == LastUsage(Events(text + last), extract)
  {
    hide Cut, Events, LastUsage, ReadUsage, FlushUsage;
    if SameUsage(Cut(text).events, extract) {
      forall a: seq<string>, b: seq<string> | Flatten(a) == text && Flatten(b) == text
        ensures ReadUsage("", a, last, extract) == ReadUsage("", b, last, extract)
      {
        CompleteUsageRead(text, a, last, extract);
        CompleteUsageRead(text, b, last, extract);
      }
    } else {
      var a, b := CutEarly(text, last, extract);
    }
    if SameUsage(Events(text + last), extract) {
      forall chunks: seq<string> | Flatten(chunks) == text
        ensures ReadUsage("", chunks, last, extract) == LastUsage(Events(text + last), extract)
      {
        assert "" + text == text;
        SameUsageRead("", chunks, last, extract);
      }
    }
  }

  /** The usage of the complete events, or else of what the flush parses. */
  function FlushUsage<U>(pieces: Pieces, last: string, extract: string -> Option<U>): Option<U> {
    var found := LastUsage(pieces.events, extract);
    if found.Some? then found else LastUsage(Events(pieces.rest + last), extract)
  }

  lemma CompleteUsageRead<U>(text: string, chunks: seq<string>, last: string, extract: string -> Option<U>)
    requires Flatten(chunks) == text && SameUsage(Cut(text).events, extract)
    ensures ReadUsage("", chunks, last, extract) == FlushUsage(Cut(text), last, extract)
  {
    hide ReadUsage, FlushUsage, Cut, SameUsage;
    NothingBefore(text);
    ReadComplete("", chunks, last, extract);
  }

  lemma {:induction false} ReadComplete<U>(pending: string, chunks: seq<string>, last: string, extract: string -> Option<U>)
    requires Cut(pending) == Pieces([], pending)
    requires SameUsage(Cut(pending + Flatten(chunks)).events, extract)
    ensures ReadUsage(pending, chunks, last, extract) == FlushUsage(Cut(pending + Flatten(chunks)), last, extract)
    decreases |chunks|
  {
    hide Cut, Events, LastUsage, SameUsage;
    if chunks == [] {
      NoUsage(extract);
      assert pending + Flatten(chunks) == pending;
    } else {
      var pieces := Cut(pending + chunks[0]);
      var rest := Flatten(chunks[1..]);
      var later := Cut(pieces.rest + rest);
      CutAgain(pending + chunks[0], rest);
      assert pending + Flatten(chunks) == pending + chunks[0] + rest;
      LastOfBoth(pieces.events, later.events, extract);
      SplitUsage(pieces.events, later.events, extract);
      RestIsUncut(pending + chunks[0]);
      ReadComplete(pieces.rest, chunks[1..], last, extract);
    }
  }

  lemma NothingBefore(text: string)
    ensures "" + text == text && Cut("") == Pieces([], "")
  {}

  lemma NoUsage<U>(extract: string -> Option<U>)
    ensures LastUsage([], extract) == None
  {}

  /** What is left behind the last boundary has none. */
  lemma {:induction false} RestIsUncut(s: string)
    ensures Cut(Cut(s).rest) == Pieces([], Cut(s).rest)
    decreases |s|
  {
    hide Cut;
    var p := BoundaryFrom(s, 0);
    if p == |s| {
      CutNothing(s);
    } else {
      CutFirst(s);
      RestIsUncut(s[p + BoundaryLength(s, p)..]);
    }
  }

  lemma EventsBehind(s: string, t: string)
    ensures Events(s + t) == Cut(s).events + Events(Cut(s).rest + t)
  {
    CutAgain(s, t);
    FlushedBehind(Cut(s).events, Cut(Cut(s).rest + t));
  }

  lemma {:induction false} SameUsageRead<U>(pending: string, chunks: seq<string>, last: string, extract: string -> Option<U>)
    requires SameUsage(Events(pending + Flatten(chunks) + last), extract)
    ensures ReadUsage(pending, chunks, last, extract) == LastUsage(Events(pending + Flatten(chunks) + last), extract)
    decreases |chunks|
  {
    hide Cut, Events, LastUsage;
    if chunks == [] {
      Regroup(pending, [], [], last);
    } else {
      var pieces := Cut(pending + chunks[0]);
      var rest := Flatten(chunks[1..]);
      var later := Events(pieces.rest + rest + last);
      Regroup(pieces.rest, chunks[0], rest, last);
      Regroup(pending, chunks[0], rest, last);
      EventsBehind(pending + chunks[0], rest + last);
      LastOfBoth(pieces.events, later, extract);
      SplitUsage(pieces.events, later, extract);
      SameUsageRead(pieces.rest, chunks[1..], last, extract);
    }
  }

  lemma SplitUsage<U>(a: seq<string>, b: seq<string>, extract: string -> Option<U>)
    requires SameUsage(a + b, extract)
    ensures SameUsage(b, extract)
    ensures LastUsage(a, extract).Some? ==> LastUsage(a + b, extract) == LastUsage(a, extract)
  {
    LastIsCarried(a, extract);
    LastIsCarried(a + b, extract);
    assert forall e :: e in b ==> e in a + b;
    assert forall e :: e in a ==> e in a + b;
  }

  /** The beginning of a text up to its `k`-th boundary. */
  function UpTo(s: string, k: nat): string
    requires k <= |Cut(s).events|
    decreases k
  {
    if k == 0 then ""
    else
      var end := BoundaryFrom(s, 0) + BoundaryLength(s, BoundaryFrom(s, 0));
      s[..end] + UpTo(s[end..], k - 1)
  }

  lemma {:induction false} UpToCuts(s: string, k: nat)
    requires k <= |Cut(s).events|
    ensures UpTo(s, k) <= s && Cut(UpTo(s, k)) == Pieces(Cut(s).events[..k], "")
    decreases k
  {
    hide Cut, BoundaryLength, BoundaryFrom;
    if k == 0 {
      CutNothing("");
    } else {
      CutSome(s);
      var p := BoundaryFrom(s, 0);
      var end := p + BoundaryLength(s, p);
      CutFirst(s);
      UpToCuts(s[end..], k - 1);
      FirstPieceCuts(s, UpTo(s[end..], k - 1));
      OneMore(s[..p], Cut(s[end..]), k);
      PrefixBehind(s, end, UpTo(s[end..], k - 1));
      assert UpTo(s, k) == s[..end] + UpTo(s[end..], k - 1);
    }
  }

  lemma CutSome(s: string)
    requires Cut(s).events != []
    ensures BoundaryFrom(s, 0) < |s|
  {}

  lemma OneMore(event: string, pieces: Pieces, k: nat)
    requires 0 < k <= |pieces.events| + 1
    ensures Behind([event], Pieces(pieces.events[..k - 1], "")) == Pieces(Behind([event], pieces).events[..k], "")
  {}

  lemma PrefixBehind(s: string, end: nat, t: string)
    requires end <= |s| && t <= s[end..]
    ensures s[..end] + t <= s
  {}

  /** Whatever follows the first boundary, the first event is the same. */
  lemma FirstPieceCuts(s: string, t: string)
    requires BoundaryFrom(s, 0) < |s|
    ensures var p := BoundaryFrom(s, 0); var end := p + BoundaryLength(s, p);
      Cut(s[..end] + t) == Behind([s[..p]], Cut(t))
  {
    var p := BoundaryFrom(s, 0);
    var head := s[..p + BoundaryLength(s, p)];
    BoundaryKept(s);
    CutExtended(head, t);
    assert head[|head|..] + t == t && head[..p] == s[..p];
  }

  lemma BoundaryKept(s: string)
    requires BoundaryFrom(s, 0) < |s|
    ensures var p := BoundaryFrom(s, 0); var n := BoundaryLength(s, p); var head := s[..p + n];
      BoundaryFrom(head, 0) == p && BoundaryLength(head, p) == n
  {
    var p := BoundaryFrom(s, 0);
    var n := BoundaryLength(s, p);
    LengthWithin(s, p);
    FromWithin(s[..p + n], s[p + n..], p);
    TwoParts(s, p + n);
  }

  lemma TwoParts(s: string, n: nat)
    requires n <= |s|
    ensures s[..n] + s[n..] == s
  {}

  lemma FromWithin(head: string, rest: string, p: nat)
    requires p < |head| && BoundaryLength(head, p) > 0
    ensures BoundaryFrom(head + rest, 0) == BoundaryFrom(head, 0)
  {
    hide BoundaryLength;
    BoundaryStays(head, rest);
  }

  lemma LengthWithin(s: string, p: nat)
    requires p <= |s| && BoundaryLength(s, p) > 0
    ensures BoundaryLength(s[..p + BoundaryLength(s, p)], p) == BoundaryLength(s, p)
  {}

  /** Where two complete events carry different usages, one cut makes the reader stop before the other does. */
  lemma CutEarly<U>(text: string, last: string, extract: string -> Option<U>) returns (a: seq<string>, b: seq<string>)
    requires !SameUsage(Cut(text).events, extract)
    ensures Flatten(a) == text && Flatten(b) == text
    ensures ReadUsage("", a, last, extract) != ReadUsage("", b, last, extract)
  {
    hide Cut, ReadUsage, LastUsage, UpTo, Events;
    var events := Cut(text).events;
    var i := OtherUsage(events, extract);
    UpToCuts(text, i + 1);
    var head := UpTo(text, i + 1);
    var rest := text[|head|..];
    a, b := [text], [head, rest];
    TwoChunks(head, rest);
    assert head + rest == text;
    FirstChunk(a, last, extract);
    FirstChunk(b, last, extract);
    LastOfPrefix(events, i, extract);
    LastIsCarried(events, extract);
  }

  lemma TwoChunks(head: string, rest: string)
    ensures Flatten([head + rest]) == head + rest && Flatten([head, rest]) == head + rest
  {
    assert [head + rest][1..] == [] && [head, rest][1..] == [rest] && [rest][1..] == [];
  }

  lemma FirstChunk<U>(chunks: seq<string>, last: string, extract: string -> Option<U>)
    requires chunks != []
    ensures LastUsage(Cut(chunks[0]).events, extract).Some? ==>
              ReadUsage("", chunks, last, extract) == LastUsage(Cut(chunks[0]).events, extract)
  {
    assert "" + chunks[0] == chunks[0];
  }

  /** An event that carries another usage than the last one, and so is not the last. */
  lemma OtherUsage<U>(events: seq<string>, extract: string -> Option<U>) returns (i: nat)
    requires !SameUsage(events, extract)
    ensures i + 1 < |events| && extract(events[i]).Some? && extract(events[i]) != LastUsage(events, extract)
  {
    LastIsCarried(events, extract);
    var u := LastUsage(events, extract);
    i :| 0 <= i < |events| && extract(events[i]).Some? && extract(events[i]) != u;
  }

  lemma LastOfPrefix<U>(events: seq<string>, i: nat, extract: string -> Option<U>)
    requires i < |events| && extract(events[i]).Some?
    ensures LastUsage(events[..i + 1], extract) == extract(events[i])
  {}
}
