/**
 * Checking and patching the bounded prefix of a prepared body before it is streamed upstream.
 */
module PreparedPreflight {
  import opened Bytes

  const PREFIX_BYTES: nat := 512
  const COMMA: Byte := 0x2c
  /** The bytes of `{"max_output_tokens":`. */
  const OPENING: Bytes := [
    0x7b, 0x22, 0x6d, 0x61, 0x78, 0x5f, 0x6f, 0x75, 0x74, 0x70, 0x75, 0x74, 0x5f, 0x74, 0x6f, 0x6b, 0x65, 0x6e, 0x73,
    0x22, 0x3a]

  /** How a well-formed prepared body begins. */
  function Header(marker: Bytes): Bytes {
    OPENING + marker + [COMMA]
  }

  /** The header's opening, read as characters. */
  lemma OpeningText()
    ensures seq(|OPENING|, i requires 0 <= i < |OPENING| => OPENING[i] as char) == "{\"max_output_tokens\":"
  {}

  datatype ParserState = InPrefix | InMarker | AfterMarker | Done | Invalid

  /** `consumeFirstPropertyByte`: a parser of the header, one byte at a time. */
  class FirstPropertyParser {
    const marker: Bytes
    var state: ParserState
    var prefixOffset: nat
    var markerOffset: nat

    /** The parser is where `consumed` takes it: done after the header, invalid once it left it. */
    ghost predicate Follows(consumed: Bytes)
      reads this
    {
      var header := Header(marker);
      match state
      case InPrefix =>
        prefixOffset < |OPENING| && markerOffset == 0 && consumed == header[..prefixOffset]
      case InMarker =>
        prefixOffset == |OPENING| && markerOffset < |marker| && consumed == header[..|OPENING| + markerOffset]
      case AfterMarker => consumed == OPENING + marker
      case Done => header <= consumed
      case Invalid => !(header <= consumed) && !(consumed <= header)
    }

    constructor (marker: Bytes)
      requires marker != []
      ensures Follows([]) && this.marker == marker && state.InPrefix?
    {
      this.marker := marker;
      state, prefixOffset, markerOffset := InPrefix, 0, 0;
    }

    method Consume(byte: Byte, ghost consumed: Bytes)
      requires Follows(consumed) && marker != []
      modifies this
      ensures Follows(consumed + [byte])
      ensures state.Done? && !old(state.Done?) ==> consumed + [byte] == Header(marker)
    {
      ghost var header := Header(marker);
      match state {
        case InPrefix =>
          ghost var k := prefixOffset;
          OneByteOn(header, k, byte);
          if byte != OPENING[prefixOffset] {
            state := Invalid;
            return;
          }
          prefixOffset := prefixOffset + 1;
          if prefixOffset == |OPENING| {
            state := InMarker;
          }
        case InMarker =>
          OneByteOn(header, |OPENING| + markerOffset, byte);
          if byte != marker[markerOffset] {
            state := Invalid;
            return;
          }
          markerOffset := markerOffset + 1;
          if markerOffset == |marker| {
            state := AfterMarker;
          }
        case AfterMarker =>
          OneByteOn(header, |OPENING| + |marker|, byte);
          state := if byte == COMMA then Done else Invalid;
        case Done =>
        case Invalid =>
          LeftHeader(header, consumed, [byte]);
      }
    }
  }

  lemma OneByteOn(header: Bytes, k: nat, byte: Byte)
    requires k < |header|
    ensures byte == header[k] ==> header[..k] + [byte] == header[..k + 1]
    ensures byte != header[k] ==> !(header <= header[..k] + [byte]) && !(header[..k] + [byte] <= header)
  {
    var s := header[..k] + [byte];
    assert s[k] == byte;
  }

  /** Bytes that left the header never lead back to it. */
  lemma LeftHeader(header: Bytes, consumed: Bytes, more: Bytes)
    requires !(header <= consumed) && !(consumed <= header)
    ensures !(header <= consumed + more) && !(consumed + more <= header)
  {
    var n := if |header| < |consumed| then |header| else |consumed|;
    var k :| 0 <= k < n && header[k] != consumed[k];
    assert (consumed + more)[k] == consumed[k];
  }

  // ------------------------------------------------------------- occurrences

  function Occurrences(s: Bytes, needle: Bytes): set<nat> {
    set i: nat | i <= |s| && OccursAt(s, needle, i)
  }

  /** `countExactOccurrences`. */
  method CountExactOccurrences(s: Bytes, needle: Bytes) returns (count: nat)
    requires needle != []
    ensures count == |Occurrences(s, needle)|
  {
    count := 0;
    var offset := 0;
    ghost var seen: set<nat> := {};
    while offset + |needle| <= |s|
      invariant seen == set i: nat | i < offset && i <= |s| && OccursAt(s, needle, i)
      invariant count == |seen|
    {
      if OccursAt(s, needle, offset) {
        count := count + 1;
        seen := seen + {offset};
      }
      offset := offset + 1;
    }
    assert seen == Occurrences(s, needle);
  }

  /** `replaceExactOccurrence`: the first occurrence, if there is one. */
  method ReplaceExactOccurrence(s: Bytes, needle: Bytes, replacement: Bytes) returns (result: Bytes)
    requires needle != []
    ensures forall i :: Occurrences(s, needle) == {i} ==> result == s[..i] + replacement + s[i + |needle|..]
    ensures Occurrences(s, needle) == {} ==> result == s
  {
    var offset := 0;
    while offset + |needle| <= |s|
      invariant forall i :: i in Occurrences(s, needle) ==> i >= offset
    {
      if OccursAt(s, needle, offset) {
        assert offset in Occurrences(s, needle);
        return s[..offset] + replacement + s[offset + |needle|..];
      }
      offset := offset + 1;
    }
    result := s;
    assert forall i :: Occurrences(s, needle) == {i} ==> i in Occurrences(s, needle);
  }

  // --------------------------------------------------------------- preflight

  /** Where the chunk that holds byte number `n` ends, counting bytes from one. */
  function ChunkEnd(chunks: seq<Bytes>, n: nat): (end: nat)
    requires 0 < n <= |Flatten(chunks)|
    ensures n <= end <= |Flatten(chunks)|
  {
    if n <= |chunks[0]| then |chunks[0]| else |chunks[0]| + ChunkEnd(chunks[1..], n - |chunks[0]|)
  }

  function Min(a: nat, b: nat): nat {
    if a < b then a else b
  }

  /** The bytes looked at: up to the end of the chunk that completes the header, and never more than 512. */
  function Retained(chunks: seq<Bytes>, marker: Bytes): Bytes
    requires Header(marker) <= Flatten(chunks)
  {
    Flatten(chunks)[..Min(PREFIX_BYTES, ChunkEnd(chunks, |Header(marker)|))]
  }

  /** Exactly when a preflight succeeds. */
  predicate IsReady(chunks: seq<Bytes>, marker: Bytes) {
    && Header(marker) <= Flatten(chunks)
    && |Header(marker)| <= PREFIX_BYTES
    && |Occurrences(Retained(chunks, marker), marker)| == 1
  }

  /** After a successful preflight: two queued chunks and the rest of the source. */
  datatype Preflight = NotReady | Ready(queuedPrefix: Bytes, queuedTail: Bytes, unread: seq<Bytes>)

  /** What the replacement body emits when it is read to its end. */
  function Output(r: Preflight): Bytes
    requires r.Ready?
  {
    r.queuedPrefix + r.queuedTail + Flatten(r.unread)
  }

  datatype Fed = Fed(chunkOffset: nat, prefixLength: nat, invalid: bool)

  /** The inner loop: copies bytes of one chunk into the prefix until the header is complete. */
  method FeedChunk(chunk: Bytes, parser: FirstPropertyParser, prefix: array<Byte>, start: nat, ghost before: Bytes)
    returns (fed: Fed)
    requires parser.marker != [] && prefix.Length == PREFIX_BYTES && start <= PREFIX_BYTES
    requires before == prefix[..start] && parser.Follows(before) && !parser.state.Done? && !parser.state.Invalid?
    modifies parser, prefix
    ensures fed.chunkOffset <= |chunk| && fed.prefixLength == start + fed.chunkOffset <= PREFIX_BYTES
    ensures prefix[..fed.prefixLength] == before + chunk[..fed.chunkOffset]
    ensures parser.Follows(prefix[..fed.prefixLength])
    ensures fed.invalid ==>
              parser.state.Invalid? || (fed.prefixLength == PREFIX_BYTES && fed.chunkOffset < |chunk| && !parser.state.Done?)
    ensures !fed.invalid ==> !parser.state.Invalid? && (parser.state.Done? || fed.chunkOffset == |chunk|)
    ensures parser.state.Done? ==> Header(parser.marker) == prefix[..fed.prefixLength] && fed.chunkOffset > 0
  {
    hide FirstPropertyParser.Follows;
    fed := Fed(0, start, false);
    assert before + chunk[..0] == before;
    while fed.chunkOffset < |chunk| && !parser.state.Done?
      invariant fed.chunkOffset <= |chunk| && fed.prefixLength == start + fed.chunkOffset <= PREFIX_BYTES
      invariant prefix[..fed.prefixLength] == before + chunk[..fed.chunkOffset]
      invariant parser.Follows(prefix[..fed.prefixLength]) && !fed.invalid && !parser.state.Invalid?
      invariant parser.state.Done? ==> Header(parser.marker) == prefix[..fed.prefixLength] && fed.chunkOffset > 0
    {
      if fed.prefixLength == PREFIX_BYTES {
        fed := fed.(invalid := true);
        return;
      }
      ghost var consumed := prefix[..fed.prefixLength];
      var byte := chunk[fed.chunkOffset];
      prefix[fed.prefixLength] := byte;
      assert prefix[..fed.prefixLength] == consumed;
      fed := Fed(fed.chunkOffset + 1, fed.prefixLength + 1, false);
      parser.Consume(byte, consumed);
      assert prefix[..fed.prefixLength] == consumed + [byte];
      assert chunk[..fed.chunkOffset] == chunk[..fed.chunkOffset - 1] + [byte];
      if parser.state.Invalid? {
        fed := fed.(invalid := true);
        return;
      }
    }
  }

  /** The parser saw the beginning of `total`: what its state says about the whole. */
  lemma ParserVerdict(parser: FirstPropertyParser, consumed: Bytes, total: Bytes)
    requires parser.Follows(consumed) && parser.marker != [] && consumed <= total && !parser.state.Done?
    ensures parser.state.Invalid? ==> !(Header(parser.marker) <= total)
    ensures !parser.state.Invalid? ==> consumed < Header(parser.marker)
  {
    var header := Header(parser.marker);
    if parser.state.Invalid? {
      LeftHeader(header, consumed, total[|consumed|..]);
      assert consumed + total[|consumed|..] == total;
    }
    assert header[..|OPENING| + |parser.marker|] == OPENING + parser.marker;
  }

  lemma {:induction false} ChunkEndIs(chunks: seq<Bytes>, k: nat, n: nat)
    requires k < |chunks| && |Flatten(chunks[..k])| < n <= |Flatten(chunks[..k + 1])|
    ensures n <= |Flatten(chunks)| && ChunkEnd(chunks, n) == |Flatten(chunks[..k + 1])|
  {
    assert chunks[..k + 1] + chunks[k + 1..] == chunks;
    FlattenConcat(chunks[..k + 1], chunks[k + 1..]);
    assert chunks[..k + 1][0] == chunks[0];
    if k == 0 {
      assert chunks[..1][1..] == [];
    } else {
      assert chunks[..k][1..] == chunks[1..][..k - 1];
      assert chunks[..k + 1][1..] == chunks[1..][..k];
      assert chunks[..k][0] == chunks[0];
      ChunkEndIs(chunks[1..], k - 1, n - |chunks[0]|);
    }
  }

  /** The chunks up to `k`, cut inside the last one. */
  lemma FlattenCut(chunks: seq<Bytes>, k: nat, offset: nat)
    requires k < |chunks| && offset <= |chunks[k]|
    ensures Flatten(chunks) == Flatten(chunks[..k]) + chunks[k][..offset] + chunks[k][offset..] + Flatten(chunks[k + 1..])
    ensures Flatten(chunks[..k + 1]) == Flatten(chunks[..k]) + chunks[k]
  {
    assert chunks == chunks[..k + 1] + chunks[k + 1..] && chunks[..k + 1] == chunks[..k] + [chunks[k]];
    FlattenConcat(chunks[..k + 1], chunks[k + 1..]);
    FlattenAppend(chunks[..k], chunks[k]);
    assert chunks[k][..offset] + chunks[k][offset..] == chunks[k];
    assert Flatten(chunks[..k]) + chunks[k][..offset] + chunks[k][offset..]
        == Flatten(chunks[..k]) + (chunks[k][..offset] + chunks[k][offset..]);
  }

  /** The header is complete: retain what is left of its chunk, check it, and cut the output. */
  method FinishPreflight(
    chunks: seq<Bytes>, k: nat, offset: nat, marker: Bytes, replacement: Bytes, prefix: array<Byte>, headerLength: nat)
    returns (r: Preflight)
    requires marker != [] && k < |chunks| && 0 < offset <= |chunks[k]|
    requires prefix.Length == PREFIX_BYTES && headerLength <= PREFIX_BYTES && headerLength == |Flatten(chunks[..k])| + offset
    requires prefix[..headerLength] == Header(marker) == Flatten(chunks[..k]) + chunks[k][..offset]
    modifies prefix
    ensures r.Ready? <==> IsReady(chunks, marker)
    ensures r.Ready? ==> Output(r) == OPENING + replacement + Flatten(chunks)[|OPENING| + |marker|..]
  {
    hide Occurrences, ChunkEnd, Header;
    var chunk := chunks[k];
    var retained := Min(|chunk| - offset, PREFIX_BYTES - headerLength);
    var retainedPrefix := Retain(prefix, headerLength, chunk, offset, retained);
    RetainedIs(chunks, k, offset, marker, retained);
    var count := CountExactOccurrences(retainedPrefix, marker);
    if count != 1 {
      return NotReady;
    }
    MarkerFollowsOpening(retainedPrefix, marker);
    var transformed := ReplaceExactOccurrence(retainedPrefix, marker, replacement);
    r := Ready(transformed, chunk[offset + retained..], chunks[k + 1..]);
    OutputIs(chunks, k, offset + retained, retainedPrefix, marker, replacement);
  }

  /** Copies some bytes of a chunk behind the header. */
  method Retain(prefix: array<Byte>, length: nat, chunk: Bytes, offset: nat, retained: nat) returns (r: Bytes)
    requires offset + retained <= |chunk| && length + retained <= prefix.Length
    modifies prefix
    ensures r == old(prefix[..length]) + chunk[offset..offset + retained]
  {
    forall i | 0 <= i < retained {
      prefix[length + i] := chunk[offset + i];
    }
    r := prefix[..length + retained];
  }

  lemma RetainedIs(chunks: seq<Bytes>, k: nat, offset: nat, marker: Bytes, retained: nat)
    requires k < |chunks| && 0 < offset <= |chunks[k]| && offset + retained <= |chunks[k]|
    requires Header(marker) == Flatten(chunks[..k]) + chunks[k][..offset] && |Header(marker)| <= PREFIX_BYTES
    requires retained == Min(|chunks[k]| - offset, PREFIX_BYTES - |Header(marker)|)
    ensures Header(marker) <= Flatten(chunks)
    ensures Retained(chunks, marker) == Header(marker) + chunks[k][offset..offset + retained]
    ensures Retained(chunks, marker) == Flatten(chunks[..k]) + chunks[k][..offset + retained]
  {
    hide Occurrences, ChunkEnd, Header;
    var before, chunk := Flatten(chunks[..k]), chunks[k];
    var cut := offset + retained;
    FlattenCut(chunks, k, cut);
    ChunkEndIs(chunks, k, |Header(marker)|);
    CutTwice(before, chunk, offset, cut);
    PrefixOf(before + chunk[..cut], chunk[cut..], Flatten(chunks[k + 1..]));
    PrefixOf(before + chunk[..offset], chunk[offset..cut], chunk[cut..] + Flatten(chunks[k + 1..]));
  }

  lemma CutTwice(before: Bytes, chunk: Bytes, offset: nat, cut: nat)
    requires offset <= cut <= |chunk|
    ensures before + chunk[..cut] == before + chunk[..offset] + chunk[offset..cut]
  {}

  lemma PrefixOf(known: Bytes, more: Bytes, rest: Bytes)
    ensures known <= known + more + rest
    ensures (known + more + rest)[..|known|] == known && known + more + rest == known + (more + rest)
  {}

  lemma OutputIs(chunks: seq<Bytes>, k: nat, cut: nat, retained: Bytes, marker: Bytes, replacement: Bytes)
    requires k < |chunks| && cut <= |chunks[k]|
    requires retained == Flatten(chunks[..k]) + chunks[k][..cut] && Header(marker) <= retained
    ensures Header(marker) <= Flatten(chunks)
    ensures retained[..|OPENING|] + replacement + retained[|OPENING| + |marker|..] + chunks[k][cut..] + Flatten(chunks[k + 1..])
         == OPENING + replacement + Flatten(chunks)[|OPENING| + |marker|..]
  {
    FlattenCut(chunks, k, cut);
    var rest := chunks[k][cut..] + Flatten(chunks[k + 1..]);
    assert Flatten(chunks) == retained + rest;
    var n := |OPENING| + |marker|;
    assert (retained + rest)[n..] == retained[n..] + rest;
    assert retained[..|OPENING|] == Header(marker)[..|OPENING|] == OPENING;
  }

  /** A single occurrence behind the header can only be the header's own. */
  lemma MarkerFollowsOpening(s: Bytes, marker: Bytes)
    requires Header(marker) <= s && |Occurrences(s, marker)| == 1
    ensures Occurrences(s, marker) == {|OPENING|}
  {
    var own := |OPENING|;
    assert s[own..own + |marker|] == Header(marker)[own..own + |marker|] == marker;
    assert own in Occurrences(s, marker);
    assert |Occurrences(s, marker) - {own}| == 0;
    assert Occurrences(s, marker) == {own} + (Occurrences(s, marker) - {own});
  }

  /**
   * `preflightPreparedOutput` over a source that yields these chunks. Whenever it is ready, the stream
   * it returns is the source with only the first property's marker replaced.
   */
  method PreflightPreparedOutput(chunks: seq<Bytes>, marker: Bytes, replacement: Bytes) returns (r: Preflight)
    requires marker != []
    ensures r.Ready? <==> IsReady(chunks, marker)
    ensures r.Ready? ==> Output(r) == OPENING + replacement + Flatten(chunks)[|OPENING| + |marker|..]
  {
    hide FirstPropertyParser.Follows, Occurrences, ChunkEnd;
    var parser := new FirstPropertyParser(marker);
    var prefix := new Byte[PREFIX_BYTES](_ => 0);
    var prefixLength, k := 0, 0;
    assert prefix[..0] == [];
    while k < |chunks|
      invariant k <= |chunks| && prefixLength < PREFIX_BYTES && prefix[..prefixLength] == Flatten(chunks[..k])
      invariant parser.Follows(prefix[..prefixLength]) && !parser.state.Done? && !parser.state.Invalid?
    {
      ghost var before := prefix[..prefixLength];
      var fed := FeedChunk(chunks[k], parser, prefix, prefixLength, before);
      prefixLength := fed.prefixLength;
      FlattenCut(chunks, k, fed.chunkOffset);
      assert prefix[..prefixLength] <= Flatten(chunks);
      if parser.state.Done? {
        r := FinishPreflight(chunks, k, fed.chunkOffset, marker, replacement, prefix, prefixLength);
        return;
      }
      ParserVerdict(parser, prefix[..prefixLength], Flatten(chunks));
      if fed.invalid || prefixLength == PREFIX_BYTES {
        return NotReady;
      }
      assert chunks[k][..fed.chunkOffset] == chunks[k];
      k := k + 1;
    }
    assert chunks[..k] == chunks;
    ParserVerdict(parser, prefix[..prefixLength], Flatten(chunks));
    r := NotReady;
  }

  // ------------------------------------------------- dependence on chunking

  function FirstBytes(total: Bytes): Bytes {
    if |total| <= 512 then total else total[..512]
  }

  /** Every cut of the body succeeds exactly if the header fits and its marker is the only one in the first 512 bytes. */
  lemma ReadyHoweverCut(total: Bytes, marker: Bytes)
    requires marker != []
    ensures (forall chunks: seq<Bytes> :: Flatten(chunks) == total ==> IsReady(chunks, marker))
       <==> Header(marker) <= total && |Header(marker)| <= 512 && |Occurrences(FirstBytes(total), marker)| == 1
  {
    InOnePiece(total, marker);
    if Header(marker) <= total && |Header(marker)| <= PREFIX_BYTES && |Occurrences(FirstBytes(total), marker)| == 1 {
      forall chunks: seq<Bytes> | Flatten(chunks) == total ensures IsReady(chunks, marker) {
        HeaderWithin(chunks, marker);
        OnlyOwnOccurrence(Retained(chunks, marker), FirstBytes(total), marker);
      }
    }
  }

  /** No cut of the body succeeds if it does not begin with a header that fits and holds its marker once. */
  lemma NeverReady(total: Bytes, marker: Bytes)
    requires marker != []
    requires !(Header(marker) <= total) || |Header(marker)| > 512 || |Occurrences(Header(marker), marker)| != 1
    ensures forall chunks: seq<Bytes> :: Flatten(chunks) == total ==> !IsReady(chunks, marker)
  {
    forall chunks: seq<Bytes> | Flatten(chunks) == total && IsReady(chunks, marker) ensures false {
      HeaderWithin(chunks, marker);
      OnlyOwnOccurrence(Header(marker), Retained(chunks, marker), marker);
    }
  }

  /**
   * The exact condition under which readiness does not depend on how the body is cut: either no cut can
   * succeed, because the body does not begin with a header that fits and holds its marker once, or
   * every cut does, because that marker is the only one in the first 512 bytes.
   */
  lemma ReadinessIgnoresTheCut(total: Bytes, marker: Bytes)
    requires marker != []
    ensures (forall a: seq<Bytes>, b: seq<Bytes> :: Flatten(a) == total && Flatten(b) == total ==>
               (IsReady(a, marker) <==> IsReady(b, marker)))
       <==> (|| !(Header(marker) <= total) || |Header(marker)| > 512
             || |Occurrences(Header(marker), marker)| != 1
             || |Occurrences(FirstBytes(total), marker)| == 1)
  {
    hide IsReady, Occurrences;
    if !(Header(marker) <= total) || |Header(marker)| > PREFIX_BYTES || |Occurrences(Header(marker), marker)| != 1 {
      NeverReady(total, marker);
    } else {
      ReadyHoweverCut(total, marker);
      InOnePiece(total, marker);
      HeaderAlone(total, marker);
    }
  }

  /** The header as a chunk of its own: nothing behind it is looked at. */
  lemma HeaderAlone(total: Bytes, marker: Bytes)
    requires marker != [] && Header(marker) <= total && |Header(marker)| <= PREFIX_BYTES
    requires |Occurrences(Header(marker), marker)| == 1
    ensures var cut := [Header(marker), total[|Header(marker)|..]];
      Flatten(cut) == total && IsReady(cut, marker)
  {
    var header := Header(marker);
    var rest := total[|header|..];
    assert [header, rest][1..] == [rest];
    InOnePiece(rest, marker);
    assert header + rest == total;
    assert Retained([header, rest], marker) == header;
  }

  lemma InOnePiece(total: Bytes, marker: Bytes)
    requires marker != []
    ensures Flatten([total]) == total
    ensures IsReady([total], marker)
       <==> Header(marker) <= total && |Header(marker)| <= PREFIX_BYTES && |Occurrences(FirstBytes(total), marker)| == 1
  {
    assert [total][1..] == [];
  }

  lemma HeaderWithin(chunks: seq<Bytes>, marker: Bytes)
    requires Header(marker) <= Flatten(chunks) && |Header(marker)| <= PREFIX_BYTES
    ensures Header(marker) <= Retained(chunks, marker) <= FirstBytes(Flatten(chunks))
  {}

  lemma OnlyOwnOccurrence(s: Bytes, longer: Bytes, marker: Bytes)
    requires Header(marker) <= s <= longer && |Occurrences(longer, marker)| == 1
    ensures |Occurrences(s, marker)| == 1
  {
    MarkerFollowsOpening(longer, marker);
    var own := |OPENING|;
    assert s[own..own + |marker|] == Header(marker)[own..own + |marker|] == marker;
    forall i | i in Occurrences(s, marker) ensures i in Occurrences(longer, marker) {
      assert longer[i..i + |marker|] == s[i..i + |marker|];
    }
    assert Occurrences(s, marker) == {own};
  }

  /** It does depend on the cut otherwise: a second marker hides in a later chunk and shows in the same one. */
  lemma SecondMarkerHides(marker: Bytes)
    requires marker != [] && |Occurrences(Header(marker), marker)| == 1 && |Header(marker)| + |marker| <= PREFIX_BYTES
    ensures Flatten([Header(marker), marker]) == Flatten([Header(marker) + marker])
    ensures IsReady([Header(marker), marker], marker) && !IsReady([Header(marker) + marker], marker)
  {
    var header := Header(marker);
    var both := header + marker;
    HeaderAlone(both, marker);
    assert both[|header|..] == marker;
    InOnePiece(both, marker);
    assert FirstBytes(both) == both;
    assert both[|header|..|header| + |marker|] == marker;
    assert |header| in Occurrences(both, marker);
    if |Occurrences(both, marker)| == 1 {
      MarkerFollowsOpening(both, marker);
    }
  }

  /** The marker `"$"` is one for which the two cuts differ. */
  lemma ReadinessDependsOnTheCut()
    ensures exists body: seq<Bytes>, same: seq<Bytes>, marker: Bytes ::
              Flatten(body) == Flatten(same) && IsReady(body, marker) && !IsReady(same, marker)
  {
    var marker: Bytes := [0x22, 0x24, 0x22];
    var header := Header(marker);
    var own := |OPENING|;
    assert header[own..own + 3] == marker;
    forall i | i in Occurrences(header, marker) ensures i == own {
      assert header[i..i + 3][1] == header[i + 1];
    }
    assert Occurrences(header, marker) == {own};
    SecondMarkerHides(marker);
  }
}
