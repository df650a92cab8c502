/**
 * A bounded window over the most recent bytes of a stream, kept in a ring.
 */
module RingTail {
  import opened Bytes

  /** The last bytes of a text, as many as fit. */
  function Tail(s: Bytes, capacity: nat): Bytes {
    if |s| <= capacity then s else s[|s| - capacity..]
  }

  /** The slot `k` places behind slot `start`. */
  function Slot(start: nat, k: nat, capacity: nat): nat
    requires start <= capacity && k <= capacity
  {
    if start + k < capacity then start + k else start + k - capacity
  }

  /** The ring holds the tail of `s`, starting at the slot to be written next once it is full. */
  predicate Ring(ring: Bytes, writeIndex: nat, s: Bytes) {
    var capacity := |ring|;
    && (capacity == 0 ==> writeIndex == 0) && (capacity > 0 ==> writeIndex < capacity)
    && (|s| < capacity ==> writeIndex == |s| && forall k :: 0 <= k < |s| ==> ring[k] == s[k])
    && (|s| >= capacity ==>
          forall k :: 0 <= k < capacity ==> ring[Slot(writeIndex, k, capacity)] == s[|s| - capacity + k])
  }

  lemma RingOverwritten(ring: Bytes, next: Bytes, writeIndex: nat, s: Bytes, chunk: Bytes)
    requires Ring(ring, writeIndex, s) && 0 < |chunk| < |ring| == |next|
    requires forall j :: 0 <= j < |chunk| ==> next[Slot(writeIndex, j, |ring|)] == chunk[j]
    requires forall j :: |chunk| <= j < |ring| ==> next[Slot(writeIndex, j, |ring|)] == ring[Slot(writeIndex, j, |ring|)]
    ensures Ring(next, Slot(writeIndex, |chunk|, |ring|), s + chunk)
  {
    var capacity, len, after := |ring|, |chunk|, Slot(writeIndex, |chunk|, |ring|);
    if |s| + len < capacity {
      forall k | 0 <= k < |s| + len ensures next[k] == (s + chunk)[k] {
        if k < |s| {
          assert k == Slot(writeIndex, capacity - |s| + k, capacity);
        } else {
          assert k == Slot(writeIndex, k - |s|, capacity);
        }
      }
    } else {
      forall k | 0 <= k < capacity
        ensures next[Slot(after, k, capacity)] == (s + chunk)[|s| + len - capacity + k]
      {
        if k < capacity - len {
          assert Slot(after, k, capacity) == Slot(writeIndex, len + k, capacity);
        } else {
          assert Slot(after, k, capacity) == Slot(writeIndex, len + k - capacity, capacity);
        }
      }
    }
  }

  lemma RingRefilled(ring: Bytes, s: Bytes, chunk: Bytes)
    requires |ring| <= |chunk| && ring == chunk[|chunk| - |ring|..]
    ensures Ring(ring, 0, s + chunk)
  {}

  lemma NextSlot(start: nat, len: nat, capacity: nat)
    requires start < capacity && len < capacity
    ensures start + len <= capacity ==> (start + len) % capacity == Slot(start, len, capacity)
  {}

  class RingTailBuffer {
    const capacity: nat
    const buffer: array<Byte>
    var writeIndex: nat
    var totalBytes: nat
    /** Everything ever written. */
    ghost var written: Bytes

    ghost predicate Valid()
      reads this, buffer
    {
      buffer.Length == capacity && totalBytes == |written| && Ring(buffer[..], writeIndex, written)
    }

    constructor (capacity: nat)
      ensures Valid() && this.capacity == capacity && written == [] && fresh(buffer)
    {
      this.capacity := capacity;
      buffer := new Byte[capacity](_ => 0);
      writeIndex, totalBytes, written := 0, 0, [];
    }

    method Write(chunk: Bytes)
      requires Valid()
      modifies this, buffer
      ensures Valid() && written == old(written) + chunk
    {
      var len := |chunk|;
      if len == 0 {
        assert written + chunk == written;
        return;
      }
      totalBytes := totalBytes + len;
      written := written + chunk;
      if len >= capacity {
        Refill(chunk);
        RingRefilled(buffer[..], old(written), chunk);
        writeIndex := 0;
        return;
      }
      hide Ring;
      ghost var before, start := buffer[..], writeIndex;
      CopyAround(chunk);
      RingOverwritten(before, buffer[..], start, old(written), chunk);
      var firstPart := if len < capacity - writeIndex then len else capacity - writeIndex;
      NextSlot(writeIndex, len, capacity);
      writeIndex := if len > firstPart then len - firstPart else (writeIndex + len) % capacity;
    }

    method Refill(chunk: Bytes)
      requires buffer.Length == capacity <= |chunk|
      modifies buffer
      ensures buffer[..] == chunk[|chunk| - capacity..]
    {
      forall i | 0 <= i < capacity {
        buffer[i] := chunk[|chunk| - capacity + i];
      }
    }

    /** The two copies of a chunk shorter than the ring: up to the end of the ring, and on from its start. */
    method CopyAround(chunk: Bytes)
      requires buffer.Length == capacity && writeIndex < capacity && |chunk| < capacity
      modifies buffer
      ensures forall j :: 0 <= j < |chunk| ==> buffer[Slot(writeIndex, j, capacity)] == chunk[j]
      ensures forall j :: |chunk| <= j < capacity ==>
                buffer[Slot(writeIndex, j, capacity)] == old(buffer[Slot(writeIndex, j, capacity)])
    {
      var len := |chunk|;
      var firstPart := if len < capacity - writeIndex then len else capacity - writeIndex;
      forall i | 0 <= i < firstPart {
        buffer[writeIndex + i] := chunk[i];
      }
      forall i | 0 <= i < len - firstPart {
        buffer[i] := chunk[firstPart + i];
      }
    }

    method GetTail() returns (tail: Bytes)
      requires Valid()
      ensures tail == Tail(written, capacity)
    {
      if totalBytes == 0 {
        return [];
      }
      if totalBytes < capacity {
        return buffer[..totalBytes];
      }
      tail := buffer[writeIndex..] + buffer[..writeIndex];
      assert forall k :: 0 <= k < capacity ==> tail[k] == buffer[Slot(writeIndex, k, capacity)];
    }
  }

  /** After any writes of any lengths the tail is the end of everything written. */
  method TailOf(chunks: seq<Bytes>, capacity: nat) returns (tail: Bytes)
    ensures tail == Tail(Flatten(chunks), capacity)
  {
    var ring := new RingTailBuffer(capacity);
    for i := 0 to |chunks|
      invariant ring.Valid() && ring.capacity == capacity && fresh(ring.buffer) && ring.written == Flatten(chunks[..i])
    {
      ring.Write(chunks[i]);
      FlattenAppend(chunks[..i], chunks[i]);
      assert chunks[..i] + [chunks[i]] == chunks[..i + 1];
    }
    assert chunks[..|chunks|] == chunks;
    tail := ring.GetTail();
  }
}
