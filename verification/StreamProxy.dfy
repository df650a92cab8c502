/**
 * The books of a streamed answer: callbacks of the body, the client and the renewal timer race, and
 * the first that ends the stream closes the books, once.
 */
module StreamProxy {
  import opened Wrappers
  import opened L = QuotaLedger
  import opened QuotaStub

  /** A usage object found in an event; its total may be missing. */
  datatype Usage = Usage(totalTokens: Option<int>)

  class StreamRun {
    const stub: Stub
    const generation: nat
    const ttlMs: int
    var usage: Option<Usage>
    var finalized: bool
    var clientDisconnected: bool
    var renewalFailed: bool
    var renewalInFlight: bool
    /** The stream ended by itself with this total to settle. */
    var settling: Option<int>

    ghost predicate Valid()
      reads this, stub, stub.quota
    {
      && stub.Valid() && stub.entry.Some? && SentRelease !in stub.sent
      && (settling.Some? ==> finalized) && (renewalFailed || clientDisconnected ==> finalized)
      && (if finalized then Kept() && (stub.lossless ==> Closed()) else Open())
    }

    ghost predicate Open()
      reads this, stub
      requires stub.entry.Some?
    {
      && stub.entry.value.state.Reserved? && !stub.entry.value.results.settle && !stub.entry.value.results.markUncertain
      && stub.held <= {generation}
    }

    /** The tokens stay on the books, as an amount only if the stream ended by itself with that total. */
    ghost predicate Kept()
      reads this, stub
      requires stub.entry.Some?
    {
      var e := stub.entry.value;
      || e.state.Reserved?
      || e.state.Uncertain?
      || (e.state.Settled? && settling.Some? && e.actualTokens.Some? && settling.value == e.actualTokens.value)
    }

    /** The books are closed: no lease, and settled exactly when there was a safe total to settle. */
    ghost predicate Closed()
      reads this, stub
      requires stub.entry.Some?
    {
      && stub.held == {} && !stub.entry.value.state.Reserved?
      && (stub.entry.value.state.Settled? <==> settling.Some? && IsSafeNat(settling.value))
    }

    constructor (stub: Stub, generation: nat, ttlMs: int)
      requires stub.Valid() && stub.entry.Some? && stub.held <= {generation} && SentRelease !in stub.sent
      requires var e := stub.entry.value; e.state.Reserved? && !e.results.settle && !e.results.markUncertain
      ensures Valid() && this.stub == stub && !finalized
    {
      this.stub, this.generation, this.ttlMs := stub, generation, ttlMs;
      usage, settling := None, None;
      finalized, clientDisconnected, renewalFailed, renewalInFlight := false, false, false, false;
    }

    /** `transform`: the events of a chunk may carry the usage, looked for until one is found. */
    method Transform(found: Option<Usage>)
      requires Valid()
      modifies this`usage
      ensures Valid() && usage == (if old(usage).Some? then old(usage) else found)
    {
      if usage.None? {
        usage := found;
      }
    }

    /** `flush`: the upstream body ended. */
    method Flush(found: Option<Usage>)
      requires Valid()
      modifies this`usage, this`finalized, this`settling, stub, stub.quota
      ensures Valid() && finalized && usage == (if old(usage).Some? then old(usage) else found)
      ensures !old(finalized) ==> settling == (if usage.Some? then usage.value.totalTokens else None)
      ensures if old(finalized) then stub.sent == old(stub.sent) else Closing(old(stub.sent), stub.sent)
    {
      hide Stub.Valid;
      Transform(found);
      Finalize();
    }

    /** `cancel`: the client went away. */
    method Cancel()
      requires Valid()
      modifies this`clientDisconnected, this`finalized, this`settling, stub, stub.quota
      ensures Valid() && finalized && settling == old(settling) && clientDisconnected
      ensures stub.sent == old(stub.sent) + if old(finalized) then [] else [SentUncertain, SentReleaseLease]
    {
      hide Stub.Valid;
      var already := finalized;
      clientDisconnected := true;
      if !already {
        Finalize();
      }
    }

    /** The renewal timer fires: one renewal at a time, none after the end; its answer comes back later. */
    method StartRenewal() returns (renewed: bool, ghost nowMs: int)
      requires Valid()
      modifies this`renewalInFlight, stub, stub.quota
      ensures Valid() && (renewalInFlight <==> old(renewalInFlight) || !finalized)
      ensures if finalized || old(renewalInFlight) then renewed && stub.sent == old(stub.sent)
              else
                && stub.sent == old(stub.sent) + [SentRenewLease]
                && (renewed ==> Lease(stub.id, generation, nowMs + ttlMs) in stub.quota.State().leases)
    {
      hide Stub.Valid;
      renewed, nowMs := true, 0;
      if finalized || renewalInFlight {
        return;
      }
      renewalInFlight := true;
      renewed, nowMs := stub.RenewLease(generation, ttlMs);
    }

    /** The renewal's answer arrives, possibly after the stream ended. */
    method EndRenewal(renewed: bool)
      requires Valid()
      modifies this`renewalInFlight, this`renewalFailed, this`finalized, this`settling, stub, stub.quota
      ensures Valid() && finalized == (old(finalized) || !renewed) && settling == old(settling) && !renewalInFlight
      ensures stub.sent == old(stub.sent) + if renewed || old(finalized) then [] else [SentUncertain, SentReleaseLease]
    {
      hide Stub.Valid;
      if !renewed && !finalized && !renewalFailed {
        renewalFailed := true;
        Finalize();
      }
      renewalInFlight := false;
    }

    /** `finalize`: the first call closes the books, the others do nothing. */
    method Finalize()
      requires stub.Valid() && stub.entry.Some? && SentRelease !in stub.sent && (settling.Some? ==> finalized)
      requires finalized ==> Kept() && (stub.lossless ==> Closed())
      requires !finalized ==> Open()
      modifies this`finalized, this`settling, stub, stub.quota
      ensures Valid() && finalized
      ensures old(finalized) ==> stub.sent == old(stub.sent) && settling == old(settling)
      ensures !old(finalized) ==>
                settling == if renewalFailed || clientDisconnected || usage.None? then None else usage.value.totalTokens
      ensures !old(finalized) ==>
                if renewalFailed || clientDisconnected then stub.sent == old(stub.sent) + [SentUncertain, SentReleaseLease]
                else Closing(old(stub.sent), stub.sent)
    {
      hide Stub.Valid;
      if finalized {
        return;
      }
      finalized := true;
      if renewalFailed || clientDisconnected {
        FinalizeUncertain();
        return;
      }
      settling := if usage.Some? then usage.value.totalTokens else None;
      var booked := BookUsage();
      if booked {
        booked := stub.ReleaseLease(generation);
      }
      if !booked {
        FinalizeUncertain();
      }
    }

    /** The calls that end a stream by itself: the booking, the lease, and the uncertain ending if one of them failed. */
    ghost predicate Closing(before: seq<Rpc>, now: seq<Rpc>)
      reads this, stub
    {
      var booking := if settling.Some? then SentSettle(settling.value) else SentUncertain;
      || now == before + [booking, SentReleaseLease]
      || (!stub.lossless && now == before + [booking, SentReleaseLease, SentUncertain, SentReleaseLease])
      || ((!stub.lossless || (settling.Some? && !IsSafeNat(settling.value)))
          && now == before + [booking, SentUncertain, SentReleaseLease])
    }

    /** Settles the total, or marks the request uncertain when there is none. */
    method BookUsage() returns (booked: bool)
      requires stub.Valid() && stub.entry.Some? && SentRelease !in stub.sent && Open()
      modifies stub, stub.quota
      ensures stub.Valid() && stub.entry.Some? && SentRelease !in stub.sent && Kept() && stub.held <= old(stub.held)
      ensures stub.lossless ==> old(stub.lossless)
      ensures stub.sent == old(stub.sent) + [if settling.Some? then SentSettle(settling.value) else SentUncertain]
      ensures booked ==>
                if settling.Some? then IsSafeNat(settling.value) && stub.entry.value.state.Settled?
                else stub.entry.value.state.Uncertain?
      ensures stub.lossless && !booked ==> settling.Some? && !IsSafeNat(settling.value) && stub.entry == old(stub.entry)
    {
      hide Stub.Valid;
      if settling.Some? {
        booked := stub.Settle(settling.value);
      } else {
        booked := stub.Mark(SentUncertain, ToUncertain);
      }
    }

    /** `finalizeUncertain`: mark and give the lease back, each on its own. */
    method FinalizeUncertain()
      requires stub.Valid() && stub.entry.Some? && SentRelease !in stub.sent && Kept() && stub.held <= {generation}
      requires stub.lossless ==> Open() && !(settling.Some? && IsSafeNat(settling.value))
      modifies stub, stub.quota
      ensures stub.Valid() && stub.entry.Some? && SentRelease !in stub.sent && Kept()
      ensures stub.lossless ==> Closed()
      ensures stub.sent == old(stub.sent) + [SentUncertain, SentReleaseLease] && (stub.lossless ==> old(stub.lossless))
    {
      hide Stub.Valid;
      var _ := stub.Mark(SentUncertain, ToUncertain);
      var _ := stub.ReleaseLease(generation);
    }
  }
}
