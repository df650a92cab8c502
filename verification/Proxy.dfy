/**
 * The gateway's request driver: reserve, acquire, one upstream call, then settle, mark or release.
 *
 * The driver runs against a real `QuotaController` that goes on serving others, and every quota call
 * may fail or lose its answer. HandleProxy states what holds on every such run.
 */
module Proxy {
  import opened Wrappers
  import opened L = QuotaLedger
  import opened LedgerRuns
  import opened Controller
  import opened QuotaStub
  import opened RequestView

  datatype ReserveOutcome = ResolvedReserve(result: ReserveResult) | UnknownReserve

  datatype Request = Request(
    prepared: bool, stream: bool, tokens: int, upperBound: int, key: ParsedKey, client: Option<string>,
    limit: int, ttlMs: int)

  /** The body of a non-stream answer: not JSON text, the text `null`, other JSON without a numeric total, or with one. */
  datatype Body = Unreadable | NullJson | NoTotal | Total(totalTokens: int)
  /** What became of the one invocation of the transport. */
  datatype Upstream = TransportFailed | Answered(ok: bool, body: Body)
  /**
   * An answer `handleCompletedUpstream` throws on before it has booked anything: reading a field of
   * `null`, or a total that `settle` refuses.
   */
  predicate Strands(upstream: Option<Upstream>) {
    upstream.Some? && upstream.value.Answered? && upstream.value.ok
    && (upstream.value.body.NullJson?
        || (upstream.value.body.Total? && !IsSafeNat(upstream.value.body.totalTokens)))
  }

  /** Where `callUpstream`, or the preparation of its arguments, stopped short of the transport. */
  datatype Call = BeforeAttempt | ConfigError | AfterAttempt | Invoked(upstream: Upstream)

  datatype Preflight = Ready | Invalid | PreflightThrew

  datatype ReservationState = NoReservation | Held | Unknown
  /** How a part of the driver is left: with a response, by an exception the outer catch sees, or one it does not. */
  datatype Exit = Returned | Threw | Escaped

  /** The two calls that end a run were sent in this order, the second only after an answer to the first. */
  predicate Ended(before: seq<Rpc>, now: seq<Rpc>, first: Rpc, exit: Exit) {
    now == before + [first, SentReleaseLease] || (!exit.Returned? && now == before + [first])
  }

  /** What is sent after an answer: nothing for a stream or a null body, else a settlement or the uncertain mark. */
  predicate AnswerBooked(before: seq<Rpc>, now: seq<Rpc>, stream: bool, ok: bool, body: Body, exit: Exit) {
    if stream && ok then now == before && exit.Returned?
    else if ok && body.NullJson? then now == before && exit.Escaped?
    else Ended(before, now, if ok && body.Total? then SentSettle(body.totalTokens) else SentUncertain, exit)
  }

  /** What is sent after the upstream call: an answer is booked, anything else given back or kept as uncertain. */
  predicate CallBooked(before: seq<Rpc>, now: seq<Rpc>, request: Request, call: Call, exit: Exit) {
    match call
    case Invoked(Answered(ok, body)) => AnswerBooked(before, now, request.stream, ok, body, exit)
    case Invoked(TransportFailed) => Ended(before, now, SentUncertain, exit)
    case AfterAttempt => Ended(before, now, if request.prepared then SentRelease else SentUncertain, exit)
    case _ => Ended(before, now, SentRelease, exit)
  }

  class ProxyRun {
    const stub: Stub
    const request: Request
    var reservationState: ReservationState
    var upstreamAttempted: bool
    var upstreamReached: bool
    var inFlightAcquired: bool
    var inFlightLease: Option<nat>
    var prepareTimedOut: bool
    /** The request body could not be written out after the attempt was announced (AfterAttempt). */
    var unsent: bool
    /** Set when the transport is invoked. */
    var upstream: Option<Upstream>
    /** The response was handed to the stream proxy, which finishes the books later. */
    var streaming: bool

    constructor (stub: Stub, request: Request)
      ensures this.stub == stub && this.request == request
      ensures reservationState.NoReservation? && !upstreamAttempted && !upstreamReached && !inFlightAcquired
      ensures inFlightLease.None? && !prepareTimedOut && !unsent && upstream.None? && !streaming
    {
      this.stub, this.request := stub, request;
      reservationState, inFlightLease, upstream := NoReservation, None, None;
      upstreamAttempted, upstreamReached, inFlightAcquired := false, false, false;
      prepareTimedOut, unsent, streaming := false, false, false;
    }

    ghost predicate IsReserved()
      reads this, stub, stub.quota
    {
      stub.entry.Some?
      && JustReserved(stub.entry.value, request.tokens, request.upperBound, MappingKey(request.key, request.client))
    }

    /** A driver before its first quota call, with arguments the parsing and the budget before it accept. */
    ghost predicate Untouched()
      reads this, stub, stub.quota
    {
      && stub.Valid() && stub.entry.None? && stub.held == {} && stub.sent == [] && stub.lossless
      && reservationState.NoReservation? && upstream.None? && !upstreamAttempted && !upstreamReached
      && !inFlightAcquired && inFlightLease.None? && !unsent && !streaming
      && ValidReservation(request.tokens, request.upperBound) && !request.key.KeyInvalid? && request.limit <= stub.most
    }

    /** Once the transport was invoked no release is sent, and the request keeps its tokens on the books. */
    ghost predicate Safe()
      reads this, stub, stub.quota
    {
      && stub.Valid()
      && (upstream.Some? ==>
            && upstreamAttempted && SentRelease !in stub.sent && stub.entry.Some?
            && var state := stub.entry.value.state; state.Reserved? || state.Uncertain? || state.Settled?)
    }

    /** No lease is left, and the entry says what happened upstream. */
    ghost predicate Tidy()
      reads this, stub, stub.quota
    {
      && stub.held == {}
      && match upstream
         case None =>
           stub.entry.Some? ==>
             if unsent then stub.entry.value.state.Uncertain? else stub.entry.value.state.Released?
         case Some(u) =>
           stub.entry.Some? &&
           if u.Answered? && u.ok && u.body.Total? then
             stub.entry.value.state.Settled? && stub.entry.value.actualTokens == Some(u.body.totalTokens)
           else stub.entry.value.state.Uncertain?
    }

    /**
     * The end of a run, ready for the stream proxy if it goes on as a stream. An answer that strands the
     * run leaves the reservation, and the lease is never given back. If no call was lost, all else is tidy.
     */
    ghost predicate Done()
      reads this, stub, stub.quota
    {
      && Safe()
      && (streaming ==> IsReserved() && upstream.Some? && inFlightLease.Some? && stub.held <= {inFlightLease.value})
      && (reservationState.Unknown? ==> upstream.None? && SentUnknown in stub.sent)
      && (!streaming && Strands(upstream) ==> IsReserved() && SentReleaseLease !in stub.sent)
      && (stub.lossless && !streaming && !Strands(upstream) ==> Tidy())
    }

    /** Reserved, nothing sent upstream, nothing given back. */
    ghost predicate Holding()
      reads this, stub, stub.quota
    {
      && stub.Valid() && IsReserved() && reservationState.Held?
      && upstream.None? && !upstreamAttempted && !upstreamReached && !unsent && !streaming
      && stub.sent != [] && SentRelease !in stub.sent && SentReleaseLease !in stub.sent
      && (inFlightAcquired <==> inFlightLease.Some?)
      && (inFlightLease.Some? ==> stub.held <= {inFlightLease.value})
    }

    ghost predicate HoldingLease()
      reads this, stub, stub.quota
    {
      Holding() && inFlightLease.Some?
    }

    /** Where an exception may leave the driver: if no call was lost, nothing happened yet or only the reservation. */
    ghost predicate Interrupted()
      reads this, stub, stub.quota
    {
      && Safe() && !streaming && !Strands(upstream) && (reservationState.Unknown? ==> upstream.None?)
      && (stub.lossless ==>
            && upstream.None? && !upstreamAttempted && !upstreamReached && !unsent
            && match reservationState
               case NoReservation => stub.entry.None? && stub.held == {} && !inFlightAcquired
               case Held => Holding() && (inFlightLease.None? ==> stub.held == {})
               case Unknown => false)
    }

    ghost predicate Left(exit: Exit)
      reads this, stub, stub.quota
    {
      if exit.Threw? then Interrupted()
      else Done() && (exit.Escaped? ==> upstream.Some?) && (!streaming && Strands(upstream) ==> exit.Escaped?)
    }

    /** `reserveFailClosed`: a second attempt with the same arguments after a failed first one. */
    method ReserveFailClosed() returns (outcome: ReserveOutcome)
      requires stub.Valid() && stub.entry.None?
      requires ValidReservation(request.tokens, request.upperBound) && !request.key.KeyInvalid?
      modifies stub, stub.quota
      ensures stub.Valid() && stub.held <= old(stub.held)
      ensures stub.entry.Some? ==> IsReserved()
      ensures outcome.ResolvedReserve? ==> (outcome.result.ReserveOk? <==> IsReserved())
      ensures || (stub.sent == old(stub.sent) + [SentReserve] && outcome.ResolvedReserve?)
              || (stub.sent == old(stub.sent) + [SentReserve, SentReserve] && !stub.lossless)
      ensures stub.lossless ==> old(stub.lossless) && outcome.ResolvedReserve?
    {
      var answer := stub.Reserve(request.tokens, request.upperBound, request.key, request.client);
      if answer.Some? {
        return ResolvedReserve(answer.value);
      }
      answer := stub.Reserve(request.tokens, request.upperBound, request.key, request.client);
      outcome := if answer.Some? then ResolvedReserve(answer.value) else UnknownReserve;
    }

    /** `markReserveOutcomeUnknown` after an unknown outcome: if it gets through, the request is absent or uncertain. */
    method RejectUnknownReservation() returns (answered: bool)
      requires stub.Valid() && (stub.entry.Some? ==> IsReserved())
      modifies stub, stub.quota
      ensures stub.Valid() && stub.held <= old(stub.held) && stub.sent == old(stub.sent) + [SentUnknown]
      ensures answered && stub.entry.Some? ==> stub.entry.value.state.Uncertain?
      ensures stub.entry.Some? ==> IsLive(stub.entry.value.state)
      ensures stub.lossless == (old(stub.lossless) && answered)
    {
      answered := stub.Mark(SentUnknown, ToUnknown);
    }

    /** `release`, then `releaseInFlight`: nothing was sent upstream. */
    method GiveBack() returns (exit: Exit)
      requires stub.Valid() && IsReserved() && reservationState.Held? && upstream.None?
      requires !unsent && !streaming && !upstreamReached
      requires inFlightLease.Some? && stub.held <= {inFlightLease.value}
      modifies this`reservationState, this`inFlightAcquired, this`inFlightLease, stub, stub.quota
      ensures Left(exit) && Ended(old(stub.sent), stub.sent, SentRelease, exit)
    {
      hide Stub.Valid;
      var released := stub.Mark(SentRelease, ToReleased);
      if !released {
        return Threw;
      }
      reservationState := NoReservation;
      exit := GiveLeaseBack();
    }

    method GiveLeaseBack() returns (exit: Exit)
      requires inFlightLease.Some? && stub.Valid()
      modifies this`inFlightAcquired, this`inFlightLease, stub, stub.quota
      ensures stub.Valid() && stub.entry == old(stub.entry) && stub.sent == old(stub.sent) + [SentReleaseLease]
      ensures stub.lossless == (old(stub.lossless) && exit.Returned?) && !exit.Escaped?
      ensures exit.Returned? && old(stub.held <= {inFlightLease.value}) ==> stub.held == {}
    {
      var answered := stub.ReleaseLease(inFlightLease.value);
      if !answered {
        return Threw;
      }
      inFlightAcquired, inFlightLease := false, None;
      exit := Returned;
    }

    /** `markUncertain`, then `releaseInFlight`: the upstream call was attempted. */
    method KeepAsUncertain() returns (exit: Exit)
      requires Safe() && IsReserved() && reservationState.Held? && upstreamAttempted && !streaming
      requires upstream.None? ==> unsent
      requires !Strands(upstream)
      requires upstream.Some? && upstream.value.Answered? && upstream.value.ok ==> !upstream.value.body.Total?
      requires inFlightLease.Some? && stub.held <= {inFlightLease.value}
      modifies this`reservationState, this`inFlightAcquired, this`inFlightLease, stub, stub.quota
      ensures Left(exit) && !exit.Escaped? && Ended(old(stub.sent), stub.sent, SentUncertain, exit)
    {
      hide Stub.Valid;
      var marked := stub.Mark(SentUncertain, ToUncertain);
      if !marked {
        return Threw;
      }
      reservationState := NoReservation;
      exit := GiveLeaseBack();
    }

    /**
     * `handleCompletedUpstream`. The driver returns its promise without awaiting it, so an exception in
     * here escapes the outer catch. On a body that is `null` that happens before any call is sent.
     */
    method HandleCompletedUpstream() returns (exit: Exit)
      requires Safe() && IsReserved() && reservationState.Held? && !streaming
      requires upstream.Some? && upstream.value.Answered? && SentReleaseLease !in stub.sent
      requires inFlightLease.Some? && stub.held <= {inFlightLease.value}
      modifies this`reservationState, this`inFlightAcquired, this`inFlightLease, this`upstreamReached
      modifies this`streaming, stub, stub.quota
      ensures Done() && !exit.Threw? && streaming == (request.stream && upstream.value.ok)
      ensures !streaming && Strands(upstream) ==> exit.Escaped?
      ensures AnswerBooked(old(stub.sent), stub.sent, request.stream, upstream.value.ok, upstream.value.body, exit)
      ensures !streaming && Strands(upstream) && upstream.value.body.NullJson? ==>
                stub.sent == old(stub.sent) && stub.held == old(stub.held) && stub.lossless == old(stub.lossless)
    {
      hide Stub.Valid;
      upstreamReached := true;
      var answer := upstream.value;
      if request.stream && answer.ok {
        streaming, inFlightAcquired := true, false;
        return Returned;
      }
      if !answer.ok || answer.body.Unreadable? {
        exit := KeepAsUncertain();
        return if exit.Threw? then Escaped else exit;
      }
      if answer.body.NullJson? {
        return Escaped;
      }
      if answer.body.NoTotal? {
        exit := KeepAsUncertain();
        return if exit.Threw? then Escaped else exit;
      }
      var settled := stub.Settle(answer.body.totalTokens);
      if !settled {
        return Escaped;
      }
      reservationState := NoReservation;
      exit := GiveLeaseBack();
      exit := if exit.Threw? then Escaped else exit;
    }

    /** One upstream call under a lease, on either path, and what follows from its result. */
    method CallUpstream() returns (exit: Exit, call: Call)
      requires HoldingLease()
      modifies this, stub, stub.quota
      ensures Left(exit) && CallBooked(old(stub.sent), stub.sent, request, call, exit)
      ensures upstream == (if call.Invoked? then Some(call.upstream) else None)
      ensures prepareTimedOut == old(prepareTimedOut)
    {
      hide Stub.Valid;
      call := *;
      // On the prepared path the transport itself sets the flag; on the other it is set beforehand.
      upstreamAttempted := !request.prepared && !call.BeforeAttempt?;
      match call {
        case BeforeAttempt => exit := GiveBack();
        case ConfigError => exit := GiveBack();
        case AfterAttempt =>
          unsent := upstreamAttempted;
          if unsent {
            exit := KeepAsUncertain();
          } else {
            exit := GiveBack();
          }
        case Invoked(outcome) =>
          upstreamAttempted, upstream := true, Some(outcome);
          if outcome.Answered? {
            exit := HandleCompletedUpstream();
          } else {
            exit := KeepAsUncertain();
          }
      }
    }

    /**
     * The ways out between the reservation and the lease: an unknown outcome is marked, a refused
     * reservation needs nothing, and a held one is given back when the prepared body timed out.
     */
    method StopAfterReserve()
      requires stub.Valid() && !unsent && !streaming && upstream.None? && !upstreamReached
      requires SentRelease !in stub.sent && stub.held == {} && (stub.entry.Some? ==> IsReserved())
      requires !reservationState.Unknown? ==> (reservationState.Held? <==> stub.entry.Some?)
      requires stub.lossless ==> !reservationState.Unknown?
      modifies this`reservationState, stub, stub.quota
      ensures Done()
      ensures stub.sent == old(stub.sent) +
                match old(reservationState) case Unknown => [SentUnknown] case Held => [SentRelease] case NoReservation => []
    {
      hide Stub.Valid;
      if reservationState.Unknown? {
        var _ := RejectUnknownReservation();
      } else if reservationState.Held? {
        var _ := stub.Mark(SentRelease, ToReleased);
        reservationState := NoReservation;
      }
    }

    /** The path over a body prepared by the tokenizer service, which may time out at any await. */
    method TryPrepared() returns (exit: Exit, checked: Option<Preflight>)
      requires Untouched()
      modifies this, stub, stub.quota
      ensures Left(exit) && (upstream.Some? ==> checked == Some(Ready) && !prepareTimedOut)
    {
      hide Stub.Valid;
      checked := None;
      var outcome := ReserveFailClosed();
      reservationState :=
        if outcome.UnknownReserve? then Unknown else if outcome.result.ReserveOk? then Held else NoReservation;
      Await();
      if prepareTimedOut || !reservationState.Held? {
        StopAfterReserve();
        return Returned, checked;
      }
      exit, checked := UnderReservation();
    }

    /** The prepared path from the reservation on: the lease, the check of the prepared body, the call. */
    method UnderReservation() returns (exit: Exit, checked: Option<Preflight>)
      requires Holding() && inFlightLease.None? && stub.held == {} && request.limit <= stub.most && !prepareTimedOut
      modifies this, stub, stub.quota
      ensures Left(exit) && (upstream.Some? ==> checked == Some(Ready) && !prepareTimedOut)
    {
      hide Stub.Valid;
      checked := None;
      var answer := stub.Acquire(request.limit, request.ttlMs);
      if answer.NoAnswer? {
        return Threw, checked;
      }
      if answer.Granted? {
        inFlightAcquired, inFlightLease := true, Some(answer.generation);
      }
      Await();
      if prepareTimedOut {
        RejectPrepareTimeout();
        return Returned, checked;
      }
      if answer.Denied? {
        exit := RejectConcurrency();
        return;
      }
      var preflight: Preflight := *;
      checked := Some(preflight);
      match preflight {
        case PreflightThrew => exit := Threw;
        case Invalid => exit := GiveBack();
        case Ready =>
          var call;
          exit, call := CallUpstream();
      }
    }

    /** Any time may pass. */
    method Await()
      modifies this`prepareTimedOut
      ensures old(prepareTimedOut) ==> prepareTimedOut
    {
      var late: bool := *;
      prepareTimedOut := prepareTimedOut || late;
    }

    method RejectPrepareTimeout()
      requires Holding() && (inFlightLease.None? ==> stub.held == {})
      modifies this`reservationState, this`inFlightAcquired, this`inFlightLease, stub, stub.quota
      ensures Done()
      ensures stub.sent == old(stub.sent) + if old(inFlightAcquired) then [SentReleaseLease, SentRelease] else [SentRelease]
    {
      hide Stub.Valid;
      if inFlightAcquired {
        var _ := stub.ReleaseLease(inFlightLease.value);
        inFlightAcquired, inFlightLease := false, None;
      }
      if reservationState.Held? {
        var _ := stub.Mark(SentRelease, ToReleased);
        reservationState := NoReservation;
      }
    }

    method RejectConcurrency() returns (exit: Exit)
      requires Holding() && inFlightLease.None? && stub.held == {}
      modifies this`reservationState, stub, stub.quota
      ensures Left(exit) && stub.sent == old(stub.sent) + [SentRelease]
    {
      hide Stub.Valid;
      var released := stub.Mark(SentRelease, ToReleased);
      if !released {
        return Threw;
      }
      reservationState := NoReservation;
      exit := Returned;
    }

    /** The path over a body the Worker reads itself. */
    method TryLegacy() returns (exit: Exit)
      requires Untouched()
      modifies this, stub, stub.quota
      ensures Left(exit)
    {
      hide Stub.Valid;
      var outcome := ReserveFailClosed();
      reservationState :=
        if outcome.UnknownReserve? then Unknown else if outcome.result.ReserveOk? then Held else NoReservation;
      if !reservationState.Held? {
        StopAfterReserve();
        return Returned;
      }
      var answer := stub.Acquire(request.limit, request.ttlMs);
      if answer.NoAnswer? {
        return Threw;
      }
      if answer.Denied? {
        exit := RejectConcurrency();
        return;
      }
      inFlightAcquired, inFlightLease := true, Some(answer.generation);
      var call;
      exit, call := CallUpstream();
    }

    /** The outer catch: every call in it is best effort. */
    method CleanUp()
      requires Interrupted()
      modifies stub, stub.quota
      ensures Done()
      ensures stub.sent == old(stub.sent)
                + (match reservationState
                   case Unknown => [SentUnknown]
                   case Held => [if upstreamAttempted || upstreamReached then SentUncertain else SentRelease]
                   case NoReservation => [])
                + if inFlightAcquired && inFlightLease.Some? then [SentReleaseLease] else []
    {
      hide Stub.Valid;
      if reservationState.Unknown? {
        var _ := stub.Mark(SentUnknown, ToUnknown);
      } else if reservationState.Held? {
        if upstreamAttempted || upstreamReached {
          var _ := stub.Mark(SentUncertain, ToUncertain);
        } else {
          var _ := stub.Mark(SentRelease, ToReleased);
        }
      }
      if inFlightAcquired && inFlightLease.Some? {
        var _ := stub.ReleaseLease(inFlightLease.value);
      }
    }

    /**
     * `handleProxy` for a request that has no entry yet. On every run, whatever calls fail or lose
     * their answers: a release is sent only if the transport was never invoked, and a request whose
     * upstream call started stays reserved, uncertain or settled. A non-stream run that ends on an
     * answer that strands it stays reserved and never gives its lease back; if no call was lost, every
     * other non-stream run leaves neither a reservation nor a lease behind.
     */
    method HandleProxy() returns (exit: Exit, checked: Option<Preflight>)
      requires Untouched()
      modifies this, stub, stub.quota
      ensures Done()
      ensures request.prepared && upstream.Some? ==> checked == Some(Ready) && !prepareTimedOut
      ensures SentRelease in stub.sent ==> upstream.None?
      ensures upstream.Some? ==>
                stub.entry.Some? && !stub.entry.value.state.Released? && !stub.entry.value.state.Reconciled?
      ensures stub.lossless && !streaming ==>
                ((stub.held == {} && (stub.entry.Some? ==> !stub.entry.value.state.Reserved?)) <==> !Strands(upstream))
      ensures !streaming && Strands(upstream) ==> IsReserved() && SentReleaseLease !in stub.sent && exit.Escaped?
    {
      checked := None;
      var early: Option<Exit> := *;
      if early == Some(Returned) {
        return Returned, checked;
      }
      exit := Threw;
      if early.None? {
        if request.prepared {
          exit, checked := TryPrepared();
        } else {
          exit := TryLegacy();
        }
      }
      if exit.Threw? {
        CleanUp();
        exit := Returned;
      }
    }
  }

  // ---------------------------------------------------- the answers that strand a run

  /**
   * A run on a fresh day, without losses, up to an answer with this body: the request was reserved and
   * got its lease, and the transport was invoked once.
   */
  method AnsweredRun(cfg: Config, id: RequestId, tokens: nat, body: Body) returns (run: ProxyRun)
    requires IsSafeNat(tokens) && tokens <= cfg.limit
    ensures fresh(run) && fresh(run.stub) && fresh(run.stub.quota)
    ensures run.Safe() && run.IsReserved() && run.reservationState.Held? && !run.streaming && !run.request.stream
    ensures run.upstream == Some(Answered(true, body)) && run.stub.sent == [SentReserve, SentAcquire] && run.stub.lossless
    ensures run.inFlightLease.Some? && run.stub.held == {run.inFlightLease.value}
  {
    hide Stub.Valid;
    var stub, generation := LeasedStub(cfg, id, tokens);
    run := new ProxyRun(stub, Request(false, false, tokens, tokens, KeyAbsent, None, 1, DEFAULT_LEASE_TTL_MS));
    run.reservationState, run.inFlightAcquired, run.inFlightLease := Held, true, Some(generation);
    run.upstreamAttempted, run.upstream := true, Some(Answered(true, body));
  }

  /** A request reserved and leased on a fresh day by two calls that got through. */
  method LeasedStub(cfg: Config, id: RequestId, tokens: nat) returns (stub: Stub, generation: nat)
    requires IsSafeNat(tokens) && tokens <= cfg.limit
    ensures fresh(stub) && fresh(stub.quota) && stub.Valid() && stub.sent == [SentReserve, SentAcquire] && stub.lossless
    ensures stub.entry.Some? && JustReserved(stub.entry.value, tokens, tokens, None) && stub.held == {generation}
  {
    var quota := new QuotaController(cfg);
    var most := Max(cfg.maxInFlight, 1);
    ghost var reserved := Reserve(Fresh(cfg), id, tokens, tokens, KeyAbsent, None).0;
    FreshReserve(cfg, id, tokens, most);
    stub := new Stub(quota, id, most);
    var _ := quota.Reserve(id, tokens, tokens, KeyAbsent, None);
    AcquireOwn(reserved, id, 1, DEFAULT_LEASE_TTL_MS, 0, most);
    var lease := quota.AcquireInFlight(id, 1, DEFAULT_LEASE_TTL_MS, 0);
    stub.Observe();
    stub.sent := [SentReserve, SentAcquire];
    generation := lease.lease.generation;
  }

  lemma FreshReserve(cfg: Config, id: RequestId, tokens: nat, most: nat)
    requires IsSafeNat(tokens) && tokens <= cfg.limit && cfg.maxInFlight <= most
    ensures Sound(Fresh(cfg), id, most)
    ensures var r := Reserve(Fresh(cfg), id, tokens, tokens, KeyAbsent, None).0;
      && Sound(r, id, most) && id in r.entries && JustReserved(r.entries[id], tokens, tokens, None)
      && r.leases == [] && Generations(r, id) == {} && AcquireInFlight(r, id, 1, DEFAULT_LEASE_TTL_MS, 0).1.LeaseHeld?
  {
    FreshInv(cfg, most);
    assert Fresh(cfg) == Fresh(cfg).(nextUuid := 0);
    var e: Entry := NewEntry(tokens, tokens, None, cfg.limit);
    ReserveOwn(Fresh(cfg), id, tokens, tokens, KeyAbsent, None, most);
  }

  /**
   * First failing input: a 200 answer whose text is `null`. No call was lost, and both the reservation
   * and the lease are still there when the promise is rejected.
   */
  method NullBodyStrands(cfg: Config, id: RequestId, tokens: nat) returns (run: ProxyRun, exit: Exit)
    requires IsSafeNat(tokens) && tokens <= cfg.limit
    ensures exit.Escaped? && run.upstream == Some(Answered(true, NullJson)) && !run.streaming
    ensures run.IsReserved() && run.stub.lossless && run.stub.sent == [SentReserve, SentAcquire]
    ensures run.stub.Valid() && run.stub.held != {}
  {
    run := AnsweredRun(cfg, id, tokens, NullJson);
    exit := run.HandleCompletedUpstream();
  }

  /** Second failing input: a total of -1, which `settle` refuses even when the call gets through. */
  method UnsafeTotalStrands(cfg: Config, id: RequestId, tokens: nat) returns (run: ProxyRun, exit: Exit)
    requires IsSafeNat(tokens) && tokens <= cfg.limit
    ensures exit.Escaped? && run.upstream == Some(Answered(true, Total(-1))) && !run.streaming
    ensures run.IsReserved() && SentReleaseLease !in run.stub.sent
  {
    run := AnsweredRun(cfg, id, tokens, Total(-1));
    exit := run.HandleCompletedUpstream();
  }
}
