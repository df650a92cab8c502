/**
 * The quota object as a Worker reaches it: every call may fail before it is applied, or be applied
 * and lose its answer, and the object serves other callers in between.
 */
module QuotaStub {
  import opened Wrappers
  import opened L = QuotaLedger
  import opened LedgerRuns
  import opened Controller
  import opened RequestView

  /** One call of the public face of the object; it runs as one transaction, one step of the ledger. */
  method Perform(quota: QuotaController, op: Op, nowMs: int)
    requires quota.Valid()
    modifies quota
    ensures quota.Valid() && quota.State() == Step(old(quota.State()), op, nowMs)
  {
    if IsGrantOp(op) {
      PerformGrant(quota, op, nowMs);
    } else {
      PerformPlain(quota, op, nowMs);
    }
  }

  method PerformGrant(quota: QuotaController, op: Op, nowMs: int)
    requires quota.Valid() && IsGrantOp(op)
    modifies quota
    ensures quota.Valid() && quota.State() == GrantStep(old(quota.State()), op, nowMs)
  {
    match op {
      case DoReconcile(id, disposition) => var _ := quota.ReconcileRequest(id, disposition, nowMs);
      case DoAdmit(input) => var _ := quota.AdmitRelay(input, nowMs);
      case DoActivate(binding) => var _ := quota.ActivateRelay(binding, nowMs);
      case DoRenewRelay(binding) => var _ := quota.RenewRelay(binding, nowMs);
      case DoFinish(binding, report, fingerprint) => var _ := quota.FinishRelay(binding, report, fingerprint, nowMs);
    }
  }

  method PerformPlain(quota: QuotaController, op: Op, nowMs: int)
    requires quota.Valid() && !IsGrantOp(op)
    modifies quota
    ensures quota.Valid() && quota.State() == PlainStep(old(quota.State()), op, nowMs)
  {
    match op {
      case DoReserve(id, tokens, upperBound, key, client) => var _ := quota.Reserve(id, tokens, upperBound, key, client);
      case DoSettle(id, actual) => var _ := quota.Settle(id, actual);
      case DoMarkUncertain(id) => var _ := quota.ApplyTransition(id, ToUncertain);
      case DoMarkReserveOutcomeUnknown(id) => var _ := quota.ApplyTransition(id, ToUnknown);
      case DoRelease(id) => var _ := quota.ApplyTransition(id, ToReleased);
      case DoAcquire(id, limit, ttlMs) => var _ := quota.AcquireInFlight(id, limit, ttlMs, nowMs);
      case DoRenew(id, generation, ttlMs) => var _ := quota.RenewInFlight(id, generation, ttlMs, nowMs);
      case DoReleaseLease(id, generation) => var _ := quota.ReleaseInFlight(id, generation, nowMs);
      case DoFence(id) => var _ := quota.FenceRelayCpuGateSetup(id, nowMs);
      case DoFinalizeMark => var _ := quota.MarkFinalized();
      case DoFinalizeDelete => quota.DeleteAll();
    }
  }

  datatype Rpc =
    | SentReserve | SentUnknown | SentUncertain | SentRelease | SentSettle(totalTokens: int)
    | SentAcquire | SentRenewLease | SentReleaseLease

  datatype LeaseAnswer = NoAnswer | Granted(generation: nat) | Denied

  /** The calls of one request on one object. */
  class Stub {
    const quota: QuotaController
    const id: RequestId
    /** The largest lease limit any caller uses. */
    const most: nat
    var sent: seq<Rpc>
    /** Every call so far was applied and its answer arrived. */
    var lossless: bool
    /** The request's entry and the generations of its leases, as they are in the object. */
    ghost var entry: Option<Entry>
    ghost var held: set<nat>

    ghost predicate Valid()
      reads this, quota
    {
      quota.Valid() && Sound(quota.State(), id, most)
      && entry == EntryOf(quota.State(), id) && held == Generations(quota.State(), id)
    }

    /** Not reserved, or just reserved with these arguments. */
    ghost predicate Unspent(tokens: int, upperBound: int, key: ParsedKey, client: Option<string>)
      reads this
    {
      entry.Some? ==> JustReserved(entry.value, tokens, upperBound, MappingKey(key, client))
    }

    constructor (quota: QuotaController, id: RequestId, most: nat)
      requires quota.Valid() && Sound(quota.State(), id, most)
      ensures Valid() && this.quota == quota && this.id == id && this.most == most && sent == [] && lossless
    {
      entry, held := EntryOf(quota.State(), id), Generations(quota.State(), id);
      this.quota, this.id, this.most := quota, id, most;
      sent, lossless := [], true;
    }

    ghost method Observe()
      requires quota.Valid() && Sound(quota.State(), id, most)
      modifies this`entry, this`held
      ensures Valid()
    {
      entry, held := EntryOf(quota.State(), id), Generations(quota.State(), id);
    }

    /** Any number of calls of others. */
    method ServeOthers()
      requires Valid()
      modifies this`entry, this`held, quota
      ensures Valid() && entry == old(entry) && held <= old(held)
    {
      var calls: nat := *;
      while calls > 0
        invariant Valid() && entry == old(entry) && held <= old(held)
      {
        var op: Op := *;
        var nowMs: int := *;
        if Foreign(quota.State(), op, id, most) {
          ForeignStep(quota.State(), op, nowMs, id, most);
          Perform(quota, op, nowMs);
          Observe();
        }
        calls := calls - 1;
      }
    }

    /** Sends a call: it reaches the object or not, and an answer arrives only if it did. */
    method Send(rpc: Rpc) returns (applied: bool, answered: bool)
      requires Valid()
      modifies this, quota
      ensures Valid() && entry == old(entry) && held <= old(held)
      ensures sent == old(sent) + [rpc] && (answered ==> applied)
      ensures lossless == (old(lossless) && answered)
    {
      ServeOthers();
      sent := sent + [rpc];
      applied := *;
      answered := *;
      answered := applied && answered;
      lossless := lossless && answered;
    }

    /** `reserve`: `None` when the call failed, lost its answer or was refused with an exception. */
    method Reserve(tokens: int, upperBound: int, key: ParsedKey, client: Option<string>) returns (answer: Option<ReserveResult>)
      requires Valid() && Unspent(tokens, upperBound, key, client)
      requires ValidReservation(tokens, upperBound) && !key.KeyInvalid?
      modifies this, quota
      ensures Valid() && Unspent(tokens, upperBound, key, client)
      ensures old(entry).Some? ==> entry == old(entry)
      ensures answer.Some? ==> (answer.value.ReserveOk? <==> entry.Some?)
      ensures held <= old(held) && sent == old(sent) + [SentReserve]
      ensures lossless == (old(lossless) && answer.Some?)
    {
      var applied, answered := Send(SentReserve);
      answer := None;
      if applied {
        ReserveOwn(quota.State(), id, tokens, upperBound, key, client, most);
        var result := quota.Reserve(id, tokens, upperBound, key, client);
        Observe();
        if answered {
          answer := Some(result.result);
        }
      }
    }

    /** `markUncertain`, `markReserveOutcomeUnknown` and `release`. */
    method Mark(rpc: Rpc, t: Transition) returns (answered: bool)
      requires Valid()
      requires match rpc
        case SentUnknown => t == ToUnknown
        case SentUncertain => t == ToUncertain
        case SentRelease => t == ToReleased
        case _ => false
      modifies this, quota
      ensures Valid() && MayMove(old(entry), entry, t) && (answered ==> DidMove(old(entry), entry, t))
      ensures held <= old(held) && sent == old(sent) + [rpc]
      ensures lossless == (old(lossless) && answered)
    {
      var applied;
      applied, answered := Send(rpc);
      if applied {
        ApplyOwn(quota.State(), id, t, most);
        var _ := quota.ApplyTransition(id, t);
        Observe();
      }
    }

    /** `settle`; an unsafe total makes an applied call throw and change nothing. */
    method Settle(totalTokens: int) returns (answered: bool)
      requires Valid()
      modifies this, quota
      ensures Valid()
      ensures IsSafeNat(totalTokens) ==>
                MayMove(old(entry), entry, ToSettled(totalTokens))
                && (answered ==> DidMove(old(entry), entry, ToSettled(totalTokens)))
      ensures !IsSafeNat(totalTokens) ==> !answered && entry == old(entry)
      ensures held <= old(held) && sent == old(sent) + [SentSettle(totalTokens)]
      ensures lossless ==> old(lossless) && (IsSafeNat(totalTokens) ==> answered)
      ensures old(lossless) && answered ==> lossless
    {
      var applied;
      applied, answered := Send(SentSettle(totalTokens));
      if applied {
        if IsSafeNat(totalTokens) {
          ApplyOwn(quota.State(), id, ToSettled(totalTokens), most);
        }
        var _ := quota.Settle(id, totalTokens);
        Observe();
        answered := answered && IsSafeNat(totalTokens);
      }
    }

    /** `acquireInFlight`; invalid settings make an applied call throw. */
    method Acquire(limit: int, ttlMs: int) returns (answer: LeaseAnswer)
      requires Valid() && entry.Some? && held == {} && limit <= most
      modifies this, quota
      ensures Valid() && entry == old(entry) && sent == old(sent) + [SentAcquire]
      ensures answer.Granted? ==> held == {answer.generation}
      ensures answer.Denied? ==> held == {}
      ensures lossless ==> old(lossless) && (answer.NoAnswer? ==> held == {})
      ensures old(lossless) && !answer.NoAnswer? ==> lossless
    {
      var applied, answered := Send(SentAcquire);
      answer := NoAnswer;
      if applied {
        var nowMs: int := *;
        AcquireOwn(quota.State(), id, limit, ttlMs, nowMs, most);
        var result := quota.AcquireInFlight(id, limit, ttlMs, nowMs);
        Observe();
        if answered && !result.LeaseThrew? {
          answer := if result.LeaseHeld? then Granted(result.lease.generation) else Denied;
        }
      }
    }

    /** `releaseInFlight`. */
    method ReleaseLease(generation: nat) returns (answered: bool)
      requires Valid()
      modifies this, quota
      ensures Valid() && entry == old(entry) && sent == old(sent) + [SentReleaseLease]
      ensures held <= old(held) && (answered && old(held) <= {generation} ==> held == {})
      ensures lossless == (old(lossless) && answered)
    {
      var applied;
      applied, answered := Send(SentReleaseLease);
      if applied {
        var nowMs: int := *;
        ReleaseLeaseOwn(quota.State(), id, generation, nowMs, most);
        var _ := quota.ReleaseInFlight(id, Some(generation), nowMs);
        Observe();
      }
    }

    /** `renewInFlight`. */
    method RenewLease(generation: nat, ttlMs: int) returns (renewed: bool, ghost nowMs: int)
      requires Valid()
      modifies this, quota
      ensures Valid() && entry == old(entry) && held <= old(held) && sent == old(sent) + [SentRenewLease]
      ensures lossless ==> old(lossless)
      ensures renewed ==> Lease(id, generation, nowMs + ttlMs) in quota.State().leases
    {
      var applied, answered := Send(SentRenewLease);
      var clock: int := *;
      renewed, nowMs := false, clock;
      if applied {
        RenewLeaseOwn(quota.State(), id, generation, ttlMs, clock, most);
        var result := quota.RenewInFlight(id, generation, ttlMs, clock);
        Observe();
        renewed := answered && result.LeaseHeld?;
      }
    }
  }
}
