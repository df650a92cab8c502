/**
 * The relay: it activates its grant, makes one upstream call and reports how it ended. The controller
 * it talks to is a real `QuotaController` serving others as well, over callbacks that may get lost.
 */
module RelayHandler {
  import opened Wrappers
  import opened L = QuotaLedger
  import opened LedgerRuns
  import opened LedgerHistory
  import opened Controller
  import opened QuotaStub

  /** The grant was activated at some time: whatever happened to it since, it was not released. */
  predicate Begun(s: Ledger, b: Binding) {
    && b.requestId in s.grants && s.grants[b.requestId].grantId == b.grantId
    && !s.grants[b.requestId].state.Authorized? && !s.grants[b.requestId].state.GrantReleased?
  }

  predicate SoundGrants(s: Ledger, most: nat) {
    Inv(s, most) && DistinctGrants(s)
  }

  lemma StepKeepsBegun(s: Ledger, op: Op, nowMs: int, most: nat, b: Binding)
    requires SoundGrants(s, most) && NoDelete(op) && Allowed(s, op, most)
    ensures SoundGrants(Step(s, op, nowMs), most)
    ensures Begun(s, b) ==> Begun(Step(s, op, nowMs), b)
    ensures Spent(s, b.grantId) ==> Spent(Step(s, op, nowMs), b.grantId)
  {
    StepKeeps(s, op, nowMs, most);
    StepKeepsDistinctGrants(s, op, nowMs, most);
    if Spent(s, b.grantId) { StepKeepsSpent(s, op, nowMs, most, b.grantId); }
    StepGrants(s, op, nowMs, most);
  }

  /** A begun request is still on the books, or an operator reconciled it. */
  lemma BegunIsNotReleased(s: Ledger, b: Binding, most: nat)
    requires Inv(s, most) && Begun(s, b)
    ensures b.requestId in s.entries
    ensures s.entries[b.requestId].state.Released? ==> s.grants[b.requestId].state.ReconciledUnused?
  {
    assert GrantOk(s.entries, b.requestId, s.grants[b.requestId], s.nextUuid);
  }

  // --------------------------------------------------------------- callbacks

  datatype ActivationOutcome = ActivationConfirmed | ActivationDenied(code: RelayCode) | ActivationUnknown
  datatype Callback = ActivateCall | RenewCall | FinishCall(report: TerminalReport)

  /** The terminal reports among the callbacks. */
  function ReportsIn(sent: seq<Callback>): seq<TerminalReport> {
    if sent == [] then []
    else
      var last := sent[|sent| - 1];
      ReportsIn(sent[..|sent| - 1]) + (if last.FinishCall? then [last.report] else [])
  }

  lemma ReportsInLonger(sent: seq<Callback>, last: Callback)
    ensures ReportsIn(sent + [last]) == ReportsIn(sent) + (if last.FinishCall? then [last.report] else [])
  {
    assert (sent + [last])[..|sent|] == sent;
  }

  lemma {:induction false} RenewalsReportNothing(sent: seq<Callback>, renewals: nat)
    ensures ReportsIn(sent + seq(renewals, _ => RenewCall)) == ReportsIn(sent)
  {
    if renewals > 0 {
      var shorter := sent + seq(renewals - 1, _ => RenewCall);
      assert sent + seq(renewals, _ => RenewCall) == shorter + [RenewCall];
      ReportsInLonger(shorter, RenewCall);
      RenewalsReportNothing(sent, renewals - 1);
    } else {
      assert sent + seq(renewals, _ => RenewCall) == sent;
    }
  }

  /** The callbacks of one grant. */
  class Callbacks {
    const quota: QuotaController
    const binding: Binding
    const most: nat
    const fingerprintOf: TerminalReport -> string
    /** The callbacks sent, delivered or not. */
    var sent: seq<Callback>
    /** The controller moved the grant to attempted on a call made here. */
    var activated: bool

    ghost predicate Valid()
      reads this, quota
    {
      && quota.Valid() && SoundGrants(quota.State(), most)
      && (activated ==> Begun(quota.State(), binding) && IsSpent())
    }

    /** The grant can no longer be activated. */
    ghost predicate IsSpent()
      reads this, quota
    {
      Spent(quota.State(), binding.grantId)
    }

    constructor (quota: QuotaController, binding: Binding, most: nat, fingerprintOf: TerminalReport -> string)
      requires quota.Valid() && SoundGrants(quota.State(), most)
      ensures Valid() && this.quota == quota && this.binding == binding && !activated && sent == []
    {
      this.quota, this.binding, this.most, this.fingerprintOf := quota, binding, most, fingerprintOf;
      activated, sent := false, [];
    }

    method ServeOthers()
      requires Valid()
      modifies quota
      ensures Valid() && (old(IsSpent()) ==> IsSpent())
    {
      var calls: nat := *;
      while calls > 0
        invariant Valid() && (old(IsSpent()) ==> IsSpent())
      {
        var op: Op := *;
        var nowMs: int := *;
        if NoDelete(op) && Allowed(quota.State(), op, most) {
          StepKeepsBegun(quota.State(), op, nowMs, most, binding);
          Perform(quota, op, nowMs);
        }
        calls := calls - 1;
      }
    }

    /** `activateOnce`: one attempt. What is confirmed or denied is the controller's answer in the state it met. */
    method Activate() returns (outcome: ActivationOutcome, ghost met: Ledger, ghost nowMs: int)
      requires Valid()
      modifies this, quota
      ensures Valid() && (old(IsSpent()) ==> IsSpent() && activated == old(activated))
      ensures sent == old(sent) + [ActivateCall]
      ensures outcome.ActivationUnknown? || quota.State() == ActivateRelay(met, binding, nowMs).0
      ensures outcome.ActivationConfirmed? ==> activated && ActivateRelay(met, binding, nowMs).1.Activated?
      ensures outcome.ActivationDenied? ==>
                activated == old(activated) && ActivateRelay(met, binding, nowMs).1 == ActivateDenied(outcome.code)
    {
      ServeOthers();
      sent := sent + [ActivateCall];
      var clock: int := *;
      met, nowMs := quota.State(), clock;
      var applied, answered: bool := *, *;
      if !applied {
        return ActivationUnknown, met, nowMs;
      }
      ActivationKeeps(quota.State(), clock);
      var result := quota.ActivateRelay(binding, clock);
      activated := activated || result.Activated?;
      if !answered {
        return ActivationUnknown, met, nowMs;
      }
      outcome := if result.Activated? then ActivationConfirmed else ActivationDenied(result.code);
    }

    lemma ActivationKeeps(s: Ledger, nowMs: int)
      requires SoundGrants(s, most)
      ensures var (r, result) := ActivateRelay(s, binding, nowMs);
        && SoundGrants(r, most)
        && (result.Activated? ==> !Spent(s, binding.grantId) && Begun(r, binding) && Spent(r, binding.grantId))
        && (Begun(s, binding) ==> Begun(r, binding))
        && (Spent(s, binding.grantId) ==> Spent(r, binding.grantId))
    {
      StepKeepsBegun(s, DoActivate(binding), nowMs, most, binding);
      if ActivateRelay(s, binding, nowMs).1.Activated? {
        ActivationSpends(s, binding, nowMs, most);
      }
      if Spent(s, binding.grantId) {
        SpentCannotActivate(s, binding, nowMs);
      }
    }

    /** `renewLeaseOnce`: it is renewed only if the controller moved the lease. */
    method Renew() returns (renewed: bool, ghost met: Ledger, ghost nowMs: int)
      requires Valid()
      modifies this`sent, quota
      ensures Valid() && (old(IsSpent()) ==> IsSpent())
      ensures sent == old(sent) + [RenewCall]
      ensures renewed ==> RenewRelay(met, binding, nowMs).1.Renewed? && quota.State() == RenewRelay(met, binding, nowMs).0
    {
      ServeOthers();
      sent := sent + [RenewCall];
      var clock: int := *;
      met, nowMs := quota.State(), clock;
      var applied, answered: bool := *, *;
      renewed := false;
      if applied {
        StepKeepsBegun(quota.State(), DoRenewRelay(binding), clock, most, binding);
        var result := quota.RenewRelay(binding, clock);
        renewed := answered && result.Renewed?;
      }
    }

    /** `sendTerminalReport`: nothing is learned from its answer. */
    method Finish(report: TerminalReport) returns (ghost applied: bool, ghost met: Ledger, ghost nowMs: int)
      requires Valid()
      modifies this`sent, quota
      ensures Valid() && (old(IsSpent()) ==> IsSpent())
      ensures sent == old(sent) + [FinishCall(report)]
      ensures applied ==> quota.State() == FinishRelay(met, binding, report, fingerprintOf(report), nowMs).0
    {
      ServeOthers();
      sent := sent + [FinishCall(report)];
      var clock: int := *;
      met, nowMs := quota.State(), clock;
      var arrives: bool := *;
      applied := arrives;
      if arrives {
        StepKeepsBegun(quota.State(), DoFinish(binding, report, fingerprintOf(report)), clock, most, binding);
        var _ := quota.FinishRelay(binding, report, fingerprintOf(report), clock);
      }
    }
  }

  // ---------------------------------------------------------------- denials

  function TerminalOutcomeForDenial(code: RelayCode): Option<TerminalOutcome> {
    match code
    case LeaseLost => Some(ReleaseOutcome)
    case GrantReplayed => Some(UncertainOutcome)
    case _ => None
  }

  /**
   * The mapping fits what the controller knows when it denies: a release is reported only for a grant
   * nobody activated, uncertainty for one somebody did, and nothing for one that is closed, unknown or
   * out of time.
   */
  lemma DenialMappingFits(s: Ledger, b: Binding, nowMs: int, most: nat)
    requires Inv(s, most) && ActivateRelay(s, b, nowMs).1.ActivateDenied?
    ensures var (r, denied) := ActivateRelay(s, b, nowMs);
      match TerminalOutcomeForDenial(denied.code)
      case Some(ReleaseOutcome) => Bound(s, b) && s.grants[b.requestId].state.Authorized? && r == s
      case Some(UncertainOutcome) => Begun(s, b) && !IsTerminalGrant(s.grants[b.requestId].state) && r == s
      case Some(SettleOutcome) => false
      case None =>
        || !Bound(r, b)
        || IsTerminalGrant(r.grants[b.requestId].state)
        || nowMs >= r.grants[b.requestId].credentialExpiresAtMs
  {
    if b.requestId in s.grants {
      assert GrantOk(s.entries, b.requestId, s.grants[b.requestId], s.nextUuid);
    }
  }

  /** A release reported after a lost lease, while the credential lasts, frees the request's tokens. */
  lemma LostLeaseIsReleased(s: Ledger, b: Binding, nowMs: int, report: TerminalReport, fingerprint: string, laterMs: int, most: nat)
    requires Inv(s, most) && ActivateRelay(s, b, nowMs).1 == ActivateDenied(LeaseLost)
    requires report == TerminalReport(b.grantId, b.leaseGeneration, ReleaseOutcome, None)
    requires 0 < |fingerprint| <= MAX_FINGERPRINT_BYTES && laterMs < s.grants[b.requestId].credentialExpiresAtMs
    ensures var (r, finished) := FinishRelay(s, b, report, fingerprint, laterMs);
      && finished.Accepted? && r.entries[b.requestId].state.Released? && r.grants[b.requestId].state.GrantReleased?
      && forall l :: l in r.leases ==> l.requestId != b.requestId
  {
    assert GrantOk(s.entries, b.requestId, s.grants[b.requestId], s.nextUuid);
    assert EntryOk(s.entries[b.requestId]);
    var g := s.grants[b.requestId];
    ApplyKeeps(s, most, b.requestId, ToReleased);
    ReleaseLeaseKeeps(Apply(s, b.requestId, ToReleased), most, Some(b.requestId), b.requestId, Some(g.leaseGeneration), laterMs);
  }

  // -------------------------------------------------------------- the handler

  /** The only totals usage extraction yields. */
  type SafeTotal = n: nat | n <= MAX_SAFE

  /** What the upstream call came to, as far as the relay looks at it. */
  datatype Exchange =
    | CallThrew
    | NotSuccess
    | MetaTooLarge
    | EventStream
    | WholeBody(read: WholeRead)
  /** A body that is not an event stream; a null one is reported without being read. */
  datatype WholeRead = NullBody | ReadFailed | TooLarge | Complete(totalTokens: Option<SafeTotal>)

  class RelayRun {
    const callbacks: Callbacks
    var upstreamCalls: nat
    /** Set while the body of an event stream is forwarded, and after. */
    var streaming: bool
    var finalized: bool
    var usage: Option<SafeTotal>
    var renewalInFlight: bool
    /** The upstream body came to its normal end. */
    var endedNormally: bool

    /** Terminal reports sent, delivered or not. */
    ghost function Reports(): seq<TerminalReport>
      reads this, callbacks
    {
      ReportsIn(callbacks.sent)
    }

    ghost predicate Valid()
      reads this, callbacks, callbacks.quota
    {
      && callbacks.Valid() && upstreamCalls <= 1 && |Reports()| <= 1
      && (upstreamCalls == 1 ==> callbacks.activated)
      && (Reports() != [] ==> ReportFits(Reports()[0]))
      && (streaming ==> upstreamCalls == 1 && (finalized <==> Reports() != []) && (endedNormally ==> finalized))
    }

    /** No release once the grant was activated; a settlement only of the usage of a body read to its end. */
    ghost predicate ReportFits(report: TerminalReport)
      reads this, callbacks
    {
      && report.grantId == callbacks.binding.grantId && report.leaseGeneration == callbacks.binding.leaseGeneration
      && WellFormedReport(report)
      && (report.outcome.ReleaseOutcome? ==> !callbacks.activated && upstreamCalls == 0)
      && (report.outcome.SettleOutcome? ==> upstreamCalls == 1)
      && (streaming && endedNormally ==> report == EndReport(usage))
      && (streaming && !endedNormally ==> report.outcome.UncertainOutcome?)
    }

    /** Nothing was called and nothing sent. */
    ghost predicate Unused()
      reads this, callbacks
    {
      && upstreamCalls == 0 && callbacks.sent == [] && !streaming && !finalized && usage.None?
      && !renewalInFlight && !endedNormally && !callbacks.activated
    }

    constructor (callbacks: Callbacks)
      requires callbacks.Valid() && callbacks.sent == [] && !callbacks.activated
      ensures Valid() && this.callbacks == callbacks && Unused()
    {
      this.callbacks := callbacks;
      upstreamCalls, usage := 0, None;
      streaming, finalized, renewalInFlight, endedNormally := false, false, false, false;
    }

    function Report(outcome: TerminalOutcome): TerminalReport {
      TerminalReport(callbacks.binding.grantId, callbacks.binding.leaseGeneration, outcome, None)
    }

    /** The report of a body that came to its normal end: a settlement of its total, if it has one. */
    function EndReport(total: Option<SafeTotal>): TerminalReport {
      if total.None? then Report(UncertainOutcome)
      else Report(SettleOutcome).(totalTokens := Some(total.value))
    }

    method Send(report: TerminalReport)
      requires callbacks.Valid()
      modifies callbacks`sent, callbacks.quota
      ensures callbacks.Valid() && callbacks.sent == old(callbacks.sent) + [FinishCall(report)]
      ensures Reports() == old(Reports()) + [report]
      ensures old(callbacks.IsSpent()) ==> callbacks.IsSpent()
    {
      ReportsInLonger(callbacks.sent, FinishCall(report));
      var _, _, _ := callbacks.Finish(report);
    }

    /**
     * `handleRelay` from an allowed decision on: at most one upstream call, and only after the
     * controller activated the grant here. A grant that can no longer be activated gets none. What the
     * activation came to fixes which callbacks were sent; a run that is not streaming ends without a
     * report only if the controller denied the activation and holds nothing open for it.
     */
    method HandleRelay(contextDecodes: bool)
      returns (activation: Option<ActivationOutcome>, exchange: Option<Exchange>, renewals: seq<bool>, ghost met: Ledger, ghost nowMs: int)
      requires Valid() && Unused()
      modifies this, callbacks, callbacks.quota
      ensures Valid()
      ensures old(callbacks.IsSpent()) ==> callbacks.IsSpent() && upstreamCalls == 0
      ensures upstreamCalls == 1 ==> callbacks.IsSpent()
      ensures contextDecodes <==> activation.Some?
      ensures upstreamCalls == 1 <==> activation == Some(ActivationConfirmed)
      ensures upstreamCalls == 1 <==> exchange.Some?
      ensures activation.None? ==> callbacks.sent == [FinishCall(Report(ReleaseOutcome))]
      ensures activation == Some(ActivationUnknown) ==> callbacks.sent == [ActivateCall, FinishCall(Report(UncertainOutcome))]
      ensures activation.Some? && activation.value.ActivationDenied? ==>
                && ActivateRelay(met, callbacks.binding, nowMs).1 == ActivateDenied(activation.value.code)
                && callbacks.sent == [ActivateCall] +
                     if activation.value.code.LeaseLost? then [FinishCall(Report(ReleaseOutcome))]
                     else if activation.value.code.GrantReplayed? then [FinishCall(Report(UncertainOutcome))]
                     else []
      ensures exchange.Some? ==>
                && callbacks.sent == [ActivateCall] + seq(|renewals|, _ => RenewCall) + SentAfter(exchange.value, renewals)
                && (streaming <==> exchange.value.EventStream?) && (!exchange.value.WholeBody? || exchange.value.read.NullBody? ==> renewals == [])
      ensures !streaming && Reports() == [] ==>
                && activation.Some? && activation.value.ActivationDenied?
                && !activation.value.code.LeaseLost? && !activation.value.code.GrantReplayed?
    {
      hide Callbacks.Valid, Callbacks.IsSpent;
      activation, exchange, renewals := None, None, [];
      met, nowMs := callbacks.quota.State(), 0;
      if !contextDecodes {
        Send(Report(ReleaseOutcome));
        return;
      }
      ReportsInLonger([], ActivateCall);
      var outcome;
      outcome, met, nowMs := callbacks.Activate();
      activation := Some(outcome);
      match outcome {
        case ActivationConfirmed =>
          var what;
          what, renewals := CallUpstream();
          exchange := Some(what);
        case ActivationDenied(code) =>
          var report := TerminalOutcomeForDenial(code);
          if report.Some? {
            Send(Report(report.value));
          }
        case ActivationUnknown => Send(Report(UncertainOutcome));
      }
    }

    /** What is reported before the handler returns, by what the upstream call came to. */
    function SentAfter(exchange: Exchange, renewals: seq<bool>): seq<Callback> {
      match exchange
      case EventStream => []
      case WholeBody(Complete(Some(total))) =>
        if false in renewals then [FinishCall(Report(UncertainOutcome))]
        else
          [FinishCall(TerminalReport(
             callbacks.binding.grantId, callbacks.binding.leaseGeneration, SettleOutcome, Some(total)))]
      case _ => [FinishCall(Report(UncertainOutcome))]
    }

    /** The one upstream call. */
    method CallUpstream() returns (exchange: Exchange, renewals: seq<bool>)
      requires Valid() && callbacks.activated && upstreamCalls == 0 && Reports() == []
      requires !streaming && !finalized && usage.None? && !endedNormally
      modifies this, callbacks`sent, callbacks.quota
      ensures Valid() && upstreamCalls == 1 && (streaming <==> exchange.EventStream?) && (!exchange.WholeBody? || exchange.read.NullBody? ==> renewals == [])
      ensures callbacks.sent == old(callbacks.sent) + seq(|renewals|, _ => RenewCall) + SentAfter(exchange, renewals)
      ensures !streaming ==> |Reports()| == 1
      ensures old(callbacks.IsSpent()) ==> callbacks.IsSpent()
    {
      hide Callbacks.Valid, Callbacks.IsSpent, ReportsIn;
      upstreamCalls := 1;
      exchange := *;
      renewals := [];
      match exchange {
        case EventStream => streaming := true;
        case WholeBody(read) => renewals := ForwardBoundedBody(read);
        case _ => Send(Report(UncertainOutcome));
      }
      assert callbacks.sent == old(callbacks.sent) + seq(|renewals|, _ => RenewCall) + SentAfter(exchange, renewals);
    }

    /** `forwardBoundedBody`: settled only if the whole body was read, carries a total, and no renewal failed. */
    method ForwardBoundedBody(read: WholeRead) returns (renewals: seq<bool>)
      requires callbacks.Valid() && Reports() == []
      modifies callbacks`sent, callbacks.quota
      ensures callbacks.Valid() && (read.NullBody? ==> renewals == [])
      ensures callbacks.sent == old(callbacks.sent) + seq(|renewals|, _ => RenewCall) + SentAfter(WholeBody(read), renewals)
      ensures Reports() ==
                [if read.Complete? && !(false in renewals) then EndReport(read.totalTokens) else Report(UncertainOutcome)]
      ensures old(callbacks.IsSpent()) ==> callbacks.IsSpent()
    {
      hide Callbacks.Valid, Callbacks.IsSpent;
      renewals := [];
      if !read.NullBody? {
        renewals := RenewWhileReading();
      }
      if !read.Complete? || false in renewals {
        Send(Report(UncertainOutcome));
        return;
      }
      Send(EndReport(read.totalTokens));
    }

    /** Renewals go on at a fixed cadence until the read ends; the results are their answers. */
    method RenewWhileReading() returns (renewals: seq<bool>)
      requires callbacks.Valid()
      modifies callbacks`sent, callbacks.quota
      ensures callbacks.Valid() && (old(callbacks.IsSpent()) ==> callbacks.IsSpent())
      ensures callbacks.sent == old(callbacks.sent) + seq(|renewals|, _ => RenewCall) && Reports() == old(Reports())
    {
      hide Callbacks.Valid, Callbacks.IsSpent;
      renewals := [];
      var ticks: nat := *;
      while ticks > 0
        invariant callbacks.Valid() && (old(callbacks.IsSpent()) ==> callbacks.IsSpent())
        invariant callbacks.sent == old(callbacks.sent) + seq(|renewals|, _ => RenewCall)
      {
        var renewed, _, _ := callbacks.Renew();
        renewals := renewals + [renewed];
        ticks := ticks - 1;
      }
      RenewalsReportNothing(old(callbacks.sent), |renewals|);
    }

    // The callbacks of `forwardEventStream`, in any order: read results, a client cancel, renewals.

    /** The first ending of the stream is reported, any later one is ignored. */
    method Finalize(normally: bool)
      requires Valid() && streaming && !finalized
      modifies this`endedNormally, this`finalized, callbacks`sent, callbacks.quota
      ensures Valid() && finalized && endedNormally == normally
      ensures callbacks.sent == old(callbacks.sent) + [FinishCall(
                TerminalReport(
                  callbacks.binding.grantId, callbacks.binding.leaseGeneration,
                  if normally && usage.Some? then SettleOutcome else UncertainOutcome, if normally then usage else None))]
      ensures |Reports()| == 1
    {
      hide Callbacks.Valid, Callbacks.IsSpent;
      finalized, endedNormally := true, normally;
      Send(if normally then EndReport(usage) else Report(UncertainOutcome));
    }

    /** A chunk arrives; a window that might hold the usage is parsed until one is found. */
    method PullChunk(found: Option<SafeTotal>)
      requires Valid() && streaming
      modifies this`usage
      ensures Valid() && usage == (if old(usage).Some? || finalized then old(usage) else found)
    {
      hide Callbacks.Valid, Callbacks.IsSpent;
      if !finalized && usage.None? {
        usage := found;
      }
    }

    /** The upstream body ends: settle if a total was found, here at the latest. */
    method PullDone(found: Option<SafeTotal>)
      requires Valid() && streaming
      modifies this`usage, this`endedNormally, this`finalized, callbacks`sent, callbacks.quota
      ensures Valid() && finalized && |Reports()| == 1
      ensures var total := if old(usage).Some? then old(usage) else found;
        callbacks.sent == old(callbacks.sent) +
          if old(finalized) then []
          else
            [FinishCall(TerminalReport(
               callbacks.binding.grantId, callbacks.binding.leaseGeneration,
               if total.Some? then SettleOutcome else UncertainOutcome, total))]
    {
      hide Callbacks.Valid, Callbacks.IsSpent;
      if finalized {
        return;
      }
      if usage.None? {
        usage := found;
      }
      Finalize(true);
    }

    /** A read fails or the client disconnects: uncertain, never a release. */
    method Abort()
      requires Valid() && streaming
      modifies this`endedNormally, this`finalized, callbacks`sent, callbacks.quota
      ensures Valid() && finalized && |Reports()| == 1
      ensures callbacks.sent == old(callbacks.sent) + if old(finalized) then [] else [FinishCall(Report(UncertainOutcome))]
    {
      hide Callbacks.Valid, Callbacks.IsSpent;
      if !finalized {
        Finalize(false);
      }
    }

    /** The renewal timer fires: one renewal at a time, none after the end; its answer comes back later. */
    method StartRenewal() returns (renewed: bool)
      requires Valid() && streaming
      modifies this`renewalInFlight, callbacks`sent, callbacks.quota
      ensures Valid() && Reports() == old(Reports()) && (renewalInFlight <==> old(renewalInFlight) || !finalized)
      ensures callbacks.sent == old(callbacks.sent) + if old(renewalInFlight) || finalized then [] else [RenewCall]
    {
      hide Callbacks.Valid, Callbacks.IsSpent;
      renewed := true;
      if !renewalInFlight && !finalized {
        renewalInFlight := true;
        ReportsInLonger(callbacks.sent, RenewCall);
        var answer, _, _ := callbacks.Renew();
        renewed := answer;
      }
    }

    /** The renewal's answer arrives; a failure ends the stream, unless it had ended already. */
    method EndRenewal(renewed: bool)
      requires Valid() && streaming
      modifies this`renewalInFlight, this`endedNormally, this`finalized, callbacks`sent, callbacks.quota
      ensures Valid() && !renewalInFlight && finalized == (old(finalized) || !renewed)
      ensures callbacks.sent == old(callbacks.sent) +
                if !renewed && !old(finalized) then [FinishCall(Report(UncertainOutcome))] else []
    {
      hide Callbacks.Valid, Callbacks.IsSpent;
      if !renewed {
        Abort();
      }
      renewalInFlight := false;
    }
  }
}
