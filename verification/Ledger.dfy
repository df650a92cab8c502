/**
 * The quota ledger of one pool and one UTC day, as plain values.
 *
 * A `Ledger` holds no token counter at all: what is reserved, uncertain or confirmed is read off the
 * entries (module LedgerSums). The class in QuotaController.dfy keeps counters instead and patches
 * them, the way the Durable Object does; its methods are proved to act as the functions given here.
 * Every function below is one `storage.transaction`, that is, one atomic step.
 */
module QuotaLedger {
  import opened Wrappers

  type RequestId = string

  const DEFAULT_LEASE_TTL_MS: nat := 120_000
  const AUTHORIZATION_TTL_MS: nat := 3_600_000
  const CREDENTIAL_TTL_MS: nat := 3_900_000
  const MAX_FINGERPRINT_BYTES: nat := 128

  // ---------------------------------------------------------------- records

  datatype RequestState = Reserved | Settled | Uncertain | Reconciled | Released
  datatype Disposition = Consumed | Unused
  datatype UncertaintyOrigin = UpstreamUncertain | ReserveUnknown

  /** An idempotency mapping key; the source joins the two parts with a colon. */
  datatype IdempotencyKey = IdempotencyKey(client: string, key: string)

  datatype ReserveResult =
    | ReserveOk(remaining: int)
    | InsufficientQuota(remaining: int)
    | DuplicateIdempotencyKey(requestId: RequestId)

  /** The saved RPC answers of an entry; a settle, markUncertain, release or reconcile answer is always "ok". */
  datatype RpcResults = RpcResults(
    reserve: ReserveResult,
    settle: bool,
    markUncertain: bool,
    markReserveOutcomeUnknown: Option<bool>,
    release: bool,
    reconcile: bool)

  datatype Entry = Entry(
    state: RequestState,
    tokens: nat,
    upperBoundTokens: nat,
    reservedTokens: nat,
    idempotency: Option<IdempotencyKey>,
    requestedDisposition: Option<Disposition>,
    uncertaintyOrigin: Option<UncertaintyOrigin>,
    actualTokens: Option<nat>,
    results: RpcResults)

  datatype Lease = Lease(requestId: RequestId, generation: nat, expiresAtMs: int)

  datatype GrantState =
    | Authorized | Attempted | GrantUncertain
    | GrantSettled | GrantReleased | ReconciledConsumed | ReconciledUnused

  datatype Environment = Preview | Production
  datatype PoolName = STANDARD | MINI

  datatype Metadata = Metadata(
    model: string, estimatedInputTokens: nat, maxOutputTokens: nat,
    inputBytes: nat, rawBodyBytes: nat, isToolUse: bool, stream: bool)

  datatype Admission = Admission(
    contextIssuedAtMs: int, contextExpiresAtMs: int, metadata: Metadata,
    reservedTokens: nat, upperBoundTokens: nat, maxOutputTokens: nat, cacheEnabled: bool)

  datatype TerminalOutcome = SettleOutcome | UncertainOutcome | ReleaseOutcome
  datatype TerminalReport = TerminalReport(
    grantId: nat, leaseGeneration: nat, outcome: TerminalOutcome, totalTokens: Option<int>)

  datatype Grant = Grant(
    grantId: nat,
    leaseGeneration: nat,
    environment: Environment,
    clientId: string,
    idempotencyKeyHash: Option<string>,
    nonce: string,
    model: string,
    pool: PoolName,
    admissionUtcDay: string,
    state: GrantState,
    issuedAtMs: int,
    authorizationExpiresAtMs: int,
    credentialExpiresAtMs: int,
    admission: Admission,
    terminalReport: Option<TerminalReport>,
    terminalFingerprint: Option<string>)

  /** The deployment settings and the identity of the object; they never change. */
  datatype Config = Config(
    pool: PoolName, utcDay: string, limit: nat, maxInFlight: nat,
    environment: Option<Environment>, fixture: Option<Fixture>)
  datatype Fixture = Fixture(clientId: string, model: string)

  datatype Ledger = Ledger(
    cfg: Config,
    entries: map<RequestId, Entry>,
    idempotency: map<IdempotencyKey, RequestId>,
    leases: seq<Lease>,
    grants: map<RequestId, Grant>,
    fences: set<RequestId>,
    finalized: bool,
    /** How many `finalizeDay` calls set the flag and have not yet reached `deleteAll`. */
    pendingDeletes: nat,
    /** Source of `crypto.randomUUID`: every identifier is handed out once. */
    nextUuid: nat)

  /** The identity stays and identifiers are never handed out twice. */
  predicate SameObject(s: Ledger, r: Ledger) {
    r.cfg == s.cfg && s.nextUuid <= r.nextUuid
  }

  /** What every step but `deleteAll` keeps besides. */
  predicate Follows(s: Ledger, r: Ledger) {
    SameObject(s, r) && (s.finalized ==> r.finalized) && s.fences <= r.fences
  }

  predicate SameRecords(s: Ledger, r: Ledger) {
    r.entries == s.entries && r.idempotency == s.idempotency && r.grants == s.grants
  }

  function Fresh(cfg: Config): Ledger {
    Ledger(cfg, map[], map[], [], map[], {}, false, 0, 0)
  }

  predicate IsLive(state: RequestState) {
    state.Reserved? || state.Uncertain?
  }

  predicate IsTerminalGrant(state: GrantState) {
    state.GrantSettled? || state.GrantReleased? || state.ReconciledConsumed? || state.ReconciledUnused?
  }

  // ---------------------------------------------------------- sums of entries

  datatype Measure =
    | ReservedTokens | UncertainTokens | ConfirmedTokens
    | ReservedCount | UncertainCount | RequestCount | Overage

  function ActualOf(e: Entry): nat {
    if e.actualTokens.Some? then e.actualTokens.value else 0
  }

  function Weight(k: Measure, e: Entry): nat {
    match k
    case ReservedTokens => if e.state.Reserved? then e.reservedTokens else 0
    case UncertainTokens => if e.state.Uncertain? then e.reservedTokens else 0
    case ConfirmedTokens =>
      if e.state.Settled? then ActualOf(e) else if e.state.Reconciled? then e.reservedTokens else 0
    case ReservedCount => if e.state.Reserved? then 1 else 0
    case UncertainCount => if e.state.Uncertain? then 1 else 0
    case RequestCount => 1
    case Overage =>
      if e.state.Settled? && ActualOf(e) > e.reservedTokens then ActualOf(e) - e.reservedTokens else 0
  }

  ghost function SumOver(ids: set<RequestId>, m: map<RequestId, Entry>, k: Measure): nat
    requires ids <= m.Keys
  {
    if ids == {} then 0 else var id :| id in ids; Weight(k, m[id]) + SumOver(ids - {id}, m, k)
  }

  ghost function Sum(m: map<RequestId, Entry>, k: Measure): nat {
    SumOver(m.Keys, m, k)
  }

  ghost function Used(s: Ledger): nat {
    Sum(s.entries, ConfirmedTokens) + Sum(s.entries, ReservedTokens) + Sum(s.entries, UncertainTokens)
  }

  ghost function Remaining(s: Ledger): int {
    s.cfg.limit - Used(s)
  }

  /** `tierOf(remaining, limit) === "STRICT"`: at most 5% is left, as an exact ratio. */
  predicate IsStrict(remaining: int, limit: nat) {
    limit == 0 || 20 * remaining <= limit
  }

  predicate HasCapacity(tokens: nat, upperBound: nat, remaining: int, limit: nat) {
    tokens <= remaining && (IsStrict(remaining, limit) ==> upperBound <= remaining)
  }

  // ------------------------------------------------------- entry transitions

  datatype Transition =
    | ToSettled(actualTokens: nat) | ToUncertain | ToUnknown | ToReleased | ToReconciled(disposition: Disposition)

  /** What a transition makes of an entry; a repeated or late one only records its answer. */
  function NextEntry(e: Entry, t: Transition): Entry {
    match t
    case ToSettled(actual) =>
      if e.results.settle then e
      else if IsLive(e.state) then
        e.(state := Settled, actualTokens := Some(actual), results := e.results.(settle := true))
      else e.(results := e.results.(settle := true))
    case ToUncertain =>
      if e.results.markUncertain then e
      else if e.state.Reserved? then
        e.(state := Uncertain,
           uncertaintyOrigin := if e.uncertaintyOrigin.Some? then e.uncertaintyOrigin else Some(UpstreamUncertain),
           results := e.results.(markUncertain := true))
      else e.(results := e.results.(markUncertain := true))
    case ToUnknown =>
      if e.results.markReserveOutcomeUnknown.Some? then e
      else if e.state.Reserved? then
        e.(state := Uncertain, uncertaintyOrigin := Some(ReserveUnknown),
           results := e.results.(markReserveOutcomeUnknown := Some(true)))
      else e.(results := e.results.(markReserveOutcomeUnknown := Some(false)))
    case ToReleased =>
      if e.results.release then e
      else if e.state.Reserved? then e.(state := Released, results := e.results.(release := true))
      else e.(results := e.results.(release := true))
    case ToReconciled(disposition) =>
      if e.results.reconcile || !IsLive(e.state) then e
      else
        e.(state := if disposition.Consumed? then Reconciled else Released,
           requestedDisposition := Some(disposition),
           results := e.results.(reconcile := true))
  }

  function Apply(s: Ledger, id: RequestId, t: Transition): (r: Ledger)
    ensures Follows(s, r)
  {
    if id in s.entries then s.(entries := s.entries[id := NextEntry(s.entries[id], t)]) else s
  }

  datatype SettleAnswer = SettleThrew | SettleAnswered(known: bool)

  /** The `settle` RPC: an unsafe total is refused before the transaction opens. */
  function Settle(s: Ledger, id: RequestId, actualTokens: int): (r: (Ledger, SettleAnswer))
    ensures Follows(s, r.0)
  {
    if IsSafeNat(actualTokens) then (Apply(s, id, ToSettled(actualTokens)), SettleAnswered(id in s.entries))
    else (s, SettleThrew)
  }

  // ------------------------------------------------------------------ leases

  function Active(leases: seq<Lease>, nowMs: int): (r: seq<Lease>)
    ensures |r| <= |leases|
    ensures forall l :: l in r <==> l in leases && l.expiresAtMs > nowMs
  {
    if leases == [] then []
    else (if leases[0].expiresAtMs > nowMs then [leases[0]] else []) + Active(leases[1..], nowMs)
  }

  function FindLease(leases: seq<Lease>, id: RequestId): (r: Option<Lease>)
    ensures r.Some? ==> r.value in leases && r.value.requestId == id
    ensures r.None? ==> forall l :: l in leases ==> l.requestId != id
  {
    if leases == [] then None
    else if leases[0].requestId == id then Some(leases[0])
    else FindLease(leases[1..], id)
  }

  /** The list without its first lease for `id`. */
  function DropLease(leases: seq<Lease>, id: RequestId): seq<Lease> {
    if leases == [] then []
    else if leases[0].requestId == id then leases[1..]
    else [leases[0]] + DropLease(leases[1..], id)
  }

  /** The list with the first lease for `id` moved to a new expiry. */
  function ExtendLease(leases: seq<Lease>, id: RequestId, expiresAtMs: int): seq<Lease> {
    if leases == [] then []
    else if leases[0].requestId == id then [leases[0].(expiresAtMs := expiresAtMs)] + leases[1..]
    else [leases[0]] + ExtendLease(leases[1..], id, expiresAtMs)
  }

  predicate ValidTtl(ttlMs: int, nowMs: int) {
    0 < ttlMs <= MAX_SAFE && IsSafeInteger(nowMs + ttlMs)
  }

  predicate IsSafeInteger(value: int) {
    0 - MAX_SAFE <= value <= MAX_SAFE
  }

  /** A thrown `TypeError` rolls its transaction back. */
  datatype LeaseResult = LeaseThrew | LeaseHeld(lease: Lease) | ConcurrencyExceeded | LeaseNotFound | StaleGeneration

  function AcquireInFlight(s: Ledger, id: RequestId, limit: int, ttlMs: int, nowMs: int): (r: (Ledger, LeaseResult))
    ensures Follows(s, r.0) && SameRecords(s, r.0)
  {
    if !(0 < limit <= MAX_SAFE) || !ValidTtl(ttlMs, nowMs) then (s, LeaseThrew)
    else
      var active := Active(s.leases, nowMs);
      var found := FindLease(active, id);
      if found.Some? then (s.(leases := active), LeaseHeld(found.value))
      else if |active| >= limit then (s.(leases := active), ConcurrencyExceeded)
      else
        var lease := Lease(id, s.nextUuid, nowMs + ttlMs);
        (s.(leases := active + [lease], nextUuid := s.nextUuid + 1), LeaseHeld(lease))
  }

  function RenewInFlight(s: Ledger, id: RequestId, generation: nat, ttlMs: int, nowMs: int): (r: (Ledger, LeaseResult))
    ensures Follows(s, r.0) && SameRecords(s, r.0)
  {
    if !ValidTtl(ttlMs, nowMs) then (s, LeaseThrew)
    else
      var active := Active(s.leases, nowMs);
      var found := FindLease(active, id);
      if found.None? then (s.(leases := active), LeaseNotFound)
      else if found.value.generation != generation then (s.(leases := active), StaleGeneration)
      else
        (s.(leases := ExtendLease(active, id, nowMs + ttlMs)), LeaseHeld(found.value.(expiresAtMs := nowMs + ttlMs)))
  }

  predicate CanRelease(found: Option<Lease>, generation: Option<nat>) {
    found.Some? && generation.Some? && found.value.generation == generation.value
  }

  /** Without a generation only a migrated pre-version-1 lease could be released, and the model has none. */
  function ReleaseInFlight(s: Ledger, id: RequestId, generation: Option<nat>, nowMs: int): (r: Ledger)
    ensures Follows(s, r) && SameRecords(s, r)
  {
    var active := Active(s.leases, nowMs);
    s.(leases := if CanRelease(FindLease(active, id), generation) then DropLease(active, id) else active)
  }

  // ----------------------------------------------------------------- reserve

  datatype ParsedKey = KeyAbsent | KeyInvalid | KeyValid(key: string)
  datatype ReserveAnswer = ReserveThrew | ReserveAnswered(result: ReserveResult)

  function MappingKey(key: ParsedKey, client: Option<string>): Option<IdempotencyKey> {
    if key.KeyValid? then Some(IdempotencyKey(if client.Some? then client.value else "legacy", key.key)) else None
  }

  predicate ValidReservation(tokens: int, upperBound: int) {
    IsSafeNat(tokens) && IsSafeNat(upperBound) && tokens <= upperBound
  }

  function NewEntry(tokens: nat, upperBound: nat, key: Option<IdempotencyKey>, remaining: int): Entry {
    Entry(Reserved, tokens, upperBound, tokens, key, None, None, None,
          RpcResults(ReserveOk(remaining - tokens), false, false, None, false, false))
  }

  function Enter(s: Ledger, id: RequestId, e: Entry): (r: Ledger)
    ensures Follows(s, r)
  {
    s.(entries := s.entries[id := e],
       idempotency := if e.idempotency.Some? then s.idempotency[e.idempotency.value := id] else s.idempotency)
  }

  /** The id whose entry answers a reserve call: the mapped one unless it was released. */
  function AnsweringId(s: Ledger, id: RequestId, key: Option<IdempotencyKey>): RequestId {
    if key.Some? && key.value in s.idempotency then
      var mapped := s.idempotency[key.value];
      if mapped in s.entries && s.entries[mapped].state.Released? then id else mapped
    else id
  }

  ghost function Reserve(
    s: Ledger, id: RequestId, tokens: int, upperBound: int, key: ParsedKey, client: Option<string>
  ): (r: (Ledger, ReserveAnswer))
    ensures Follows(s, r.0)
  {
    if !ValidReservation(tokens, upperBound) || key.KeyInvalid? then (s, ReserveThrew)
    else
      var mk := MappingKey(key, client);
      var target := AnsweringId(s, id, mk);
      if target in s.entries then
        var e := s.entries[target];
        if mk.Some? && mk.value in s.idempotency && !e.state.Released? && s.idempotency[mk.value] != id then
          (s, ReserveAnswered(DuplicateIdempotencyKey(target)))
        else if e.tokens != tokens || e.upperBoundTokens != upperBound then (s, ReserveThrew)
        else (s, ReserveAnswered(e.results.reserve))
      else if s.finalized then (s, ReserveAnswered(InsufficientQuota(0)))
      else if !HasCapacity(tokens, upperBound, Remaining(s), s.cfg.limit) then
        (s, ReserveAnswered(InsufficientQuota(Remaining(s))))
      else
        var e := NewEntry(tokens, upperBound, mk, Remaining(s));
        (Enter(s, id, e), ReserveAnswered(e.results.reserve))
  }

  // ------------------------------------------------------------ relay grants

  datatype RelayCode =
    | InvalidRequest | InvalidContext | InternalError | EnvironmentMismatch | DuplicateKey
    | GrantTerminalized | GrantReplayed | QuotaInsufficient | WorkerConcurrency
    | GrantNotFound | GrantExpired | LeaseLost

  /**
   * `wellFormed` stands for the strict parse of context and metadata, `digestMatches` for the
   * SHA-256 comparison of a present key with the signed hash.
   */
  datatype AdmitInput = AdmitInput(
    requestId: RequestId, environment: Environment, clientId: string, idempotencyKeyHash: Option<string>,
    nonce: string, contextIssuedAtMs: int, contextExpiresAtMs: int, metadata: Metadata, wellFormed: bool,
    rawKey: ParsedKey, digestMatches: bool,
    reservedTokens: int, upperBoundTokens: int, maxOutputTokens: int, cacheEnabled: bool)

  datatype AdmitResult = Admitted(grant: Grant) | AdmitDenied(code: RelayCode)

  predicate KeyBindingConsistent(input: AdmitInput) {
    if input.idempotencyKeyHash.None? then input.rawKey.KeyAbsent?
    else input.rawKey.KeyValid? && input.digestMatches
  }

  predicate ValidBudget(input: AdmitInput) {
    ValidReservation(input.reservedTokens, input.upperBoundTokens) && IsSafeNat(input.maxOutputTokens)
  }

  function AdmissionOf(input: AdmitInput): Admission
    requires ValidBudget(input)
  {
    Admission(input.contextIssuedAtMs, input.contextExpiresAtMs, input.metadata,
              input.reservedTokens, input.upperBoundTokens, input.maxOutputTokens, input.cacheEnabled)
  }

  predicate MatchesAdmission(g: Grant, input: AdmitInput)
    requires ValidBudget(input)
  {
    g.clientId == input.clientId && g.idempotencyKeyHash == input.idempotencyKeyHash && g.nonce == input.nonce
    && g.admission == AdmissionOf(input)
  }

  function NewGrant(cfg: Config, input: AdmitInput, leaseGeneration: nat, grantId: nat, nowMs: int): Grant
    requires ValidBudget(input)
  {
    Grant(grantId, leaseGeneration, input.environment, input.clientId, input.idempotencyKeyHash, input.nonce,
          input.metadata.model, cfg.pool, cfg.utcDay, Authorized, nowMs,
          nowMs + AUTHORIZATION_TTL_MS, nowMs + CREDENTIAL_TTL_MS, AdmissionOf(input), None, None)
  }

  /** The checks that come before any record of the request itself is read. */
  function AdmissionPrecheck(s: Ledger, input: AdmitInput): Option<RelayCode> {
    if !input.wellFormed then Some(InvalidRequest)
    else if input.requestId in s.fences then Some(InvalidContext)
    else if !ValidBudget(input) then Some(InternalError)
    else if input.rawKey.KeyInvalid? then Some(InvalidRequest)
    else if s.cfg.environment.None? then Some(InternalError)
    else if input.environment != s.cfg.environment.value then Some(EnvironmentMismatch)
    else if !KeyBindingConsistent(input) then Some(InvalidRequest)
    else
      var mk := MappingKey(input.rawKey, Some(input.clientId));
      if mk.Some? && mk.value in s.idempotency && s.idempotency[mk.value] != input.requestId
         && !(s.idempotency[mk.value] in s.entries && s.entries[s.idempotency[mk.value]].state.Released?)
      then Some(DuplicateKey)
      else None
  }

  /** The answer to an admission whose request already has an entry. */
  function AdmissionReplay(s: Ledger, input: AdmitInput): AdmitResult
    requires ValidBudget(input)
  {
    if input.requestId !in s.grants || !MatchesAdmission(s.grants[input.requestId], input) then AdmitDenied(InvalidRequest)
    else
      var g := s.grants[input.requestId];
      if g.state.Authorized? then Admitted(g)
      else if IsTerminalGrant(g.state) then AdmitDenied(GrantTerminalized)
      else AdmitDenied(GrantReplayed)
  }

  /** The writes of an admission: entry, mapping, lease and grant, over the pruned lease list. */
  ghost function CommitAdmission(s: Ledger, input: AdmitInput, active: seq<Lease>, nowMs: int): (r: (Ledger, AdmitResult))
    requires ValidBudget(input)
    ensures Follows(s, r.0)
  {
    var mk := MappingKey(input.rawKey, Some(input.clientId));
    var entry := NewEntry(input.reservedTokens, input.upperBoundTokens, mk, Remaining(s));
    var grant := NewGrant(s.cfg, input, s.nextUuid, s.nextUuid + 1, nowMs);
    var lease := Lease(input.requestId, s.nextUuid, nowMs + DEFAULT_LEASE_TTL_MS);
    (Enter(s, input.requestId, entry)
       .(leases := active + [lease],
         grants := s.grants[input.requestId := grant],
         nextUuid := s.nextUuid + 2),
     Admitted(grant))
  }

  /** Admission once the prechecks passed: replay, or capacity and concurrency and then the writes. */
  ghost function AdmitChecked(s: Ledger, input: AdmitInput, nowMs: int): (r: (Ledger, AdmitResult))
    requires ValidBudget(input)
    ensures Follows(s, r.0)
  {
    if input.requestId in s.entries then (s, AdmissionReplay(s, input))
    else if s.finalized then (s, AdmitDenied(QuotaInsufficient))
    else if !HasCapacity(input.reservedTokens, input.upperBoundTokens, Remaining(s), s.cfg.limit) then
      (s, AdmitDenied(QuotaInsufficient))
    else
      var active := Active(s.leases, nowMs);
      if |active| >= s.cfg.maxInFlight then (s.(leases := active), AdmitDenied(WorkerConcurrency))
      else CommitAdmission(s, input, active, nowMs)
  }

  ghost function AdmitRelay(s: Ledger, input: AdmitInput, nowMs: int): (r: (Ledger, AdmitResult))
    ensures Follows(s, r.0)
  {
    var denied := AdmissionPrecheck(s, input);
    if denied.Some? then (s, AdmitDenied(denied.value)) else AdmitChecked(s, input, nowMs)
  }

  /** The immutable claims of a grant credential. */
  datatype Claims = Claims(
    requestId: RequestId, grantId: nat, leaseGeneration: nat, environment: Environment, clientId: string,
    idempotencyKeyHash: Option<string>, nonce: string, model: string, pool: PoolName, admissionUtcDay: string,
    issuedAtMs: int, expiresAtMs: int)

  datatype Binding = Binding(requestId: RequestId, grantId: nat, leaseGeneration: nat, claims: Claims)

  function ClaimsOf(id: RequestId, g: Grant): Claims {
    Claims(id, g.grantId, g.leaseGeneration, g.environment, g.clientId, g.idempotencyKeyHash, g.nonce, g.model,
           g.pool, g.admissionUtcDay, g.issuedAtMs, g.credentialExpiresAtMs)
  }

  predicate BindingMismatch(cfg: Config, g: Grant, b: Binding) {
    b.grantId != g.grantId || b.leaseGeneration != g.leaseGeneration
    || b.claims != ClaimsOf(b.requestId, g) || g.pool != cfg.pool || g.admissionUtcDay != cfg.utcDay
  }

  predicate Bound(s: Ledger, b: Binding) {
    b.requestId in s.grants && !BindingMismatch(s.cfg, s.grants[b.requestId], b)
  }

  /** Applies a transition, gives the grant's lease back and writes the grant's new state. */
  function CloseGrant(s: Ledger, id: RequestId, t: Transition, g: Grant, next: Grant, nowMs: int): (r: Ledger)
    ensures Follows(s, r)
  {
    var s1 := ReleaseInFlight(Apply(s, id, t), id, Some(g.leaseGeneration), nowMs);
    s1.(grants := s1.grants[id := next])
  }

  /** `expireAttemptedGrant`: an attempted grant whose authorization ran out keeps its tokens as uncertain. */
  function ExpireAttempted(s: Ledger, id: RequestId, g: Grant, nowMs: int): (r: Ledger)
    ensures Follows(s, r)
  {
    CloseGrant(s, id, ToUncertain, g, g.(state := GrantUncertain), nowMs)
  }

  datatype ActivateResult = Activated(grant: Grant) | ActivateDenied(code: RelayCode)

  function ActivateRelay(s: Ledger, b: Binding, nowMs: int): (r: (Ledger, ActivateResult))
    ensures Follows(s, r.0)
  {
    if !Bound(s, b) then (s, ActivateDenied(GrantNotFound))
    else
      var id, g := b.requestId, s.grants[b.requestId];
      if nowMs >= g.credentialExpiresAtMs then (s, ActivateDenied(GrantExpired))
      else if IsTerminalGrant(g.state) then (s, ActivateDenied(GrantTerminalized))
      else if g.state.Attempted? || g.state.GrantUncertain? then (s, ActivateDenied(GrantReplayed))
      else if nowMs >= g.authorizationExpiresAtMs then
        (CloseGrant(s, id, ToReleased, g, g.(state := GrantReleased), nowMs), ActivateDenied(GrantExpired))
      else if id !in s.entries || !s.entries[id].state.Reserved? then (s, ActivateDenied(GrantNotFound))
      else
        var lease := FindLease(Active(s.leases, nowMs), id);
        if lease.None? || lease.value.generation != g.leaseGeneration then (s, ActivateDenied(LeaseLost))
        else
          var activated := g.(state := Attempted);
          (s.(grants := s.grants[id := activated]), Activated(activated))
  }

  datatype RenewResult = Renewed(grant: Grant, leaseExpiresAtMs: int) | RenewDenied(code: RelayCode)

  /** Every lease for `id` moved to a new expiry. */
  function ExtendAll(leases: seq<Lease>, id: RequestId, expiresAtMs: int): seq<Lease> {
    if leases == [] then []
    else
      [if leases[0].requestId == id then leases[0].(expiresAtMs := expiresAtMs) else leases[0]]
      + ExtendAll(leases[1..], id, expiresAtMs)
  }

  function RenewRelay(s: Ledger, b: Binding, nowMs: int): (r: (Ledger, RenewResult))
    ensures Follows(s, r.0)
  {
    if !Bound(s, b) then (s, RenewDenied(GrantNotFound))
    else
      var id, g := b.requestId, s.grants[b.requestId];
      if nowMs >= g.credentialExpiresAtMs then (s, RenewDenied(GrantExpired))
      else if IsTerminalGrant(g.state) || g.state.GrantUncertain? then (s, RenewDenied(GrantTerminalized))
      else if !g.state.Attempted? then (s, RenewDenied(InvalidRequest))
      else if nowMs >= g.authorizationExpiresAtMs then (ExpireAttempted(s, id, g, nowMs), RenewDenied(GrantExpired))
      else if id !in s.entries || !s.entries[id].state.Reserved? then (s, RenewDenied(InvalidRequest))
      else
        var active := Active(s.leases, nowMs);
        var lease := FindLease(active, id);
        if lease.None? || lease.value.generation != g.leaseGeneration then
          (s.(leases := active), RenewDenied(LeaseLost))
        else
          var expiresAtMs := nowMs + DEFAULT_LEASE_TTL_MS;
          (s.(leases := ExtendAll(active, id, expiresAtMs)), Renewed(g, expiresAtMs))
  }

  datatype FinishResult = Accepted(grant: Grant, entry: Entry) | FinishDenied(code: RelayCode, state: Option<GrantState>)

  /** What `parseRelayTerminal` accepts: a settle names a safe total, the other outcomes name none. */
  predicate WellFormedReport(r: TerminalReport) {
    if r.outcome.SettleOutcome? then r.totalTokens.Some? && IsSafeNat(r.totalTokens.value) else r.totalTokens.None?
  }

  function TransitionOf(r: TerminalReport): Transition
    requires WellFormedReport(r)
  {
    match r.outcome
    case SettleOutcome => ToSettled(r.totalTokens.value)
    case UncertainOutcome => ToUncertain
    case ReleaseOutcome => ToReleased
  }

  function GrantStateOf(o: TerminalOutcome): GrantState {
    match o
    case SettleOutcome => GrantSettled
    case UncertainOutcome => GrantUncertain
    case ReleaseOutcome => GrantReleased
  }

  function FinishRelay(s: Ledger, b: Binding, report: TerminalReport, fingerprint: string, nowMs: int): (r: (Ledger, FinishResult))
    ensures Follows(s, r.0)
  {
    if !WellFormedReport(report) || report.grantId != b.grantId || report.leaseGeneration != b.leaseGeneration
       || |fingerprint| == 0 || |fingerprint| > MAX_FINGERPRINT_BYTES
    then (s, FinishDenied(InvalidRequest, None))
    else if !Bound(s, b) then (s, FinishDenied(GrantNotFound, None))
    else
      var id, g := b.requestId, s.grants[b.requestId];
      if nowMs >= g.credentialExpiresAtMs then (s, FinishDenied(GrantExpired, Some(g.state)))
      else if IsTerminalGrant(g.state) then
        if g.terminalFingerprint == Some(fingerprint) then
          if id in s.entries then (s, Accepted(g, s.entries[id])) else (s, FinishDenied(InvalidRequest, Some(g.state)))
        else (s, FinishDenied(GrantTerminalized, Some(g.state)))
      else if report.outcome.ReleaseOutcome? && !g.state.Authorized? then
        if g.state.Attempted? && nowMs >= g.authorizationExpiresAtMs then
          (ExpireAttempted(s, id, g, nowMs), FinishDenied(InvalidRequest, Some(GrantUncertain)))
        else (s, FinishDenied(InvalidRequest, Some(g.state)))
      else if report.outcome.SettleOutcome? && g.state.Authorized? then (s, FinishDenied(InvalidRequest, Some(g.state)))
      else if id !in s.entries then (s, FinishDenied(InvalidRequest, Some(g.state)))
      else
        var finished := g.(state := GrantStateOf(report.outcome), terminalReport := Some(report), terminalFingerprint := Some(fingerprint));
        var s1 := CloseGrant(s, id, TransitionOf(report), g, finished, nowMs);
        (s1, Accepted(finished, s1.entries[id]))
  }

  // --------------------------------------------------- reconcile and finalize

  function DispositionName(d: Disposition): string {
    if d.Consumed? then "consumed" else "unused"
  }

  /** `terminalizeGrantOnReconcile`. */
  function TerminalizeGrant(s: Ledger, id: RequestId, d: Disposition, nowMs: int): (r: Ledger)
    ensures Follows(s, r)
  {
    if id !in s.grants || IsTerminalGrant(s.grants[id].state) then s
    else
      var g := s.grants[id];
      var s1 := ReleaseInFlight(s, id, Some(g.leaseGeneration), nowMs);
      s1.(grants := s1.grants[id :=
        g.(state := if d.Consumed? then ReconciledConsumed else ReconciledUnused,
           terminalReport := None, terminalFingerprint := Some(DispositionName(d)))])
  }

  /** True when a reconcile call would move tokens, that is, answers `applied` for the first time. */
  predicate Reconcilable(s: Ledger, id: RequestId) {
    id in s.entries && !s.entries[id].results.reconcile && IsLive(s.entries[id].state)
  }

  function Reconcile(s: Ledger, id: RequestId, d: Disposition, nowMs: int): (r: (Ledger, bool))
    ensures Follows(s, r.0)
  {
    if Reconcilable(s, id) then (TerminalizeGrant(Apply(s, id, ToReconciled(d)), id, d, nowMs), true)
    else (s, id in s.entries && s.entries[id].results.reconcile)
  }

  /** The flag transaction of `finalizeDay`: nothing may be reserved or uncertain. */
  ghost function FinalizeMark(s: Ledger): (r: (Ledger, bool))
    ensures Follows(s, r.0) && SameRecords(s, r.0)
  {
    if Sum(s.entries, UncertainCount) > 0 || Sum(s.entries, ReservedCount) > 0 then (s, false)
    else (s.(finalized := true, pendingDeletes := s.pendingDeletes + 1), true)
  }

  /**
   * `deleteAll`: identifiers handed out before stay used, and other finalizers under way stay so.
   */
  function FinalizeDelete(s: Ledger): (r: Ledger)
    ensures SameObject(s, r)
  {
    Fresh(s.cfg).(
      nextUuid := s.nextUuid, pendingDeletes := if s.pendingDeletes == 0 then 0 else s.pendingDeletes - 1)
  }

  // ---------------------------------------------------------------- CPU gate

  datatype Inspection =
    | Absent(fenced: bool)
    | NonFixture
    | FixtureSeen(state: GrantState, requestState: RequestState, activeLease: bool)

  predicate IsCanonicalFixture(cfg: Config, g: Grant, e: Entry) {
    cfg.fixture.Some?
    && g.clientId == cfg.fixture.value.clientId && g.model == cfg.fixture.value.model
    && g.pool == cfg.pool && g.admissionUtcDay == cfg.utcDay && g.idempotencyKeyHash.None?
    && g.admission.reservedTokens == 0 && g.admission.upperBoundTokens == 0 && g.admission.maxOutputTokens == 0
    && !g.admission.cacheEnabled
    && g.admission.metadata == Metadata(g.admission.metadata.model, 0, 0, 0, 0, false, false)
    && e.idempotency.None? && e.tokens == 0 && e.upperBoundTokens == 0 && e.reservedTokens == 0
  }

  predicate HasActiveLease(s: Ledger, id: RequestId, generation: nat, nowMs: int) {
    exists l :: l in Active(s.leases, nowMs) && l.requestId == id && l.generation == generation
  }

  function Inspect(s: Ledger, id: RequestId, nowMs: int): Inspection {
    if id !in s.grants && id !in s.entries then Absent(id in s.fences)
    else if id !in s.grants || id !in s.entries || !IsCanonicalFixture(s.cfg, s.grants[id], s.entries[id]) then NonFixture
    else
      FixtureSeen(s.grants[id].state, s.entries[id].state,
                  HasActiveLease(s, id, s.grants[id].leaseGeneration, nowMs))
  }

  datatype FenceResult = Fenced | FenceFixture | FenceNonFixture

  function Fence(s: Ledger, id: RequestId, nowMs: int): (r: (Ledger, FenceResult))
    ensures Follows(s, r.0) && SameRecords(s, r.0)
  {
    match Inspect(s, id, nowMs)
    case FixtureSeen(_, _, _) => (s, FenceFixture)
    case NonFixture => (s, FenceNonFixture)
    case Absent(fenced) => (if fenced then s else s.(fences := s.fences + {id}), Fenced)
  }
}
