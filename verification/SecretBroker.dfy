/** The secret leases of private_shield/secret_broker.py.

What the outside decides comes with each call: the clock, the new lease identifier, the bytes that material and
arguments encode to (or none, if encoding them raises), and what the adapter does. Times are in microseconds. Every
receipt is appended to the audit chain of the shield.

An execution is two steps, up to the call of the adapter and from its return on, so that other calls, of the adapter
itself or of other threads, can come between. */
module SecretBroker {
  import opened Common
  import opened SecretOutput
  import opened HashChain
  import AuditChain
  import JsonValues
  import Policy

  type Instant = int

  datatype Lease = Lease(
    leaseId: string, secretRef: string, subject: string, purpose: string, expiresAt: Instant, maxUses: int)

  datatype LeaseRecord = LeaseRecord(
    lease: Lease, material: Bytes, capabilityIds: seq<string>, risk: real, remainingUses: int, revoked: bool)

  type Evidence = AuditChain.Evidence

  // What an adapter does when it is called: it raises an Exception, it raises something else such as SystemExit, or it
  // returns an object of a heap.
  datatype Outcome = Raised | Interrupted | Returned(heap: Heap, value: Ref)

  // A call of an adapter that has not come back.
  datatype Pending = Pending(record: LeaseRecord, input: Bytes, now: Instant)

  // Something execute took a use for; `ran` says whether the adapter was called.
  datatype Use = Use(leaseId: string, purpose: string, material: Bytes, at: Instant, ran: bool)

  datatype Error =
    | BadReference | MaterialNotEncodable | EmptyMaterial | EmptyPurpose | AlreadyRegistered
    | BadTtl | BadMaxUses | NoAdapter | SecretNotFound
    | UnknownLease | WrongPurpose | AdapterGone | Revoked | Expired | Exhausted
    | ArgumentsNotEncodable | AdapterFailed | AdapterInterrupted
    | OutputNotEncodable | OutputTooLarge | Blocked(fault: Fault)

  datatype Answer =
    Done | Granted(lease: Lease) | NotAllowed | Calling(pending: Pending) | Output(value: Ref) | Failed(error: Error)

  // `encode` is _evidence_bytes of an adapter's result, none where it raises as for an integer of too many digits;
  // `utf8` is the encoding of a purpose; `crypto` and `forms` belong to the audit chain, whose receipts get the
  // identifiers `receiptId` one after the other.
  datatype Env = Env(
    encode: (Heap, Ref) -> Option<Bytes>, utf8: string -> Bytes, fn: Policy.SegmentMatcher,
    crypto: Crypto<AuditChain.Receipt>, forms: AuditChain.Forms, receiptId: nat -> string)

  // `receipts` is what has been handed over to the audit chain, and `chain` that chain.  `uses`, `pending`, `authorized`
  // and `escaped` are history: the uses taken, the adapters in progress, the authorizations made, and the calls of
  // adapters that ended without a receipt.
  datatype State = State(
    secrets: map<string, Bytes>, leases: map<string, LeaseRecord>, adapters: set<string>, receipts: seq<Evidence>,
    chain: AuditChain.Chain, uses: seq<Use>, pending: seq<Pending>, authorized: nat, escaped: nat)

  datatype Terms = Terms(
    subject: string, secretRef: string, purpose: string, identityVerified: bool, project: Policy.ProjectPolicy,
    agentGrants: seq<Policy.Grant>, risk: Policy.RiskVector, humanApproved: bool, now: Instant, ttl: int, maxUses: int,
    freshId: string)

  // Begin and Finish are the two steps of an execution.
  datatype Call =
    | Register(secretRef: string, material: Option<Bytes>)
    | RegisterAdapter(purpose: string)
    | RequestLease(terms: Terms)
    | Begin(leaseId: string, purpose: string, now: Instant, arguments: Option<Bytes>)
    | Finish(index: nat, outcome: Outcome)
    | Revoke(leaseId: string)

  const SECRET_PREFIX := "secret://"
  const MAX_TTL := 300
  const MAX_USES := 10
  const MAX_OUTPUT_BYTES := 1_048_576
  const MICROSECONDS := 1_000_000

  // ----- Steps -----

  function Init(): State {
    State(map[], map[], {}, [], [], [], [], 0, 0)
  }

  function RegisterStep(s: State, secretRef: string, material: Option<Bytes>): (State, Answer) {
    if !(SECRET_PREFIX <= secretRef) then (s, Failed(BadReference))
    else if material.None? then (s, Failed(MaterialNotEncodable))
    else if material.value == [] then (s, Failed(EmptyMaterial))
    else (s.(secrets := s.secrets[secretRef := material.value]), Done)
  }

  function RegisterAdapterStep(s: State, purpose: string): (State, Answer) {
    if purpose == "" then (s, Failed(EmptyPurpose))
    else if purpose in s.adapters then (s, Failed(AlreadyRegistered))
    else (s.(adapters := s.adapters + {purpose}), Done)
  }

  // The request a lease is authorized by, and its consumption recorded under.
  function UseOf(subject: string, secretRef: string): Policy.Request {
    Policy.Request(subject, "secret.use", secretRef, "", "sandbox", None, None, None, None)
  }

  function SecretUse(t: Terms): Policy.Request {
    UseOf(t.subject, t.secretRef)
  }

  function Surroundings(env: Env, t: Terms): Policy.Context {
    Policy.Context(t.identityVerified, t.project, t.agentGrants, [], t.humanApproved, t.now, env.fn)
  }

  ghost function Decided(env: Env, t: Terms): Policy.PolicyDecision {
    Policy.Evaluated(SecretUse(t), Surroundings(env, t), t.risk.Maximum())
  }

  function NewRecord(t: Terms, material: Bytes, decision: Policy.PolicyDecision): LeaseRecord {
    LeaseRecord(
      Lease(t.freshId, t.secretRef, t.subject, t.purpose, t.now + t.ttl * MICROSECONDS, t.maxUses),
      material, decision.capabilityIds, decision.risk, t.maxUses, false)
  }

  ghost function RequestStep(env: Env, s: State, t: Terms): (State, Answer) {
    if !(1 <= t.ttl <= MAX_TTL) then (s, Failed(BadTtl))
    else if !(1 <= t.maxUses <= MAX_USES) then (s, Failed(BadMaxUses))
    else if t.purpose !in s.adapters then (s, Failed(NoAdapter))
    else DecidedStep(env, s, t, Decided(env, t))
  }

  // The receipt the audit chain adds.
  function NextReceipt(env: Env, chain: AuditChain.Chain, e: Evidence): Entry<AuditChain.Receipt> {
    Sealed(env.crypto, AuditChain.Recorded(env.forms, env.receiptId(|chain|), e),
           JsonValues.Json.Text(Head(AuditChain.GENESIS_HASH, chain)))
  }

  function RecordedIn(env: Env, s: State, e: Evidence): State {
    s.(receipts := s.receipts + [e], chain := s.chain + [NextReceipt(env, s.chain, e)])
  }

  // After the policy engine has decided: the receipt, and the lease if there is one.
  function DecidedStep(env: Env, s: State, t: Terms, decision: Policy.PolicyDecision): (State, Answer) {
    var receipt := AuditChain.Evidence(SecretUse(t), decision, env.utf8(t.purpose), [], t.now);
    IssueStep(RecordedIn(env, s, receipt).(authorized := s.authorized + 1), t, decision)
  }

  // After the receipt: the lease, if the decision allows it and the secret is there.
  function IssueStep(s: State, t: Terms, decision: Policy.PolicyDecision): (State, Answer) {
    if !decision.decision.Allow? then (s, NotAllowed)
    else if t.secretRef !in s.secrets then (s, Failed(SecretNotFound))
    else
      var record := NewRecord(t, s.secrets[t.secretRef], decision);
      (s.(leases := s.leases[t.freshId := record]), Granted(record.lease))
  }

  function RevokedIn(s: State, leaseId: string): State
    requires leaseId in s.leases
  {
    s.(leases := s.leases[leaseId := s.leases[leaseId].(revoked := true)])
  }

  function BeginStep(s: State, c: Call): (State, Answer)
    requires c.Begin?
  {
    if c.leaseId !in s.leases then (s, Failed(UnknownLease))
    else
      var r := s.leases[c.leaseId];
      if r.lease.purpose != c.purpose then (s, Failed(WrongPurpose))
      else if c.purpose !in s.adapters then (s, Failed(AdapterGone))
      else if r.revoked then (s, Failed(Revoked))
      else if c.now >= r.lease.expiresAt then (RevokedIn(s, c.leaseId), Failed(Expired))
      else if r.remainingUses <= 0 then (RevokedIn(s, c.leaseId), Failed(Exhausted))
      else
        var spent := r.(remainingUses := r.remainingUses - 1, revoked := r.remainingUses - 1 == 0);
        var taken := s.(
          leases := s.leases[c.leaseId := spent],
          uses := s.uses + [Use(c.leaseId, c.purpose, r.material, c.now, c.arguments.Some?)]);
        if c.arguments.None? then (taken, Failed(ArgumentsNotEncodable))
        else
          var p := Pending(spent, c.arguments.value, c.now);
          (taken.(pending := s.pending + [p]), Calling(p))
  }

  function Consumption(p: Pending, output: Bytes, success: bool): Evidence {
    AuditChain.Evidence(
      UseOf(p.record.lease.subject, p.record.lease.secretRef),
      Policy.PolicyDecision(
        if success then Policy.Allow else Policy.Deny,
        [if success then "leased_secret_consumed" else "leased_secret_operation_blocked"],
        p.record.capabilityIds, p.record.risk),
      p.input, output, p.now)
  }

  // What is wrong with an adapter's result.
  function OutputError(env: Env, heap: Heap, value: Ref, material: Bytes): Option<Error> {
    var inspected := Inspected(heap, material, value);
    var encoded := env.encode(heap, value);
    if inspected.Err? then Some(Blocked(inspected.error))
    else if encoded.None? then Some(OutputNotEncodable)
    else if |encoded.value| > MAX_OUTPUT_BYTES then Some(OutputTooLarge)
    else if Contains(encoded.value, material) then Some(Blocked(RawSecret))
    else None
  }

  // The handler around the inspection names the broker's own errors; these three come from Python.
  predicate Unhandled(error: Error) {
    error in {Blocked(NotEncodable), Blocked(NotReadable), OutputNotEncodable}
  }

  // The texts recorded in place of what an adapter raised or returned.
  const ADAPTER_ERROR: string := "trusted-adapter-error"
  const BLOCKED_OUTPUT: string := "blocked-secret-reflection-or-output-type"

  // The receipt, if any, and the answer once the adapter has come back.
  function Concluded(env: Env, p: Pending, outcome: Outcome): (Option<Evidence>, Answer) {
    match outcome
    case Raised => (Some(Consumption(p, env.utf8(ADAPTER_ERROR), false)), Failed(AdapterFailed))
    case Interrupted => (None, Failed(AdapterInterrupted))
    case Returned(heap, value) =>
      match OutputError(env, heap, value, p.record.material)
      case None => (Some(Consumption(p, env.encode(heap, value).GetOr([]), true)), Output(value))
      case Some(error) =>
        if Unhandled(error) then (None, Failed(error))
        else (Some(Consumption(p, env.utf8(BLOCKED_OUTPUT), false)), Failed(error))
  }

  function FinishStep(env: Env, s: State, index: nat, outcome: Outcome): (State, Answer)
    requires index < |s.pending|
  {
    var (receipt, answer) := Concluded(env, s.pending[index], outcome);
    var back := s.(pending := s.pending[..index] + s.pending[index + 1..]);
    if receipt.Some? then (RecordedIn(env, back, receipt.value), answer)
    else (back.(escaped := s.escaped + 1), answer)
  }

  // An execution during which nothing else happens.
  function ExecuteStep(env: Env, s: State, c: Call, outcome: Outcome): (State, Answer)
    requires c.Begin?
  {
    var (t, answer) := BeginStep(s, c);
    if answer.Calling? then FinishStep(env, t, |t.pending| - 1, outcome) else (t, answer)
  }

  function RevokeStep(s: State, leaseId: string): (State, Answer) {
    if leaseId in s.leases then (RevokedIn(s, leaseId), Done) else (s, Done)
  }

  // A new lease has an identifier of its own, and only an adapter in progress comes back.
  predicate Possible(s: State, c: Call) {
    && (c.RequestLease? ==> c.terms.freshId !in s.leases)
    && (c.Finish? ==> c.index < |s.pending|)
  }

  ghost function Step(env: Env, s: State, c: Call): (State, Answer)
    requires Possible(s, c)
  {
    match c
    case Register(secretRef, material) => RegisterStep(s, secretRef, material)
    case RegisterAdapter(purpose) => RegisterAdapterStep(s, purpose)
    case RequestLease(terms) => RequestStep(env, s, terms)
    case Begin(_, _, _, _) => BeginStep(s, c)
    case Finish(index, outcome) => FinishStep(env, s, index, outcome)
    case Revoke(leaseId) => RevokeStep(s, leaseId)
  }

  // The state after an interleaving of any number of calls, if every one of them was possible.
  ghost function Run(env: Env, s: State, calls: seq<Call>): Option<State> {
    if calls == [] then Some(s)
    else
      var before, last := Run(env, s, calls[..|calls| - 1]), calls[|calls| - 1];
      if before.Some? && Possible(before.value, last) then Some(Step(env, before.value, last).0) else None
  }

  // ----- What every run keeps -----

  function UsesOf(uses: seq<Use>, leaseId: string): seq<Use> {
    if uses == [] then []
    else
      UsesOf(uses[..|uses| - 1], leaseId) + if uses[|uses| - 1].leaseId == leaseId then [uses[|uses| - 1]] else []
  }

  // How often an adapter was called.
  function Runs(uses: seq<Use>): nat {
    if uses == [] then 0 else Runs(uses[..|uses| - 1]) + if uses[|uses| - 1].ran then 1 else 0
  }

  predicate UseFits(u: Use, r: LeaseRecord) {
    && u.leaseId == r.lease.leaseId && u.purpose == r.lease.purpose && u.at < r.lease.expiresAt
    && u.material == r.material
  }

  // Uses taken and uses left add up, and every use was for the lease's purpose and before it expired.
  predicate RecordKept(s: State, leaseId: string)
    requires leaseId in s.leases
  {
    var r, taken := s.leases[leaseId], UsesOf(s.uses, leaseId);
    && r.lease.leaseId == leaseId && r.lease.purpose in s.adapters && r.material != []
    && 1 <= r.lease.maxUses <= MAX_USES && 0 <= r.remainingUses
    && |taken| + r.remainingUses == r.lease.maxUses
    && (r.remainingUses == 0 ==> r.revoked)
    && (forall i :: 0 <= i < |taken| ==> UseFits(taken[i], r))
  }

  // An adapter in progress works with its lease's secret.
  predicate PendingKept(s: State, p: Pending) {
    var leaseId := p.record.lease.leaseId;
    && leaseId in s.leases && s.leases[leaseId].lease == p.record.lease && s.leases[leaseId].material == p.record.material
    && p.now < p.record.lease.expiresAt
  }

  // Every authorization and every adapter that came back left a receipt, save those that escaped.
  predicate ReceiptsAddUp(s: State) {
    |s.receipts| + s.escaped + |s.pending| == s.authorized + Runs(s.uses)
  }

  predicate Kept(s: State) {
    && (forall k :: k in s.secrets ==> s.secrets[k] != [])
    && (forall leaseId :: leaseId in s.leases ==> RecordKept(s, leaseId))
    && (forall i :: 0 <= i < |s.uses| ==> s.uses[i].leaseId in s.leases)
    && (forall i :: 0 <= i < |s.pending| ==> PendingKept(s, s.pending[i]))
    && ReceiptsAddUp(s)
  }

  lemma UsesOfMore(uses: seq<Use>, u: Use, leaseId: string)
    ensures UsesOf(uses + [u], leaseId) == UsesOf(uses, leaseId) + if u.leaseId == leaseId then [u] else []
    ensures Runs(uses + [u]) == Runs(uses) + if u.ran then 1 else 0
  {
    assert (uses + [u])[..|uses|] == uses;
  }

  lemma {:induction false} UnusedLease(uses: seq<Use>, leaseId: string)
    requires forall i :: 0 <= i < |uses| ==> uses[i].leaseId != leaseId
    ensures UsesOf(uses, leaseId) == []
  {
    if uses != [] { UnusedLease(uses[..|uses| - 1], leaseId); }
  }

  // A record without uses, as request_lease makes it.
  predicate Unused(r: LeaseRecord, leaseId: string) {
    && r.lease.leaseId == leaseId && r.material != [] && 1 <= r.remainingUses == r.lease.maxUses <= MAX_USES
  }

  // A receipt for an authorization at most, one new lease at most, and more adapters or secrets.
  predicate Grows(s: State, t: State, freshId: string) {
    && t.uses == s.uses && t.pending == s.pending && s.adapters <= t.adapters && t.escaped == s.escaped
    && |t.receipts| - |s.receipts| == t.authorized - s.authorized
    && (forall k :: k in t.secrets ==> t.secrets[k] != [])
    && s.leases.Keys <= t.leases.Keys
    && (forall k :: k in s.leases ==> t.leases[k] == s.leases[k])
    && (forall k :: k in t.leases && k !in s.leases ==>
          k == freshId && Unused(t.leases[k], k) && t.leases[k].lease.purpose in t.adapters)
  }

  lemma GrowingKeepsRecord(s: State, t: State, freshId: string, k: string)
    requires Kept(s) && Grows(s, t, freshId) && k in t.leases
    ensures RecordKept(t, k)
  {
    if k in s.leases {
      assert RecordKept(s, k);
    } else {
      UnusedLease(s.uses, k);
    }
  }

  lemma GrowingKeeps(s: State, t: State, freshId: string)
    requires Kept(s) && Grows(s, t, freshId)
    ensures Kept(t)
  {
    forall k | k in t.leases ensures RecordKept(t, k) {
      GrowingKeepsRecord(s, t, freshId, k);
    }
    forall i | 0 <= i < |t.pending| ensures PendingKept(t, t.pending[i]) {
      assert PendingKept(s, s.pending[i]);
    }
  }

  lemma RequestGrows(env: Env, s: State, terms: Terms)
    requires terms.freshId !in s.leases && (forall k :: k in s.secrets ==> s.secrets[k] != [])
    ensures Grows(s, RequestStep(env, s, terms).0, terms.freshId)
  {
    if 1 <= terms.ttl <= MAX_TTL && 1 <= terms.maxUses <= MAX_USES && terms.purpose in s.adapters {
      DecidedGrows(env, s, terms, Decided(env, terms));
    }
  }

  lemma DecidedGrows(env: Env, s: State, terms: Terms, decision: Policy.PolicyDecision)
    requires terms.freshId !in s.leases && (forall k :: k in s.secrets ==> s.secrets[k] != [])
    requires 1 <= terms.maxUses <= MAX_USES && terms.purpose in s.adapters
    ensures Grows(s, DecidedStep(env, s, terms, decision).0, terms.freshId)
  {
  }

  lemma RegistrationsGrow(s: State, secretRef: string, material: Option<Bytes>, purpose: string)
    requires forall k :: k in s.secrets ==> s.secrets[k] != []
    ensures Grows(s, RegisterStep(s, secretRef, material).0, "") && Grows(s, RegisterAdapterStep(s, purpose).0, "")
  {
  }

  // The call takes a use.
  predicate Takes(s: State, c: Call)
    requires c.Begin?
  {
    && c.leaseId in s.leases && s.leases[c.leaseId].lease.purpose == c.purpose && c.purpose in s.adapters
    && !s.leases[c.leaseId].revoked && c.now < s.leases[c.leaseId].lease.expiresAt && s.leases[c.leaseId].remainingUses > 0
  }

  function UseTaken(s: State, c: Call): Use
    requires c.Begin? && c.leaseId in s.leases
  {
    Use(c.leaseId, c.purpose, s.leases[c.leaseId].material, c.now, c.arguments.Some?)
  }

  // What the first step of an execution changes.
  predicate Effect(s: State, c: Call, t: State)
    requires c.Begin?
  {
    && t.secrets == s.secrets && t.adapters == s.adapters && t.leases.Keys == s.leases.Keys
    && t.receipts == s.receipts && t.authorized == s.authorized && t.escaped == s.escaped
    && (forall k :: k in s.leases && k != c.leaseId ==> t.leases[k] == s.leases[k])
    && t.uses == s.uses + (if Takes(s, c) then [UseTaken(s, c)] else [])
    && (c.leaseId in s.leases ==>
          var r, r' := s.leases[c.leaseId], t.leases[c.leaseId];
          if Takes(s, c) then r' == r.(remainingUses := r.remainingUses - 1, revoked := r.remainingUses == 1)
          else r' == r || r' == r.(revoked := true))
    && t.pending == s.pending + if Takes(s, c) && c.arguments.Some?
                                then [Pending(t.leases[c.leaseId], c.arguments.value, c.now)] else []
  }

  lemma BeginHasEffect(s: State, c: Call)
    requires c.Begin?
    ensures Effect(s, c, BeginStep(s, c).0)
  {
    var t := BeginStep(s, c).0;
    assert s.uses + [] == s.uses && s.pending + [] == s.pending;
  }

  lemma EffectOnUses(s: State, c: Call, t: State, leaseId: string)
    requires c.Begin? && Effect(s, c, t)
    ensures UsesOf(t.uses, leaseId) == UsesOf(s.uses, leaseId) +
                                       if Takes(s, c) && leaseId == c.leaseId then [UseTaken(s, c)] else []
    ensures Runs(t.uses) == Runs(s.uses) + if Takes(s, c) && c.arguments.Some? then 1 else 0
  {
    if Takes(s, c) {
      UsesOfMore(s.uses, UseTaken(s, c), leaseId);
    } else {
      assert t.uses == s.uses;
    }
  }

  lemma EffectKeepsRecord(s: State, c: Call, t: State, leaseId: string)
    requires c.Begin? && Effect(s, c, t) && leaseId in s.leases && RecordKept(s, leaseId)
    ensures RecordKept(t, leaseId)
  {
    EffectOnUses(s, c, t, leaseId);
  }

  lemma EffectKeepsPending(s: State, c: Call, t: State, i: nat)
    requires c.Begin? && Effect(s, c, t) && i < |t.pending| && (c.leaseId in s.leases ==> RecordKept(s, c.leaseId))
    requires forall j :: 0 <= j < |s.pending| ==> PendingKept(s, s.pending[j])
    ensures PendingKept(t, t.pending[i])
  {
    if i < |s.pending| {
      assert t.pending[i] == s.pending[i];
    }
  }

  lemma EffectKeeps(s: State, c: Call, t: State)
    requires c.Begin? && Effect(s, c, t) && Kept(s)
    ensures Kept(t)
  {
    forall leaseId | leaseId in t.leases ensures RecordKept(t, leaseId) {
      EffectKeepsRecord(s, c, t, leaseId);
    }
    forall i | 0 <= i < |t.pending| ensures PendingKept(t, t.pending[i]) {
      EffectKeepsPending(s, c, t, i);
    }
    EffectOnUses(s, c, t, c.leaseId);
  }

  // What the second step changes: the adapter is no longer in progress, and there is a receipt or an escape.
  predicate Back(s: State, t: State, index: nat)
    requires index < |s.pending|
  {
    && t.secrets == s.secrets && t.adapters == s.adapters && t.leases == s.leases && t.uses == s.uses
    && t.authorized == s.authorized && t.pending == s.pending[..index] + s.pending[index + 1..]
    && |t.receipts| + t.escaped == |s.receipts| + s.escaped + 1
  }

  lemma FinishGoesBack(env: Env, s: State, index: nat, outcome: Outcome)
    requires index < |s.pending|
    ensures Back(s, FinishStep(env, s, index, outcome).0, index)
  {
  }

  lemma BackKeeps(s: State, t: State, index: nat)
    requires index < |s.pending| && Back(s, t, index) && Kept(s)
    ensures Kept(t)
  {
    forall leaseId | leaseId in t.leases ensures RecordKept(t, leaseId) {
      assert RecordKept(s, leaseId);
    }
    forall i | 0 <= i < |t.pending| ensures PendingKept(t, t.pending[i]) {
      assert t.pending[i] == s.pending[if i < index then i else i + 1];
    }
  }

  lemma RevokeKeeps(s: State, leaseId: string)
    requires Kept(s)
    ensures Kept(RevokeStep(s, leaseId).0)
  {
    var t := RevokeStep(s, leaseId).0;
    forall k | k in t.leases ensures RecordKept(t, k) {
      assert RecordKept(s, k);
    }
    forall i | 0 <= i < |t.pending| ensures PendingKept(t, t.pending[i]) {
      assert PendingKept(s, s.pending[i]);
    }
  }

  lemma {:induction false} StepKeeps(env: Env, s: State, c: Call)
    requires Kept(s) && Possible(s, c)
    ensures Kept(Step(env, s, c).0)
  {
    match c
    case Register(secretRef, material) =>
      RegistrationsGrow(s, secretRef, material, "");
      GrowingKeeps(s, RegisterStep(s, secretRef, material).0, "");
    case RegisterAdapter(purpose) =>
      RegistrationsGrow(s, "", None, purpose);
      GrowingKeeps(s, RegisterAdapterStep(s, purpose).0, "");
    case RequestLease(terms) =>
      RequestGrows(env, s, terms);
      GrowingKeeps(s, RequestStep(env, s, terms).0, terms.freshId);
    case Begin(_, _, _, _) =>
      BeginHasEffect(s, c);
      EffectKeeps(s, c, BeginStep(s, c).0);
    case Finish(index, outcome) =>
      FinishGoesBack(env, s, index, outcome);
      BackKeeps(s, FinishStep(env, s, index, outcome).0, index);
    case Revoke(leaseId) => RevokeKeeps(s, leaseId);
  }

  lemma {:induction false} EveryRunIsKept(env: Env, calls: seq<Call>)
    requires Run(env, Init(), calls).Some?
    ensures Kept(Run(env, Init(), calls).value)
  {
    if calls != [] {
      var front := calls[..|calls| - 1];
      EveryRunIsKept(env, front);
      StepKeeps(env, Run(env, Init(), front).value, calls[|calls| - 1]);
    }
  }

  lemma {:induction false} RunsAtMostUses(uses: seq<Use>)
    ensures Runs(uses) <= |uses|
  {
    if uses != [] { RunsAtMostUses(uses[..|uses| - 1]); }
  }

  // In every run, however executions overlap, the adapter of a lease is called at most max_uses times, with the leased
  // secret, for the lease's own purpose and before the lease expires.
  lemma {:induction false} LeaseIsBounded(env: Env, calls: seq<Call>, leaseId: string)
    requires Run(env, Init(), calls).Some? && leaseId in Run(env, Init(), calls).value.leases
    ensures
      var s := Run(env, Init(), calls).value;
      var r, taken := s.leases[leaseId], UsesOf(s.uses, leaseId);
      && Runs(taken) <= |taken| == r.lease.maxUses - r.remainingUses <= r.lease.maxUses <= MAX_USES
      && forall i :: 0 <= i < |taken| ==>
           taken[i].purpose == r.lease.purpose && taken[i].at < r.lease.expiresAt && taken[i].material == r.material
  {
    var s := Run(env, Init(), calls).value;
    EveryRunIsKept(env, calls);
    assert RecordKept(s, leaseId);
    RunsAtMostUses(UsesOf(s.uses, leaseId));
    var r, taken := s.leases[leaseId], UsesOf(s.uses, leaseId);
    forall i | 0 <= i < |taken| ensures UseFits(taken[i], r) {
    }
  }

  // In every run, receipts and escapes together are as many as authorizations and calls of adapters that have come
  // back.
  lemma {:induction false} ReceiptsAreComplete(env: Env, calls: seq<Call>)
    requires Run(env, Init(), calls).Some?
    ensures ReceiptsAddUp(Run(env, Init(), calls).value)
  {
    EveryRunIsKept(env, calls);
  }

  // ----- The audit chain -----

  function Bodies(env: Env, receipts: seq<Evidence>): (bodies: seq<AuditChain.Receipt>)
    ensures |bodies| == |receipts|
    ensures forall i :: 0 <= i < |bodies| ==>
              bodies[i] == AuditChain.Recorded(env.forms, env.receiptId(i), receipts[i])
  {
    seq(|receipts|, i requires 0 <= i < |receipts| => AuditChain.Recorded(env.forms, env.receiptId(i), receipts[i]))
  }

  // The chain is the one that appending these receipts builds.
  predicate Chained(env: Env, s: State) {
    |s.chain| == |s.receipts| && s.chain == AuditChain.Built(env.crypto, Bodies(env, s.receipts))
  }

  lemma RecordingKeepsChained(env: Env, s: State, e: Evidence)
    requires Chained(env, s)
    ensures Chained(env, RecordedIn(env, s, e))
  {
    var bodies := Bodies(env, s.receipts + [e]);
    assert bodies[..|s.receipts|] == Bodies(env, s.receipts);
  }

  // Receipts and chain stay as they are, or one receipt is added to both.
  ghost predicate Appends(env: Env, s: State, t: State) {
    || (t.receipts == s.receipts && t.chain == s.chain)
    || exists e: Evidence :: RecordsOne(env, s, t, e)
  }

  predicate RecordsOne(env: Env, s: State, t: State, e: Evidence) {
    t.receipts == s.receipts + [e] && t.chain == s.chain + [NextReceipt(env, s.chain, e)]
  }

  lemma AppendingKeepsChained(env: Env, s: State, t: State)
    requires Chained(env, s) && Appends(env, s, t)
    ensures Chained(env, t) && s.receipts <= t.receipts && s.chain <= t.chain
  {
    if t.receipts != s.receipts {
      var e: Evidence :| RecordsOne(env, s, t, e);
      RecordingKeepsChained(env, s, e);
    }
  }

  lemma DecidedAppends(env: Env, s: State, terms: Terms, decision: Policy.PolicyDecision)
    ensures Appends(env, s, DecidedStep(env, s, terms, decision).0)
  {
    var receipt := AuditChain.Evidence(SecretUse(terms), decision, env.utf8(terms.purpose), [], terms.now);
    assert RecordsOne(env, s, DecidedStep(env, s, terms, decision).0, receipt);
  }

  lemma FinishAppends(env: Env, s: State, index: nat, outcome: Outcome)
    requires index < |s.pending|
    ensures Appends(env, s, FinishStep(env, s, index, outcome).0)
  {
    var receipt := Concluded(env, s.pending[index], outcome).0;
    if receipt.Some? { assert RecordsOne(env, s, FinishStep(env, s, index, outcome).0, receipt.value); }
  }

  lemma BeginAppends(env: Env, s: State, c: Call)
    requires c.Begin?
    ensures Appends(env, s, BeginStep(s, c).0)
  {
  }

  lemma StepAppends(env: Env, s: State, c: Call)
    requires Possible(s, c)
    ensures Appends(env, s, Step(env, s, c).0)
  {
    match c
    case RequestLease(terms) => DecidedAppends(env, s, terms, Decided(env, terms));
    case Begin(_, _, _, _) => BeginAppends(env, s, c);
    case Finish(index, outcome) => FinishAppends(env, s, index, outcome);
    case _ =>
  }

  lemma StepKeepsChained(env: Env, s: State, c: Call)
    requires Possible(s, c) && Chained(env, s)
    ensures Chained(env, Step(env, s, c).0)
    ensures s.receipts <= Step(env, s, c).0.receipts && s.chain <= Step(env, s, c).0.chain
  {
    StepAppends(env, s, c);
    AppendingKeepsChained(env, s, Step(env, s, c).0);
  }

  lemma {:induction false} EveryRunIsChained(env: Env, calls: seq<Call>)
    requires Run(env, Init(), calls).Some?
    ensures Chained(env, Run(env, Init(), calls).value)
  {
    if calls != [] {
      var front := calls[..|calls| - 1];
      EveryRunIsChained(env, front);
      StepKeepsChained(env, Run(env, Init(), front).value, calls[|calls| - 1]);
    }
  }

  lemma {:induction false} RunOnlyAppends(env: Env, calls: seq<Call>, n: nat)
    requires n <= |calls| && Run(env, Init(), calls).Some?
    ensures Run(env, Init(), calls[..n]).Some?
    ensures Run(env, Init(), calls[..n]).value.chain <= Run(env, Init(), calls).value.chain
    decreases |calls|
  {
    if n == |calls| {
      assert calls[..n] == calls;
    } else {
      var front := calls[..|calls| - 1];
      assert front[..n] == calls[..n];
      RunOnlyAppends(env, front, n);
      EveryRunIsChained(env, front);
      StepKeepsChained(env, Run(env, Init(), front).value, calls[|calls| - 1]);
    }
  }

  lemma ChainedIsVerified(env: Env, s: State)
    requires Chained(env, s)
    ensures AuditChain.Verified(env.crypto, s.chain)
  {
    var bodies := Bodies(env, s.receipts);
    AuditChain.BuiltChainsVerify(env.crypto, bodies, |bodies|);
    assert AuditChain.Built(env.crypto, bodies)[..|bodies|] == AuditChain.Built(env.crypto, bodies);
  }

  // In every interleaving the audit chain verifies and holds one receipt for everything handed over, in order; and what
  // it was at any time is a prefix of it: no receipt is taken back, changed or put in between.
  lemma {:induction false} EveryRunLeavesVerifiedChain(env: Env, calls: seq<Call>, n: nat)
    requires n <= |calls| && Run(env, Init(), calls).Some?
    ensures Run(env, Init(), calls[..n]).Some?
    ensures
      var before, after := Run(env, Init(), calls[..n]).value, Run(env, Init(), calls).value;
      && AuditChain.Verified(env.crypto, after.chain) && before.chain <= after.chain
      && |after.chain| == |after.receipts|
      && forall i :: 0 <= i < |after.chain| ==>
           after.chain[i].body == AuditChain.Recorded(env.forms, env.receiptId(i), after.receipts[i])
  {
    var after := Run(env, Init(), calls).value;
    RunOnlyAppends(env, calls, n);
    EveryRunIsChained(env, calls);
    ChainedIsVerified(env, after);
    BuiltHolds(env.crypto, Bodies(env, after.receipts));
  }

  lemma {:induction false} BuiltHolds(c: Crypto<AuditChain.Receipt>, bodies: seq<AuditChain.Receipt>)
    ensures |AuditChain.Built(c, bodies)| == |bodies|
    ensures forall i :: 0 <= i < |bodies| ==> AuditChain.Built(c, bodies)[i].body == bodies[i]
  {
    if bodies != [] { BuiltHolds(c, bodies[..|bodies| - 1]); }
  }

  // Two runs whose chains end in one hash have recorded the same, receipt by receipt, unless the chains collide or come
  // back to the genesis hash.
  lemma {:induction false} LastHashTellsRuns(env: Env, calls: seq<Call>, calls': seq<Call>)
    requires Run(env, Init(), calls).Some? && Run(env, Init(), calls').Some?
    requires
      var chain, chain' := Run(env, Init(), calls).value.chain, Run(env, Init(), calls').value.chain;
      && NoCollision(chain, chain') && AuditChain.NoneIsGenesis(chain) && AuditChain.NoneIsGenesis(chain')
      && Head(AuditChain.GENESIS_HASH, chain) == Head(AuditChain.GENESIS_HASH, chain')
    ensures
      var receipts, receipts' := Run(env, Init(), calls).value.receipts, Run(env, Init(), calls').value.receipts;
      |receipts| == |receipts'| && Bodies(env, receipts) == Bodies(env, receipts')
  {
    var s, s' := Run(env, Init(), calls).value, Run(env, Init(), calls').value;
    EveryRunIsChained(env, calls);
    EveryRunIsChained(env, calls');
    ChainedIsVerified(env, s);
    ChainedIsVerified(env, s');
    AuditChain.LastHashIdentifies(env.crypto, s.chain, s'.chain);
    SameChainSameBodies(env, s, s');
  }

  lemma SameChainSameBodies(env: Env, s: State, s': State)
    requires Chained(env, s) && Chained(env, s') && s.chain == s'.chain
    ensures Bodies(env, s.receipts) == Bodies(env, s'.receipts)
  {
    BuiltHolds(env.crypto, Bodies(env, s.receipts));
    BuiltHolds(env.crypto, Bodies(env, s'.receipts));
  }

  // ----- The end of a lease -----

  predicate Ended(s: State, leaseId: string) {
    leaseId in s.leases && s.leases[leaseId].revoked
  }

  lemma EndedStepStays(env: Env, s: State, c: Call, leaseId: string)
    requires Ended(s, leaseId) && Possible(s, c)
    ensures Ended(Step(env, s, c).0, leaseId)
    ensures UsesOf(Step(env, s, c).0.uses, leaseId) == UsesOf(s.uses, leaseId)
  {
    match c
    case Begin(_, _, _, _) =>
      BeginHasEffect(s, c);
      EffectOnUses(s, c, BeginStep(s, c).0, leaseId);
    case RequestLease(terms) => RequestKeepsLeases(env, s, terms, leaseId);
    case _ =>
  }

  lemma RequestKeepsLeases(env: Env, s: State, terms: Terms, leaseId: string)
    requires leaseId in s.leases && terms.freshId !in s.leases
    ensures
      var t := RequestStep(env, s, terms).0;
      leaseId in t.leases && t.leases[leaseId] == s.leases[leaseId] && t.uses == s.uses
  {
    DecisionKeepsLeases(env, s, terms, Decided(env, terms), leaseId);
  }

  lemma DecisionKeepsLeases(env: Env, s: State, terms: Terms, decision: Policy.PolicyDecision, leaseId: string)
    requires leaseId in s.leases && terms.freshId !in s.leases
    ensures
      var t := DecidedStep(env, s, terms, decision).0;
      leaseId in t.leases && t.leases[leaseId] == s.leases[leaseId] && t.uses == s.uses
  {
  }

  // A lease that has ended takes no more uses, whatever is called and whatever the clock says.
  lemma {:induction false} EndedForever(env: Env, s: State, calls: seq<Call>, leaseId: string)
    requires Ended(s, leaseId) && Run(env, s, calls).Some?
    ensures Ended(Run(env, s, calls).value, leaseId)
    ensures UsesOf(Run(env, s, calls).value.uses, leaseId) == UsesOf(s.uses, leaseId)
    decreases |calls|
  {
    if calls != [] {
      var front := calls[..|calls| - 1];
      EndedForever(env, s, front, leaseId);
      EndedStepStays(env, Run(env, s, front).value, calls[|calls| - 1], leaseId);
    }
  }

  // The three ends: revocation, an expiry that was noticed, and the last use.
  lemma WhatEnds(env: Env, s: State, c: Call, leaseId: string)
    requires Kept(s) && Possible(s, c) && leaseId in s.leases && !Ended(s, leaseId)
    ensures
      var (t, answer) := Step(env, s, c);
      Ended(t, leaseId) <==>
        || c == Revoke(leaseId)
        || (c.Begin? && c.leaseId == leaseId && answer == Failed(Expired))
        || |UsesOf(t.uses, leaseId)| == s.leases[leaseId].lease.maxUses
  {
    assert RecordKept(s, leaseId);
    match c
    case Begin(_, _, _, _) => BeginEnds(s, c, leaseId);
    case RequestLease(terms) => RequestKeepsLeases(env, s, terms, leaseId);
    case _ =>
  }

  lemma BeginEnds(s: State, c: Call, leaseId: string)
    requires c.Begin? && leaseId in s.leases && RecordKept(s, leaseId) && !Ended(s, leaseId)
    ensures
      var (t, answer) := BeginStep(s, c);
      Ended(t, leaseId) <==>
        || (c.leaseId == leaseId && answer == Failed(Expired))
        || |UsesOf(t.uses, leaseId)| == s.leases[leaseId].lease.maxUses
  {
    var (t, answer) := BeginStep(s, c);
    BeginHasEffect(s, c);
    EffectOnUses(s, c, t, leaseId);
    ExpiredOnlyUntaken(s, c);
  }

  lemma ExpiredOnlyUntaken(s: State, c: Call)
    requires c.Begin?
    ensures
      var (t, answer) := BeginStep(s, c);
      && (Takes(s, c) ==> answer != Failed(Expired))
      && (c.leaseId in s.leases && !Takes(s, c) && RecordKept(s, c.leaseId) && !Ended(s, c.leaseId) ==>
            (Ended(t, c.leaseId) <==> answer == Failed(Expired)))
  {
  }

  // After a call that ends the lease, no run of later calls uses it, even if the clock goes back.
  lemma NoUseAfterTheEnd(env: Env, s: State, c: Call, later: seq<Call>, leaseId: string)
    requires Possible(s, c) && Run(env, Step(env, s, c).0, later).Some? && leaseId in s.leases
    requires c == Revoke(leaseId) || (c.Begin? && c.leaseId == leaseId && Step(env, s, c).1 == Failed(Expired))
    ensures UsesOf(Run(env, Step(env, s, c).0, later).value.uses, leaseId) == UsesOf(s.uses, leaseId)
  {
    EndsWithoutUse(env, s, c, leaseId);
    EndedForever(env, Step(env, s, c).0, later, leaseId);
  }

  lemma EndsWithoutUse(env: Env, s: State, c: Call, leaseId: string)
    requires Possible(s, c) && leaseId in s.leases
    requires c == Revoke(leaseId) || (c.Begin? && c.leaseId == leaseId && BeginStep(s, c).1 == Failed(Expired))
    ensures Ended(Step(env, s, c).0, leaseId)
    ensures UsesOf(Step(env, s, c).0.uses, leaseId) == UsesOf(s.uses, leaseId)
  {
    if c.Begin? {
      BeginHasEffect(s, c);
      ExpiredOnlyUntaken(s, c);
      EffectOnUses(s, c, BeginStep(s, c).0, leaseId);
    }
  }

  // ----- One request -----

  // A lease is granted exactly within the bounds, for a registered purpose and secret, to an authorized and approved
  // request for secret.use; a receipt with the decision is written whenever the policy engine was asked, also when no
  // secret is found.
  lemma GrantedIff(env: Env, s: State, terms: Terms)
    ensures
      var (t, answer) := RequestStep(env, s, terms);
      var asked := 1 <= terms.ttl <= 300 && 1 <= terms.maxUses <= 10 && terms.purpose in s.adapters;
      var use := Policy.Request(terms.subject, "secret.use", terms.secretRef, "", "sandbox", None, None, None, None);
      var x := Policy.Context(terms.identityVerified, terms.project, terms.agentGrants, [], terms.humanApproved, terms.now,
                              env.fn);
      && (answer.Granted? <==>
            && asked && terms.secretRef in s.secrets
            && Policy.Authorized(use, x, terms.risk.Maximum()) && Policy.Approved(use, x, terms.risk.Maximum()))
      && (asked ==>
            && |t.receipts| == |s.receipts| + 1 && t.receipts[..|s.receipts|] == s.receipts
            && t.receipts[|s.receipts|].decision == Decided(env, terms)
            && t.receipts[|s.receipts|].request == SecretUse(terms))
      && (!asked ==> t == s)
      && (t.leases != s.leases ==> answer.Granted?)
  {
    Policy.DecisionIff(SecretUse(terms), Surroundings(env, terms), terms.risk.Maximum());
    RecordedIff(env, s, terms, Decided(env, terms));
  }

  lemma RecordedIff(env: Env, s: State, terms: Terms, decision: Policy.PolicyDecision)
    ensures
      var (t, answer) := DecidedStep(env, s, terms, decision);
      && (answer.Granted? <==> decision.decision.Allow? && terms.secretRef in s.secrets)
      && |t.receipts| == |s.receipts| + 1 && t.receipts[..|s.receipts|] == s.receipts
      && t.receipts[|s.receipts|].decision == decision && t.receipts[|s.receipts|].request == SecretUse(terms)
      && (t.leases != s.leases ==> answer.Granted?)
  {
  }

  // What has been granted: a lease on these terms, good for `ttl` seconds from now, over the material registered now.
  predicate IsOnTerms(r: LeaseRecord, terms: Terms, material: Bytes) {
    && r.lease.leaseId == terms.freshId && r.lease.secretRef == terms.secretRef && r.lease.subject == terms.subject
    && r.lease.purpose == terms.purpose && r.lease.expiresAt == terms.now + terms.ttl * 1_000_000
    && r.lease.maxUses == terms.maxUses && r.material == material
  }

  lemma GrantedIsOnTerms(env: Env, s: State, terms: Terms)
    requires RequestStep(env, s, terms).1.Granted?
    ensures
      var (t, answer) := RequestStep(env, s, terms);
      && terms.freshId in t.leases && terms.secretRef in s.secrets
      && var r := t.leases[terms.freshId];
      && answer.lease == r.lease && IsOnTerms(r, terms, s.secrets[terms.secretRef])
      && r.remainingUses == terms.maxUses && !r.revoked
      && r.capabilityIds == Decided(env, terms).capabilityIds && r.risk == Decided(env, terms).risk
      && (forall k :: k in t.leases && k != terms.freshId ==> k in s.leases && t.leases[k] == s.leases[k])
      && t.secrets == s.secrets && t.adapters == s.adapters && t.uses == s.uses && t.pending == s.pending
  {
    IssuedIsOnTerms(env, s, terms, Decided(env, terms));
  }

  lemma IssuedIsOnTerms(env: Env, s: State, terms: Terms, decision: Policy.PolicyDecision)
    requires DecidedStep(env, s, terms, decision).1.Granted?
    ensures
      var (t, answer) := DecidedStep(env, s, terms, decision);
      && terms.freshId in t.leases && terms.secretRef in s.secrets
      && var r := t.leases[terms.freshId];
      && answer.lease == r.lease && IsOnTerms(r, terms, s.secrets[terms.secretRef])
      && r.remainingUses == terms.maxUses && !r.revoked
      && r.capabilityIds == decision.capabilityIds && r.risk == decision.risk
      && (forall k :: k in t.leases && k != terms.freshId ==> k in s.leases && t.leases[k] == s.leases[k])
      && t.secrets == s.secrets && t.adapters == s.adapters && t.uses == s.uses && t.pending == s.pending
  {
  }

  // Why there is none: the first of these that applies.
  lemma NotGrantedBecause(env: Env, s: State, terms: Terms)
    ensures
      var answer := RequestStep(env, s, terms).1;
      var ttl, uses := 1 <= terms.ttl <= 300, 1 <= terms.maxUses <= 10;
      var asked := ttl && uses && terms.purpose in s.adapters;
      var allowed := Decided(env, terms).decision.Allow?;
      && (answer == Failed(BadTtl) <==> !ttl)
      && (answer == Failed(BadMaxUses) <==> ttl && !uses)
      && (answer == Failed(NoAdapter) <==> ttl && uses && !asked)
      && (answer == NotAllowed <==> asked && !allowed)
      && (answer == Failed(SecretNotFound) <==> asked && allowed && terms.secretRef !in s.secrets)
      && (answer.Granted? <==> asked && allowed && terms.secretRef in s.secrets)
  {
  }

  // What is recorded of a decision: who asked for which secret to do what, the decision, the purpose, and when.
  lemma DecisionIsRecorded(env: Env, s: State, terms: Terms)
    requires 1 <= terms.ttl <= MAX_TTL && 1 <= terms.maxUses <= MAX_USES && terms.purpose in s.adapters
    ensures
      var t := RequestStep(env, s, terms).0;
      t.receipts == s.receipts + [AuditChain.Evidence(
        Policy.Request(terms.subject, "secret.use", terms.secretRef, "", "sandbox", None, None, None, None),
        Decided(env, terms), env.utf8(terms.purpose), [], terms.now)]
  {
  }

  // ----- Where leases come from -----

  // Call `k` of the run was granted the lease of this record.
  ghost predicate GrantedBy(env: Env, calls: seq<Call>, k: nat, r: LeaseRecord) {
    && k < |calls| && calls[k].RequestLease? && Run(env, Init(), calls[..k]).Some?
    && var before, terms := Run(env, Init(), calls[..k]).value, calls[k].terms;
    && Possible(before, calls[k]) && Step(env, before, calls[k]).1 == Granted(r.lease)
    && terms.secretRef in before.secrets && IsOnTerms(r, terms, before.secrets[terms.secretRef])
  }

  ghost predicate AllGranted(env: Env, calls: seq<Call>, s: State) {
    forall leaseId :: leaseId in s.leases ==> exists k :: GrantedBy(env, calls, k, s.leases[leaseId])
  }

  lemma GrantedByMore(env: Env, calls: seq<Call>, more: Call, k: nat, r: LeaseRecord)
    requires GrantedBy(env, calls, k, r)
    ensures GrantedBy(env, calls + [more], k, r)
  {
    assert (calls + [more])[..k] == calls[..k];
  }

  // The lease and its material stay what they were, or the call has just granted them.
  lemma LeaseIsOldOrNew(env: Env, s: State, c: Call, leaseId: string)
    requires Possible(s, c) && leaseId in Step(env, s, c).0.leases
    ensures
      var t := Step(env, s, c).0;
      || (leaseId in s.leases && t.leases[leaseId].lease == s.leases[leaseId].lease &&
          t.leases[leaseId].material == s.leases[leaseId].material)
      || (&& c.RequestLease? && c.terms.freshId == leaseId && c.terms.secretRef in s.secrets
          && Step(env, s, c).1 == Granted(t.leases[leaseId].lease)
          && IsOnTerms(t.leases[leaseId], c.terms, s.secrets[c.terms.secretRef]))
  {
    match c
    case Begin(_, _, _, _) => BeginHasEffect(s, c);
    case Finish(index, outcome) => FinishGoesBack(env, s, index, outcome);
    case RequestLease(terms) =>
      if Step(env, s, c).1.Granted? { GrantedIsOnTerms(env, s, terms); } else { GrantedIff(env, s, terms); }
    case _ =>
  }

  lemma {:induction false} EveryLeaseWasGranted(env: Env, calls: seq<Call>)
    requires Run(env, Init(), calls).Some?
    ensures AllGranted(env, calls, Run(env, Init(), calls).value)
  {
    if calls != [] {
      var front, c := calls[..|calls| - 1], calls[|calls| - 1];
      EveryLeaseWasGranted(env, front);
      assert calls == front + [c];
      GrantsGrow(env, front, c);
    }
  }

  lemma GrantsGrow(env: Env, calls: seq<Call>, c: Call)
    requires Run(env, Init(), calls).Some? && Possible(Run(env, Init(), calls).value, c)
    requires AllGranted(env, calls, Run(env, Init(), calls).value)
    ensures AllGranted(env, calls + [c], Step(env, Run(env, Init(), calls).value, c).0)
  {
    var s := Run(env, Init(), calls).value;
    var t := Step(env, s, c).0;
    forall leaseId | leaseId in t.leases ensures exists k :: GrantedBy(env, calls + [c], k, t.leases[leaseId]) {
      var k := OneGrantGrows(env, calls, c, leaseId);
    }
  }

  lemma OneGrantGrows(env: Env, calls: seq<Call>, c: Call, leaseId: string) returns (k: nat)
    requires Run(env, Init(), calls).Some? && Possible(Run(env, Init(), calls).value, c)
    requires AllGranted(env, calls, Run(env, Init(), calls).value)
    requires leaseId in Step(env, Run(env, Init(), calls).value, c).0.leases
    ensures GrantedBy(env, calls + [c], k, Step(env, Run(env, Init(), calls).value, c).0.leases[leaseId])
  {
    var s := Run(env, Init(), calls).value;
    var r' := Step(env, s, c).0.leases[leaseId];
    LeaseIsOldOrNew(env, s, c, leaseId);
    if leaseId in s.leases && r'.lease == s.leases[leaseId].lease && r'.material == s.leases[leaseId].material {
      k :| GrantedBy(env, calls, k, s.leases[leaseId]);
      GrantedByMore(env, calls, c, k, s.leases[leaseId]);
    } else {
      k := |calls|;
      assert (calls + [c])[..k] == calls && (calls + [c])[k] == c;
    }
  }

  // Every use in a run is of a lease that an earlier call was granted: on the terms of that call, before `ttl` seconds
  // from then, and of the material registered under its reference at that moment.
  lemma {:induction false} EveryUseWasGranted(env: Env, calls: seq<Call>, i: nat) returns (k: nat)
    requires Run(env, Init(), calls).Some? && i < |Run(env, Init(), calls).value.uses|
    ensures k < |calls| && calls[k].RequestLease? && Run(env, Init(), calls[..k]).Some?
    ensures
      var u, terms := Run(env, Init(), calls).value.uses[i], calls[k].terms;
      var before := Run(env, Init(), calls[..k]).value;
      && Possible(before, calls[k]) && Step(env, before, calls[k]).1.Granted?
      && u.leaseId == terms.freshId && u.purpose == terms.purpose && u.at < terms.now + terms.ttl * 1_000_000
      && terms.secretRef in before.secrets && u.material == before.secrets[terms.secretRef]
  {
    var s := Run(env, Init(), calls).value;
    var u := s.uses[i];
    EveryRunIsKept(env, calls);
    EveryLeaseWasGranted(env, calls);
    assert RecordKept(s, u.leaseId);
    UseIsAmong(s.uses, i);
    var j :| 0 <= j < |UsesOf(s.uses, u.leaseId)| && UsesOf(s.uses, u.leaseId)[j] == u;
    assert UseFits(u, s.leases[u.leaseId]);
    k :| GrantedBy(env, calls, k, s.leases[u.leaseId]);
  }

  lemma {:induction false} UseIsAmong(uses: seq<Use>, i: nat)
    requires i < |uses|
    ensures uses[i] in UsesOf(uses, uses[i].leaseId)
  {
    if i < |uses| - 1 { UseIsAmong(uses[..|uses| - 1], i); }
  }

  // ----- Where secrets come from -----

  // A secret is registered exactly under a reference with the right beginning, with material that encodes and is not
  // empty; and nothing else changes.
  lemma RegisteredIff(s: State, secretRef: string, material: Option<Bytes>)
    ensures
      var (t, answer) := RegisterStep(s, secretRef, material);
      var fits := |secretRef| >= 9 && secretRef[..9] == "secret://";
      && (answer == Done <==> fits && material.Some? && material.value != [])
      && (answer == Done ==> t == s.(secrets := s.secrets[secretRef := material.value]))
      && (answer == Failed(BadReference) <==> !fits)
      && (answer == Failed(MaterialNotEncodable) <==> fits && material.None?)
      && (answer == Failed(EmptyMaterial) <==> fits && material == Some([]))
      && (answer != Done ==> t == s)
  {
    assert SECRET_PREFIX <= secretRef <==> |secretRef| >= 9 && secretRef[..9] == "secret://";
  }

  lemma AdapterRegisteredIff(s: State, purpose: string)
    ensures
      var (t, answer) := RegisterAdapterStep(s, purpose);
      && (answer == Done <==> purpose != "" && purpose !in s.adapters)
      && (answer == Failed(EmptyPurpose) <==> purpose == "")
      && (answer == Failed(AlreadyRegistered) <==> purpose != "" && purpose in s.adapters)
      && t == s.(adapters := if answer == Done then s.adapters + {purpose} else s.adapters)
  {
    assert s.(adapters := s.adapters) == s;
  }

  // Revoking ends this lease and touches nothing else.
  lemma RevokedOnly(s: State, leaseId: string)
    ensures
      var (t, answer) := RevokeStep(s, leaseId);
      && answer == Done && t.leases.Keys == s.leases.Keys && t == s.(leases := t.leases)
      && (leaseId in s.leases ==> t.leases[leaseId] == s.leases[leaseId].(revoked := true))
      && (forall k :: k in s.leases && k != leaseId ==> t.leases[k] == s.leases[k])
  {
  }

  // ----- One execution -----

  // What the first step answers: the first of these that applies.
  lemma BeginAnswers(s: State, c: Call)
    requires c.Begin? && Kept(s)
    ensures
      var answer := BeginStep(s, c).1;
      if c.leaseId !in s.leases then answer == Failed(UnknownLease)
      else
        var r := s.leases[c.leaseId];
        if c.purpose != r.lease.purpose then answer == Failed(WrongPurpose)
        else if r.revoked then answer == Failed(Revoked)
        else if r.lease.expiresAt <= c.now then answer == Failed(Expired)
        else if c.arguments.None? then answer == Failed(ArgumentsNotEncodable)
        else
          && answer.Calling? && answer.pending.record == BeginStep(s, c).0.leases[c.leaseId]
          && answer.pending.record.material == r.material
          && answer.pending.input == c.arguments.value && answer.pending.now == c.now
  {
    if c.leaseId in s.leases { assert RecordKept(s, c.leaseId); }
  }

  // The adapter is called exactly for a live lease, its own purpose, before the expiry, with arguments that encode.
  lemma AdapterRunsIff(s: State, c: Call)
    requires c.Begin? && Kept(s)
    ensures
      BeginStep(s, c).1.Calling? <==>
        && c.leaseId in s.leases && s.leases[c.leaseId].lease.purpose == c.purpose
        && !s.leases[c.leaseId].revoked && c.now < s.leases[c.leaseId].lease.expiresAt && c.arguments.Some?
  {
    if c.leaseId in s.leases { assert RecordKept(s, c.leaseId); }
  }

  // Two of the checks never fire: adapters are not removed, and a lease without uses is already revoked.
  lemma UnreachableAnswers(s: State, c: Call)
    requires c.Begin? && Kept(s)
    ensures BeginStep(s, c).1 !in {Failed(AdapterGone), Failed(Exhausted)}
  {
    if c.leaseId in s.leases { assert RecordKept(s, c.leaseId); }
  }

  // An error that no handler of the broker names comes out of the adapter or of the inspection of its result: the
  // adapter is interrupted, the first fault of the result is a text or a view that cannot be turned into bytes, or the
  // result has no fault and encoding it raises.
  predicate Escapes(env: Env, outcome: Outcome, material: Bytes) {
    || outcome.Interrupted?
    || (outcome.Returned? &&
        match Inspected(outcome.heap, material, outcome.value)
        case Err(fault) => fault in {NotEncodable, NotReadable}
        case Ok(_) => env.encode(outcome.heap, outcome.value).None?)
  }

  // An adapter that comes back leaves exactly one receipt, at the end, except when an error escapes; then it leaves
  // none. The receipt says allowed exactly when a value is returned, and names the lease's subject and secret.
  lemma ReceiptsOfFinish(env: Env, s: State, index: nat, outcome: Outcome)
    requires index < |s.pending|
    ensures
      var p := s.pending[index];
      var (t, answer) := FinishStep(env, s, index, outcome);
      if Escapes(env, outcome, p.record.material) then t.receipts == s.receipts && answer.Failed?
      else
        && |t.receipts| == |s.receipts| + 1 && t.receipts[..|s.receipts|] == s.receipts
        && var receipt := t.receipts[|s.receipts|];
        && (receipt.decision.decision == Policy.Allow <==> answer.Output?)
        && receipt.request == UseOf(p.record.lease.subject, p.record.lease.secretRef)
        && receipt.input == p.input && receipt.timestamp == p.now
  {
  }

  // What that receipt says: the lease's subject and secret, ALLOW or DENY with its one reason, the grant's capabilities
  // and risk, what went in, and what came out or the words in its place.
  lemma ConsumptionIsRecorded(env: Env, s: State, index: nat, outcome: Outcome)
    requires index < |s.pending| && !Escapes(env, outcome, s.pending[index].record.material)
    ensures
      var p := s.pending[index];
      var (t, answer) := FinishStep(env, s, index, outcome);
      && |t.receipts| == |s.receipts| + 1
      && var e := t.receipts[|s.receipts|];
      && e.request == Policy.Request(p.record.lease.subject, "secret.use", p.record.lease.secretRef, "", "sandbox",
                                     None, None, None, None)
      && e.decision.capabilityIds == p.record.capabilityIds && e.decision.risk == p.record.risk
      && e.input == p.input && e.timestamp == p.now
      && (answer.Output? ==>
            && outcome.Returned? && e.decision.decision == Policy.Allow
            && e.decision.reasons == ["leased_secret_consumed"]
            && env.encode(outcome.heap, outcome.value) == Some(e.output))
      && (!answer.Output? ==>
            && e.decision.decision == Policy.Deny && e.decision.reasons == ["leased_secret_operation_blocked"]
            && e.output == env.utf8(if outcome.Raised? then "trusted-adapter-error"
                                    else "blocked-secret-reflection-or-output-type"))
  {
  }

  // What the second step answers: the adapter's own failure, the first thing wrong with what it returned, or that.
  lemma FinishAnswers(env: Env, s: State, index: nat, outcome: Outcome)
    requires index < |s.pending|
    ensures
      var material := s.pending[index].record.material;
      var answer := FinishStep(env, s, index, outcome).1;
      match outcome
      case Raised => answer == Failed(AdapterFailed)
      case Interrupted => answer == Failed(AdapterInterrupted)
      case Returned(heap, value) =>
        var inspected, encoded := Inspected(heap, material, value), env.encode(heap, value);
        if inspected.Err? then answer == Failed(Blocked(inspected.error))
        else if encoded.None? then answer == Failed(OutputNotEncodable)
        else if |encoded.value| > 1_048_576 then answer == Failed(OutputTooLarge)
        else if Contains(encoded.value, material) then answer == Failed(Blocked(RawSecret))
        else answer == Output(value)
  {
  }

  // The same of an execution as a whole: one receipt exactly when the adapter was called and no error escaped.
  lemma ReceiptsOfExecute(env: Env, s: State, c: Call, outcome: Outcome)
    requires c.Begin? && Kept(s)
    ensures
      var t := ExecuteStep(env, s, c, outcome).0;
      var ran := BeginStep(s, c).1.Calling?;
      && |t.receipts| == |s.receipts| + (if ran && !Escapes(env, outcome, s.leases[c.leaseId].material) then 1 else 0)
      && t.pending == s.pending
  {
    var (b, answer) := BeginStep(s, c);
    BeginHasEffect(s, c);
    if answer.Calling? {
      var n := |b.pending| - 1;
      assert b.pending[n].record.material == s.leases[c.leaseId].material;
      ReceiptsOfFinish(env, b, n, outcome);
      FinishGoesBack(env, b, n, outcome);
      assert b.pending[..n] + b.pending[n + 1..] == s.pending;
    } else {
      assert s.pending + [] == s.pending;
    }
  }

  // What an execution returns is what the adapter returned: a graph without the secret in any text, key or bytes,
  // within the depth and visit limits, that encodes to few bytes without the secret.
  lemma {:induction false} OutputIff(env: Env, s: State, index: nat, outcome: Outcome, value: Ref)
    requires index < |s.pending|
    ensures
      var material := s.pending[index].record.material;
      FinishStep(env, s, index, outcome).1 == Output(value) <==>
        && outcome.Returned? && outcome.value == value
        && AllFine(outcome.heap, material, value, 33) && Visits(outcome.heap, value, 0) <= 10_000
        && env.encode(outcome.heap, value).Some?
        && |env.encode(outcome.heap, value).value| <= 1_048_576
        && !Contains(env.encode(outcome.heap, value).value, material)
  {
    var p := s.pending[index];
    if outcome.Returned? { NoErrorIff(env, outcome.heap, outcome.value, p.record.material); }
    OnlyAccepted(env, p, outcome, value);
  }

  lemma OnlyAccepted(env: Env, p: Pending, outcome: Outcome, value: Ref)
    ensures Concluded(env, p, outcome).1 == Output(value) <==>
            && outcome.Returned? && outcome.value == value
            && OutputError(env, outcome.heap, outcome.value, p.record.material).None?
  {
  }

  lemma NoErrorIff(env: Env, heap: Heap, value: Ref, material: Bytes)
    ensures OutputError(env, heap, value, material).None? <==>
            && AllFine(heap, material, value, MAX_DEPTH + 1) && Visits(heap, value, 0) <= MAX_VISITS
            && env.encode(heap, value).Some? && |env.encode(heap, value).value| <= MAX_OUTPUT_BYTES
            && !Contains(env.encode(heap, value).value, material)
  {
    AcceptedIff(heap, material, value);
  }

  // Each way to escape is possible for every adapter in progress: it is interrupted, it returns a text with a lone
  // surrogate or a released view, or it returns a plain value that cannot be encoded.
  lemma RunWithoutReceipt(env: Env, s: State, index: nat, outcome: Outcome)
    requires index < |s.pending|
    requires
      || outcome.Interrupted?
      || (outcome.Returned? && outcome.heap(outcome.value) in {Text(None), Binary(None)})
      || (outcome.Returned? && outcome.heap(outcome.value) == Plain && env.encode(outcome.heap, outcome.value).None?)
    ensures
      var t := FinishStep(env, s, index, outcome).0;
      t.receipts == s.receipts && t.escaped == s.escaped + 1
  {
    if outcome.Returned? {
      var child := Child(outcome.value, false);
      var fault := FaultAt(outcome.heap, s.pending[index].record.material, Visit(child, 0, {}), 0);
      assert fault == match outcome.heap(outcome.value)
                      case Text(_) => Some(NotEncodable)
                      case Binary(_) => Some(NotReadable)
                      case _ => None;
      if fault.None? { LeafWalk(outcome.heap, s.pending[index].record.material, child, 0, 0, {}); }
    }
  }

  // ----- The broker -----

  class SecretBroker {
    const env: Env
    var secrets: map<string, Bytes>
    var leases: map<string, LeaseRecord>
    var adapters: set<string>
    const audit: AuditChain.AuditChain
    ghost var receipts: seq<Evidence>
    ghost var uses: seq<Use>
    ghost var pending: seq<Pending>
    ghost var authorized: nat
    ghost var escaped: nat

    ghost function Value(): State
      reads this, audit
    {
      State(secrets, leases, adapters, receipts, audit.receipts, uses, pending, authorized, escaped)
    }

    ghost predicate Valid()
      reads audit
    {
      audit.crypto == env.crypto && audit.forms == env.forms && audit.Valid()
    }

    constructor (env: Env)
      ensures this.env == env && Value() == Init() && Valid() && fresh(audit)
    {
      this.env := env;
      audit := new AuditChain.AuditChain(env.crypto, env.forms);
      secrets, leases, adapters, receipts := map[], map[], {}, [];
      uses, pending, authorized, escaped := [], [], 0, 0;
    }

    method Register(secretRef: string, material: Option<Bytes>) returns (answer: Answer)
      modifies this`secrets
      ensures (Value(), answer) == RegisterStep(old(Value()), secretRef, material)
    {
      if !(SECRET_PREFIX <= secretRef) {
        return Failed(BadReference);
      }
      if material.None? {
        return Failed(MaterialNotEncodable);
      }
      if material.value == [] {
        return Failed(EmptyMaterial);
      }
      secrets := secrets[secretRef := material.value];
      return Done;
    }

    method RegisterAdapter(purpose: string) returns (answer: Answer)
      modifies this`adapters
      ensures (Value(), answer) == RegisterAdapterStep(old(Value()), purpose)
    {
      if purpose == "" {
        return Failed(EmptyPurpose);
      }
      if purpose in adapters {
        return Failed(AlreadyRegistered);
      }
      adapters := adapters + {purpose};
      return Done;
    }

    method RequestLease(terms: Terms) returns (answer: Answer)
      requires Valid()
      modifies this, audit
      ensures Valid()
      ensures (Value(), answer) == RequestStep(env, old(Value()), terms)
    {
      if !(1 <= terms.ttl <= MAX_TTL) {
        return Failed(BadTtl);
      }
      if !(1 <= terms.maxUses <= MAX_USES) {
        return Failed(BadMaxUses);
      }
      if terms.purpose !in adapters {
        return Failed(NoAdapter);
      }
      var decision := Policy.Evaluate(SecretUse(terms), Surroundings(env, terms), terms.risk);
      answer := Grant(terms, decision);
    }

    // From the decision of the policy engine on.
    method Grant(terms: Terms, decision: Policy.PolicyDecision) returns (answer: Answer)
      requires Valid()
      modifies this, audit
      ensures Valid()
      ensures (Value(), answer) == DecidedStep(env, old(Value()), terms, decision)
    {
      Authorize(AuditChain.Evidence(SecretUse(terms), decision, env.utf8(terms.purpose), [], terms.now));
      answer := Issue(terms, decision);
    }

    method Authorize(evidence: Evidence)
      requires Valid()
      modifies this`receipts, this`authorized, audit
      ensures Valid()
      ensures Value() == RecordedIn(env, old(Value()), evidence).(authorized := old(authorized) + 1)
    {
      Record(evidence);
      authorized := authorized + 1;
    }

    method Issue(terms: Terms, decision: Policy.PolicyDecision) returns (answer: Answer)
      modifies this`leases
      ensures (Value(), answer) == IssueStep(old(Value()), terms, decision)
    {
      if !decision.decision.Allow? {
        return NotAllowed;
      }
      if terms.secretRef !in secrets {
        return Failed(SecretNotFound);
      }
      var record := NewRecord(terms, secrets[terms.secretRef], decision);
      leases := leases[terms.freshId := record];
      return Granted(record.lease);
    }

    method Execute(leaseId: string, purpose: string, now: Instant, arguments: Option<Bytes>, outcome: Outcome)
      returns (answer: Answer)
      requires Valid()
      modifies this, audit
      ensures Valid()
      ensures (Value(), answer) == ExecuteStep(env, old(Value()), Call.Begin(leaseId, purpose, now, arguments), outcome)
    {
      answer := Begin(leaseId, purpose, now, arguments);
      if answer.Calling? {
        answer := Finish(|pending| - 1, answer.pending, outcome);
      }
    }

    // Up to the call of the adapter: the checks in their order, and the use, which is taken before the call.
    method Begin(leaseId: string, purpose: string, now: Instant, arguments: Option<Bytes>) returns (answer: Answer)
      modifies this`leases, this`uses, this`pending
      ensures (Value(), answer) == BeginStep(old(Value()), Call.Begin(leaseId, purpose, now, arguments))
    {
      if leaseId !in leases {
        return Failed(UnknownLease);
      }
      var record := leases[leaseId];
      if record.lease.purpose != purpose {
        return Failed(WrongPurpose);
      }
      if purpose !in adapters {
        return Failed(AdapterGone);
      }
      if record.revoked {
        return Failed(Error.Revoked);
      }
      if now >= record.lease.expiresAt {
        leases := leases[leaseId := record.(revoked := true)];
        return Failed(Expired);
      }
      if record.remainingUses <= 0 {
        leases := leases[leaseId := record.(revoked := true)];
        return Failed(Exhausted);
      }
      record := record.(remainingUses := record.remainingUses - 1);
      if record.remainingUses == 0 {
        record := record.(revoked := true);
      }
      leases := leases[leaseId := record];
      uses := uses + [Use(leaseId, purpose, record.material, now, arguments.Some?)];
      if arguments.None? {
        return Failed(ArgumentsNotEncodable);
      }
      var p := Pending(record, arguments.value, now);
      pending := pending + [p];
      return Calling(p);
    }

    // From the return of the adapter to the receipt.
    method Finish(ghost index: nat, p: Pending, outcome: Outcome) returns (answer: Answer)
      requires index < |pending| && pending[index] == p
      requires Valid()
      modifies this`receipts, this`pending, this`escaped, audit
      ensures Valid()
      ensures (Value(), answer) == FinishStep(env, old(Value()), index, outcome)
    {
      var receipt;
      receipt, answer := Conclude(p, outcome);
      pending := pending[..index] + pending[index + 1..];
      if receipt.Some? {
        Record(receipt.value);
      } else {
        escaped := escaped + 1;
      }
    }

    // What there is to record, if anything, and to answer.
    method Conclude(p: Pending, outcome: Outcome) returns (receipt: Option<Evidence>, answer: Answer)
      ensures (receipt, answer) == Concluded(env, p, outcome)
    {
      if outcome.Interrupted? {
        return None, Failed(AdapterInterrupted);
      }
      if outcome.Raised? {
        return Some(Consumption(p, env.utf8(ADAPTER_ERROR), false)), Failed(AdapterFailed);
      }
      var error, encoded := Examine(outcome.heap, outcome.value, p.record.material);
      if error.None? {
        return Some(Consumption(p, encoded, true)), Output(outcome.value);
      }
      if Unhandled(error.value) {
        return None, Failed(error.value);
      }
      return Some(Consumption(p, env.utf8(BLOCKED_OUTPUT), false)), Failed(error.value);
    }

    // Every receipt goes to the audit chain.
    method Record(evidence: Evidence)
      requires Valid()
      modifies this`receipts, audit
      ensures Valid() && receipts == old(receipts) + [evidence]
      ensures audit.receipts == old(audit.receipts) + [NextReceipt(env, old(audit.receipts), evidence)]
    {
      var receipt := audit.Append(env.receiptId(|audit.receipts|), evidence);
      receipts := receipts + [evidence];
    }

    // The inspection of a result, and its encoding.
    method Examine(heap: Heap, value: Ref, material: Bytes) returns (error: Option<Error>, encoded: Bytes)
      ensures error == OutputError(env, heap, value, material)
      ensures error.None? ==> env.encode(heap, value) == Some(encoded)
    {
      var walk := new OutputWalk(heap, material);
      var fault := walk.Walk(value, 0);
      if fault.Some? {
        return Some(Blocked(fault.value)), [];
      }
      var evidence := env.encode(heap, value);
      if evidence.None? {
        return Some(OutputNotEncodable), [];
      }
      encoded := evidence.value;
      if |encoded| > MAX_OUTPUT_BYTES {
        return Some(OutputTooLarge), encoded;
      }
      if Contains(encoded, material) {
        return Some(Blocked(RawSecret)), encoded;
      }
      return None, encoded;
    }

    method Revoke(leaseId: string) returns (answer: Answer)
      modifies this`leases
      ensures (Value(), answer) == RevokeStep(old(Value()), leaseId)
    {
      if leaseId in leases {
        leases := leases[leaseId := leases[leaseId].(revoked := true)];
      }
      return Done;
    }
  }
}
