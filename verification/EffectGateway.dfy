/**
 The effect gateway. A commit runs in stretches of code between awaits; each
 stretch is one function here on the rows and approvals it reads and writes,
 and one method of the class that runs it on the stores in place.
 */
module EffectGateway {
  import opened Prelude
  import opened EffectStore
  import opened CommitRecords
  import A = Approvals
  import Qa = SamplingQa

  datatype Policy = Policy(reversibility: string, approvalClass: string)

  /**
   `verifyToken` answers the claims of a valid token. A missing secret is the empty
   string; without a QA loop there are no policies. `durableStores` says whether
   drafts, approvals and verdicts outlive the process or are kept in its memory.
   */
  datatype Config = Config(
    signingSecret: string, verifyToken: string -> Option<Identity>, effectTypes: map<string, Policy>,
    connectors: set<string>, hasApprovalStore: bool, approvalTimeoutMs: int, hasCommitRecords: bool,
    requestHash: (string, string) -> string, reviewHash: (string, string) -> string,
    qaPolicies: Qa.Policies, durableStores: bool)

  datatype Caller = Caller(
    agentId: Option<string>, identityToken: Option<string>, scopeId: Option<string>,
    correlationId: Option<string>, approvalId: Option<string>)

  /** A commit or discard request; `reason` is read by discards only. */
  datatype Call = Call(ref: string, caller: Option<Caller>, reason: Option<string>)

  datatype Refusal =
    | IdentityNotConfigured | NoCaller | NoToken | BadToken | OtherAgent | OtherScope
    | NotADraftRef | UnknownDraft | AlreadyDiscarded | AlreadyCommitted | Expired | NoPassingEvidence
    | NeedsHuman(problem: A.Problem) | NoConnector | NoReason

  datatype CommitResult =
    | Refused(why: Refusal)
    | ApprovalPending(id: string)
    | CommittedResult(replay: bool, decision: Option<DecisionRecord>, outcome: Option<string>)

  datatype DiscardResult =
    | NotDiscarded(why: Refusal)
    | DiscardedResult(replay: bool, decision: Option<DecisionRecord>)

  /**
   What the code reads in one stretch: clocks, evidence, the types the QA breaker has
   tripped, the samplers, fresh ids.
   */
  datatype Env = Env(
    expiryCheckedAt: int, approvalCheckedAt: int, stampedAt: int,
    resolve: string -> Option<bool>, tripped: set<string>, sampled: bool, freshId: string, reviewSampled: bool)

  const IRREVERSIBLE := "irreversible"
  const ALWAYS_HUMAN := "always_human"
  const SAMPLED := "sampled"
  const DEFAULT_DRAFT_TTL_MS := 24 * 60 * 60 * 1000
  const MAX_DRAFT_TTL_MS := 7 * 24 * 60 * 60 * 1000

  predicate RequiresHumanActor(r: Record) { r.reversibility == IRREVERSIBLE || r.approvalClass == ALWAYS_HUMAN }

  // ---------------------------------------------------------------------
  // draft_effect
  // ---------------------------------------------------------------------

  datatype DraftParams = DraftParams(
    effectType: string, targetSystem: string, payload: string, evidence: seq<string>,
    reversibility: string, idempotencyKey: string, expiry: Option<int>)

  predicate ValidDraft(config: Config, p: DraftParams, now: int) {
    && p.effectType != "" && p.targetSystem != "" && p.reversibility != "" && p.idempotencyKey != ""
    && p.effectType in config.effectTypes
    && p.reversibility == config.effectTypes[p.effectType].reversibility
    && (forall e | e in p.evidence :: e != "")
    && (p.expiry.Some? ==> now < p.expiry.value <= now + MAX_DRAFT_TTL_MS)
  }

  function NewDraft(config: Config, p: DraftParams, caller: Option<Caller>, id: string, now: int): Record
    requires ValidDraft(config, p, now)
  {
    var policy := config.effectTypes[p.effectType];
    var claims := if caller.Some? && config.signingSecret != "" && caller.value.identityToken.Some?
      && caller.value.identityToken.value != ""
                  then config.verifyToken(caller.value.identityToken.value) else None;
    var verified := claims.Some? && (caller.value.agentId.None? || claims.value.agentId == caller.value.agentId.value);
    Record(id,
           if caller.Some? && caller.value.scopeId.Some? then caller.value.scopeId.value else "",
           if caller.Some? && caller.value.correlationId.Some? then caller.value.correlationId.value else "",
           if verified then claims.value.agentId
           else if caller.Some? && caller.value.agentId.Some? then caller.value.agentId.value else "",
           verified, p.effectType, p.targetSystem, p.payload, p.evidence, policy.reversibility, policy.approvalClass,
           p.idempotencyKey, if p.expiry.Some? then p.expiry.value else now + DEFAULT_DRAFT_TTL_MS,
           Draft, now, None, None, None, None)
  }

  /**
   A draft commits nothing and decides nothing about itself: it is undecided, its
   policy is its effect type's, it expires within a week, and its drafter counts
   as verified only by a valid token of the agent it names.
   */
  lemma DraftsAreInert(config: Config, p: DraftParams, caller: Option<Caller>, id: string, now: int)
    requires ValidDraft(config, p, now)
    ensures
      var r := NewDraft(config, p, caller, id, now);
      && r.status.Draft? && r.decisionActor.None? && r.outcome.None? && ToDecisionRecord(r).None?
      && r.reversibility == p.reversibility
        && Policy(r.reversibility, r.approvalClass) == config.effectTypes[p.effectType]
      && now < r.expiry <= now + MAX_DRAFT_TTL_MS
      && (r.drafterVerified ==>
            && config.signingSecret != "" && caller.Some? && caller.value.identityToken.Some?
            && var claims := config.verifyToken(caller.value.identityToken.value);
               claims.Some? && claims.value.agentId == r.drafterAgentId
               && (caller.value.agentId.Some? ==> caller.value.agentId.value == r.drafterAgentId))
  {}

  // ---------------------------------------------------------------------
  // commit_effect, up to the first await
  // ---------------------------------------------------------------------

  datatype Verification = Known(identity: Identity) | Unknown(why: Refusal)

  function VerifiedCaller(config: Config, caller: Option<Caller>): Verification {
    if config.signingSecret == "" then Unknown(IdentityNotConfigured)
    else if caller.None? then Unknown(NoCaller)
    else if caller.value.identityToken.None? || caller.value.identityToken.value == "" then Unknown(NoToken)
    else
      var claims := config.verifyToken(caller.value.identityToken.value);
      if claims.None? then Unknown(BadToken)
      else if caller.value.agentId.Some? && claims.value.agentId != caller.value.agentId.value then Unknown(OtherAgent)
      else if caller.value.scopeId.Some? && claims.value.scopeId != caller.value.scopeId.value then Unknown(OtherScope)
      else Known(claims.value)
  }

  datatype Loaded = Found(record: Record) | Missing(why: Refusal)

  function LoadDraft(rows: seq<Record>, ref: string): Loaded {
    if !(DRAFT_REF_PREFIX <= ref) then Missing(NotADraftRef)
    else
      var r := GetDraft(rows, ParseDraftRef(ref));
      if r.Some? then Found(r.value) else Missing(UnknownDraft)
  }

  function CommittedReplay(r: Record): CommitResult { CommittedResult(true, ToDecisionRecord(r), r.outcome) }

  datatype Begun = AnswerNow(result: CommitResult) | Proceed(record: Record, identity: Identity)

  /** Identity, the draft, and the replays that need nothing but this gateway's own rows. */
  function BeginCommit(config: Config, rows: seq<Record>, call: Call): Begun {
    var caller := VerifiedCaller(config, call.caller);
    if caller.Unknown? then AnswerNow(Refused(caller.why))
    else
      var loaded := LoadDraft(rows, call.ref);
      if loaded.Missing? then AnswerNow(Refused(loaded.why))
      else if loaded.record.status.Committed? then AnswerNow(CommittedReplay(loaded.record))
      else
        var sibling := FindByIdempotencyKey(rows, loaded.record.idempotencyKey);
        if sibling.Some? && sibling.value.status.Committed? then AnswerNow(CommittedReplay(sibling.value))
        else Proceed(loaded.record, caller.identity)
  }

  /**
   Whoever gets past the start of a commit holds a token that verifies under a
   configured secret and speaks for the agent and scope the call names; the draft
   is the one the reference names, and neither it nor a sibling is committed.
   */
  lemma OnlyVerifiedCallersProceed(config: Config, rows: seq<Record>, call: Call)
    ensures
      var begun := BeginCommit(config, rows, call);
      begun.Proceed? ==>
        && config.signingSecret != "" && call.caller.Some? && call.caller.value.identityToken.Some?
        && config.verifyToken(call.caller.value.identityToken.value) == Some(begun.identity)
        && (call.caller.value.agentId.Some? ==> call.caller.value.agentId.value == begun.identity.agentId)
        && (call.caller.value.scopeId.Some? ==> call.caller.value.scopeId.value == begun.identity.scopeId)
        && begun.record in rows && call.ref == DraftRef(begun.record.id)
        && forall r | r in rows && r.idempotencyKey == begun.record.idempotencyKey :: !r.status.Committed?
  {
    var begun := BeginCommit(config, rows, call);
    if begun.Proceed? {
      FindIsCommittedFirst(rows, begun.record.idempotencyKey);
      assert call.ref == DRAFT_REF_PREFIX + call.ref[|DRAFT_REF_PREFIX|..];
    }
  }

  // ---------------------------------------------------------------------
  // From the durable lookup to the connector
  // ---------------------------------------------------------------------

  predicate HasPassingEvidence(record: Record, env: Env) {
    exists e | e in record.evidence :: env.resolve(e) == Some(true)
  }

  /** A human is needed before this commit: by policy, because the QA breaker is tripped, or because it was sampled. */
  predicate NeedsHumanNow(record: Record, env: Env) {
    RequiresHumanActor(record) || record.effectType in env.tripped || (record.approvalClass == SAMPLED && env.sampled)
  }

  function CommitRequest(config: Config, record: Record, env: Env): A.Request {
    A.Request(config.requestHash(DraftRef(record.id), record.correlationId), record.correlationId, A.SERVER_ALIAS,
              A.COMMIT_EFFECT, Some(DraftRef(record.id)), env.freshId, env.approvalCheckedAt, env.stampedAt,
              config.approvalTimeoutMs)
  }

  datatype Gated = AnswerWith(result: CommitResult) | Execute(actor: Actor, used: Option<A.Approval>)

  function Gate(config: Config, approvals: seq<A.Approval>, record: Record, identity: Identity,
      approvalId: Option<string>,
                durable: Option<CommitRecord>, env: Env): (seq<A.Approval>, Gated)
  {
    if durable.Some? then (approvals, AnswerWith(CommittedResult(true, durable.value.decision, durable.value.outcome)))
    else if record.status.Discarded? then (approvals, AnswerWith(Refused(AlreadyDiscarded)))
    else if record.expiry <= env.expiryCheckedAt then (approvals, AnswerWith(Refused(Expired)))
    else if !HasPassingEvidence(record, env) then (approvals, AnswerWith(Refused(NoPassingEvidence)))
    else if NeedsHumanNow(record, env) then
      var (rows, resolution) :=
        A.ResolveCommitApproval(config.hasApprovalStore, approvals, approvalId, DraftRef(record.id),
                                                        CommitRequest(config, record, env));
      match resolution
      case Pending(id) => (rows, AnswerWith(ApprovalPending(id)))
      case Obstacle(problem) => (rows, AnswerWith(Refused(NeedsHuman(problem))))
      case Named(approverId, used) => (rows, Mounted(config, record, Human(approverId), Some(used)))
    else (approvals, Mounted(config, record, Agent(identity), None))
  }

  function Mounted(config: Config, record: Record, actor: Actor, used: Option<A.Approval>): Gated {
    if record.targetSystem in config.connectors then Execute(actor, used) else AnswerWith(Refused(NoConnector))
  }

  /** Everything that has to be true of a commit when its connector is called. */
  ghost predicate Authorised(record: Record, actor: Actor, approvals: seq<A.Approval>, env: Env) {
    && env.expiryCheckedAt < record.expiry
    && HasPassingEvidence(record, env)
    && (NeedsHumanNow(record, env) ==> actor.Human?)
    && (actor.Human? ==> exists a | a in approvals ::
      A.Authorises(a, actor.approverId, A.COMMIT_EFFECT, DraftRef(record.id)))
  }

  /**
   The connector is called only for an authorised commit of an undiscarded draft
   that no durable record covers; the approval a human stands on was in the
   store, and exactly the commits that need no human carry the agent.
   */
  lemma GateIsSound(config: Config, approvals: seq<A.Approval>, record: Record, identity: Identity,
      approvalId: Option<string>,
                    durable: Option<CommitRecord>, env: Env)
    ensures
      var (rows, gated) := Gate(config, approvals, record, identity, approvalId, durable, env);
      gated.Execute? ==>
        && durable.None? && !record.status.Discarded? && record.targetSystem in config.connectors
        && Authorised(record, gated.actor, approvals, env)
        && (gated.actor == Agent(identity) <==> !NeedsHumanNow(record, env))
        && (gated.actor.Human? ==>
              gated.used.Some? && gated.used.value in approvals
              && A.Authorises(gated.used.value, gated.actor.approverId, A.COMMIT_EFFECT, DraftRef(record.id)))
  {
    if NeedsHumanNow(record, env) {
      var q := CommitRequest(config, record, env);
      A.HumanIsAuthorised(A.ByRequestHash(approvals, q.hash), A.COMMIT_EFFECT, DraftRef(record.id));
      if approvalId.Some? {
        A.HumanIsAuthorised(A.Get(approvals, approvalId.value), A.COMMIT_EFFECT, DraftRef(record.id));
      }
    }
  }

  // ---------------------------------------------------------------------
  // After the connector has executed
  // ---------------------------------------------------------------------

  datatype Recorded = LostRace(result: CommitResult) | Wrote(decided: Record)

  function RecordCommit(rows: seq<Record>, record: Record, actor: Actor, outcome: string,
      decidedAt: int): (seq<Record>, Recorded)
  {
    var (rows', wrote) := RecordDecision(rows, record.id,
      DecisionWrite(Committed, actor, None, Some(outcome), decidedAt));
    var current := GetDraft(rows', record.id);
    if wrote && current.Some? then (rows', Wrote(current.value))
    else if current.Some? && current.value.status.Committed? then (rows', LostRace(CommittedReplay(current.value)))
    else (rows', LostRace(Refused(AlreadyDiscarded)))
  }

  function DurableRecord(decided: Record, committedAt: int): CommitRecord {
    CommitRecord(ToDecisionRecord(decided), decided.outcome, committedAt)
  }

  function FreshAnswer(decided: Record): CommitResult {
    CommittedResult(false, ToDecisionRecord(decided), decided.outcome)
  }

  /** A replica that lost the durable write answers with the winner's record. */
  function WinnerAnswer(decided: Record, winner: Option<CommitRecord>): CommitResult {
    if winner.Some? then CommittedResult(true, winner.value.decision, winner.value.outcome) else FreshAnswer(decided)
  }

  /** An agent's commit may ask for a review after the fact. */
  function RoutePostHocReview(config: Config, approvals: seq<A.Approval>, decided: Record, env: Env): seq<A.Approval> {
    if decided.decisionActor.Some? && decided.decisionActor.value.Agent? && env.reviewSampled
      && config.hasApprovalStore then
      A.Create(approvals,
               A.NewApproval(A.Request(config.reviewHash(DraftRef(decided.id), decided.correlationId),
                 decided.correlationId,
                                       A.SERVER_ALIAS, A.REVIEW_COMMIT, Some(DraftRef(decided.id)), env.freshId,
                                       env.approvalCheckedAt, env.stampedAt, config.approvalTimeoutMs)))
    else approvals
  }

  // ---------------------------------------------------------------------
  // discard_effect: one stretch, no await
  // ---------------------------------------------------------------------

  /** What `trim()` removes. */
  predicate IsSpace(c: char) {
    '\U{09}' <= c <= '\U{0D}' || '\U{2000}' <= c <= '\U{200A}'
    || c in {' ', '\U{A0}', '\U{1680}', '\U{2028}', '\U{2029}', '\U{202F}', '\U{205F}', '\U{3000}', '\U{FEFF}'}
  }

  predicate IsBlank(s: string) { forall i | 0 <= i < |s| :: IsSpace(s[i]) }

  function Discard(config: Config, rows: seq<Record>, approvals: seq<A.Approval>, call: Call, decidedAt: int)
    : (seq<Record>, DiscardResult)
  {
    var caller := VerifiedCaller(config, call.caller);
    if caller.Unknown? then (rows, NotDiscarded(caller.why))
    else
      var loaded := LoadDraft(rows, call.ref);
      if loaded.Missing? then (rows, NotDiscarded(loaded.why))
      else if loaded.record.status.Committed? then (rows, NotDiscarded(AlreadyCommitted))
      else if loaded.record.status.Discarded? then (rows, DiscardedResult(true, ToDecisionRecord(loaded.record)))
      else if call.reason.None? || IsBlank(call.reason.value) then (rows, NotDiscarded(NoReason))
      else
        var actor := DiscardActor(config, approvals, loaded.record, caller.identity, call);
        if actor.None? then (rows, NotDiscarded(NeedsHuman(DiscardProblem(config, approvals, loaded.record, call))))
        else RecordDiscard(rows, loaded.record, actor.value, call.reason, decidedAt)
  }

  function RecordDiscard(rows: seq<Record>, record: Record, actor: Actor, reason: Option<string>, decidedAt: int)
    : (seq<Record>, DiscardResult)
  {
    var (rows', wrote) := RecordDecision(rows, record.id, DecisionWrite(Discarded, actor, reason, None, decidedAt));
    var current := GetDraft(rows', record.id);
    if wrote && current.Some? then (rows', DiscardedResult(false, ToDecisionRecord(current.value)))
    else (rows', LostDiscard(current))
  }

  /** The answer when another decision was there first. */
  function LostDiscard(current: Option<Record>): DiscardResult {
    if current.Some? && current.value.status.Discarded? then DiscardedResult(true, ToDecisionRecord(current.value))
    else NotDiscarded(AlreadyCommitted)
  }

  function DiscardResolution(config: Config, approvals: seq<A.Approval>, record: Record, call: Call): A.Resolution {
    A.ResolveDiscardApproval(config.hasApprovalStore, approvals, if call.caller.Some? then call.caller.value.approvalId
      else None,
                             DraftRef(record.id))
  }

  function DiscardActor(config: Config, approvals: seq<A.Approval>, record: Record, identity: Identity,
      call: Call): Option<Actor>
  {
    if RequiresHumanActor(record) then
      var resolution := DiscardResolution(config, approvals, record, call);
      if resolution.Named? then Some(Human(resolution.approverId)) else None
    else Some(Agent(identity))
  }

  function DiscardProblem(config: Config, approvals: seq<A.Approval>, record: Record, call: Call): A.Problem {
    var resolution := DiscardResolution(config, approvals, record, call);
    if resolution.Obstacle? then resolution.problem else A.NoResolvedApproval
  }

  /** A discarded row's reason, and the human behind it where one was due. */
  ghost predicate DiscardAuthorised(row: Record, approvals: seq<A.Approval>) {
    && row.decisionReason.Some? && !IsBlank(row.decisionReason.value)
    && row.decisionActor.Some?
    && (RequiresHumanActor(row) ==>
         && row.decisionActor.value.Human?
         && exists a | a in approvals ::
           A.Authorises(a, row.decisionActor.value.approverId, A.DISCARD_EFFECT, DraftRef(row.id)))
  }

  /** A decided row is the one the store then answers for its id. */
  lemma DecidedIsFound(rows: seq<Record>, i: nat, d: DecisionWrite)
    requires i < |rows| && i == IndexOf(rows, rows[i].id)
    ensures IndexOf(rows[i := Decided(rows[i], d)], rows[i].id) == i
    ensures GetDraft(rows[i := Decided(rows[i], d)], rows[i].id) == Some(Decided(rows[i], d))
  {}

  /** One undecided row becomes an authorised discarded one and nothing else changes. */
  ghost predicate DiscardsRow(rows: seq<Record>, rows': seq<Record>, i: nat, reason: Option<string>,
      approvals: seq<A.Approval>, decidedAt: int)
  {
    && i < |rows| == |rows'| && rows[i].status.Draft? && rows'[i].decisionActor.Some?
    && rows' == rows[i := Decided(rows[i],
      DecisionWrite(Discarded, rows'[i].decisionActor.value, reason, None, decidedAt))]
    && DiscardAuthorised(rows'[i], approvals)
  }

  lemma RecordDiscardWrites(rows: seq<Record>, i: nat, actor: Actor, reason: Option<string>, decidedAt: int)
    requires i < |rows| && i == IndexOf(rows, rows[i].id) && rows[i].status.Draft?
    ensures
      var decided := Decided(rows[i], DecisionWrite(Discarded, actor, reason, None, decidedAt));
      RecordDiscard(rows, rows[i], actor, reason, decidedAt)
        == (rows[i := decided], DiscardedResult(false, ToDecisionRecord(decided)))
  {
    DecidedIsFound(rows, i, DecisionWrite(Discarded, actor, reason, None, decidedAt));
  }

  /**
   A discard writes exactly when it answers a fresh decision, and then turns one
   undecided row into an authorised discarded one and touches nothing else.
   */
  lemma DiscardIsSound(config: Config, rows: seq<Record>, approvals: seq<A.Approval>, call: Call, decidedAt: int)
    ensures
      var (rows', result) := Discard(config, rows, approvals, call, decidedAt);
      var i := IndexOf(rows, ParseDraftRef(call.ref));
      if result.DiscardedResult? && !result.replay then
        DiscardsRow(rows, rows', i, call.reason, approvals, decidedAt) && result.decision == ToDecisionRecord(rows'[i])
      else rows' == rows
  {
    var i := IndexOf(rows, ParseDraftRef(call.ref));
    var caller := VerifiedCaller(config, call.caller);
    if caller.Known? && DRAFT_REF_PREFIX <= call.ref && i < |rows| && rows[i].status.Draft? {
      var actor := DiscardActor(config, approvals, rows[i], caller.identity, call);
      if actor.Some? && call.reason.Some? && !IsBlank(call.reason.value) {
        DiscardActorIsDue(config, approvals, rows[i], caller.identity, call);
        RecordDiscardWrites(rows, i, actor.value, call.reason, decidedAt);
        assert Discard(config, rows, approvals, call, decidedAt)
          == RecordDiscard(rows, rows[i], actor.value, call.reason, decidedAt);
      }
    }
  }

  lemma DiscardActorIsDue(config: Config, approvals: seq<A.Approval>, record: Record, identity: Identity, call: Call)
    ensures
      var actor := DiscardActor(config, approvals, record, identity, call);
      actor.Some? && RequiresHumanActor(record) ==>
        && actor.value.Human?
        && exists a | a in approvals :: A.Authorises(a, actor.value.approverId, A.DISCARD_EFFECT, DraftRef(record.id))
  {}

  // ---------------------------------------------------------------------
  // The class
  // ---------------------------------------------------------------------

  class EffectGateway {
    const config: Config
    const store: MemoryEffectStore
    const approvals: A.ApprovalStore

    constructor (config: Config, store: MemoryEffectStore, approvals: A.ApprovalStore)
      ensures this.config == config && this.store == store && this.approvals == approvals
    {
      this.config, this.store, this.approvals := config, store, approvals;
    }

    /** `ref` is `None` when the draft is refused. */
    method DraftEffect(p: DraftParams, caller: Option<Caller>, id: string, now: int) returns (ref: Option<string>)
      requires forall r | r in store.drafts :: r.id != id
      modifies store
      ensures ref.Some? <==> ValidDraft(config, p, now)
      ensures ref.Some? ==>
        ref.value == DraftRef(id) && store.drafts == old(store.drafts) + [NewDraft(config, p, caller, id, now)]
      ensures ref.None? ==> store.drafts == old(store.drafts)
    {
      if !ValidDraft(config, p, now) {
        return None;
      }
      store.SaveDraft(NewDraft(config, p, caller, id, now));
      ref := Some(DraftRef(id));
    }

    method StartCommit(call: Call) returns (begun: Begun)
      ensures begun == BeginCommit(config, store.drafts, call)
    {
      var caller := VerifiedCaller(config, call.caller);
      if caller.Unknown? {
        return AnswerNow(Refused(caller.why));
      }
      var loaded := LoadDraft(store.drafts, call.ref);
      if loaded.Missing? {
        return AnswerNow(Refused(loaded.why));
      }
      var record := loaded.record;
      if record.status == Committed {
        return AnswerNow(CommittedReplay(record));
      }
      var sibling := store.Find(record.idempotencyKey);
      if sibling.Some? && sibling.value.status == Committed {
        return AnswerNow(CommittedReplay(sibling.value));
      }
      begun := Proceed(record, caller.identity);
    }

    method ResolveHuman(record: Record, approvalId: Option<string>, env: Env) returns (resolution: A.Resolution)
      modifies approvals
      ensures (approvals.approvals, resolution)
           == A.ResolveCommitApproval(config.hasApprovalStore, old(approvals.approvals), approvalId,
             DraftRef(record.id),
                                      CommitRequest(config, record, env))
    {
      var ref := DraftRef(record.id);
      var q := CommitRequest(config, record, env);
      if !config.hasApprovalStore {
        return A.Obstacle(A.NoApprovalStore);
      }
      if approvalId.Some? && approvalId.value != "" {
        var approval := approvals.GetApproval(approvalId.value);
        return A.HumanActorFromApproval(approval, A.COMMIT_EFFECT, ref);
      }
      var existing := approvals.GetApprovalByRequestHash(q.hash);
      if existing.Some? && existing.value.decision == Some(A.Approved) && existing.value.consumedAt.None? {
        if existing.value.timeoutAt < env.approvalCheckedAt {
          return A.Obstacle(A.ApprovalTimedOut);
        }
        resolution := A.HumanActorFromApproval(existing, A.COMMIT_EFFECT, ref);
        if resolution.Named? {
          approvals.MarkApprovalConsumed(existing.value.id, env.stampedAt);
        }
        return;
      }
      if existing.Some? && existing.value.decision == Some(A.Denied) {
        return A.Obstacle(A.DeniedRequest);
      }
      if existing.Some? && existing.value.decision.None? {
        if existing.value.timeoutAt < env.approvalCheckedAt {
          return A.Obstacle(A.ApprovalTimedOut);
        }
        return A.Pending(existing.value.id);
      }
      approvals.CreateApproval(A.NewApproval(q));
      resolution := A.Pending(env.freshId);
    }

    method AfterLookup(record: Record, identity: Identity, approvalId: Option<string>, durable: Option<CommitRecord>,
        env: Env)
      returns (gated: Gated)
      modifies approvals
      ensures (approvals.approvals, gated)
           == Gate(config, old(approvals.approvals), record, identity, approvalId, durable, env)
    {
      if durable.Some? {
        return AnswerWith(CommittedResult(true, durable.value.decision, durable.value.outcome));
      }
      if record.status == Discarded {
        return AnswerWith(Refused(AlreadyDiscarded));
      }
      if record.expiry <= env.expiryCheckedAt {
        return AnswerWith(Refused(Expired));
      }
      if !HasPassingEvidence(record, env) {
        return AnswerWith(Refused(NoPassingEvidence));
      }
      var actor := Agent(identity);
      var used := None;
      if NeedsHumanNow(record, env) {
        var resolution := ResolveHuman(record, approvalId, env);
        if resolution.Pending? {
          return AnswerWith(ApprovalPending(resolution.id));
        }
        if resolution.Obstacle? {
          return AnswerWith(Refused(NeedsHuman(resolution.problem)));
        }
        actor, used := Human(resolution.approverId), Some(resolution.used);
      }
      if record.targetSystem !in config.connectors {
        return AnswerWith(Refused(NoConnector));
      }
      gated := Execute(actor, used);
    }

    method AfterExecute(record: Record, actor: Actor, outcome: string, decidedAt: int) returns (recorded: Recorded)
      modifies store
      ensures (store.drafts, recorded) == RecordCommit(old(store.drafts), record, actor, outcome, decidedAt)
    {
      var wrote := store.Decide(record.id, DecisionWrite(Committed, actor, None, Some(outcome), decidedAt));
      var current := store.Get(record.id);
      if !wrote || current.None? {
        if current.Some? && current.value.status == Committed {
          return LostRace(CommittedReplay(current.value));
        }
        return LostRace(Refused(AlreadyDiscarded));
      }
      recorded := Wrote(current.value);
    }

    method AfterPut(decided: Record, won: bool, winner: Option<CommitRecord>, env: Env) returns (result: CommitResult)
      modifies approvals
      ensures !won ==> result == WinnerAnswer(decided, winner)
      ensures won ==> result == FreshAnswer(decided)
      ensures approvals.approvals
           == if won || winner.None? then RoutePostHocReview(config, old(approvals.approvals), decided, env)
              else old(approvals.approvals)
    {
      if !won && winner.Some? {
        return CommittedResult(true, winner.value.decision, winner.value.outcome);
      }
      if decided.decisionActor.Some? && decided.decisionActor.value.Agent? && env.reviewSampled
        && config.hasApprovalStore {
        approvals.CreateApproval(
          A.NewApproval(A.Request(config.reviewHash(DraftRef(decided.id), decided.correlationId), decided.correlationId,
                                  A.SERVER_ALIAS, A.REVIEW_COMMIT, Some(DraftRef(decided.id)), env.freshId,
                                  env.approvalCheckedAt, env.stampedAt, config.approvalTimeoutMs)));
      }
      result := FreshAnswer(decided);
    }

    method DiscardEffect(call: Call, decidedAt: int) returns (result: DiscardResult)
      modifies store
      ensures (store.drafts, result) == Discard(config, old(store.drafts), approvals.approvals, call, decidedAt)
    {
      var caller := VerifiedCaller(config, call.caller);
      if caller.Unknown? {
        return NotDiscarded(caller.why);
      }
      var loaded := LoadDraft(store.drafts, call.ref);
      if loaded.Missing? {
        return NotDiscarded(loaded.why);
      }
      var record := loaded.record;
      if record.status == Committed {
        return NotDiscarded(AlreadyCommitted);
      }
      if record.status == Discarded {
        return DiscardedResult(true, ToDecisionRecord(record));
      }
      if call.reason.None? || IsBlank(call.reason.value) {
        return NotDiscarded(NoReason);
      }
      var actor := DiscardActor(config, approvals.approvals, record, caller.identity, call);
      if actor.None? {
        return NotDiscarded(NeedsHuman(DiscardProblem(config, approvals.approvals, record, call)));
      }
      var wrote := store.Decide(record.id, DecisionWrite(Discarded, actor.value, call.reason, None, decidedAt));
      var current := store.Get(record.id);
      if wrote && current.Some? {
        return DiscardedResult(false, ToDecisionRecord(current.value));
      }
      result := LostDiscard(current);
    }
  }
}
