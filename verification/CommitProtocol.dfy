/**
 Any number of replicas, each running a gateway with its own draft store,
 decision lock, approvals and QA store, over one put-if-absent store of commit
 records. One step per stretch between awaits, in any interleaving; the
 environment drafts, submits, decides approvals, reviews commits, fails any await,
 and restarts replicas at will. A restart keeps stores that are durable. Stores in
 memory are lost: the gateway takes no further step, and the replica goes on with
 an empty one. The lost gateway stays in the list as the record of what it did.
 */
module CommitProtocol {
  import opened Prelude
  import opened EffectStore
  import opened CommitRecords
  import opened EffectGateway
  import A = Approvals
  import Qa = SamplingQa

  datatype Request = CommitOf(call: Call) | DiscardOf(call: Call)

  /**
   What the decision lock is held for. `begun` and `gated` are where in the log the
   commit began and its gate ran, `seen` the approvals its gate read.
   */
  datatype Phase =
    | Idle
    | LookingUp(call: Call, record: Record, identity: Identity, begun: nat)
    | Executing(call: Call, record: Record, actor: Actor, seen: seq<A.Approval>, env: Env, begun: nat, gated: nat)
    | Putting(call: Call, decided: Record)
    | FetchingWinner(call: Call, decided: Record)

  /** The gateway of replica `home`. */
  datatype Gateway = Gateway(
    home: nat, alive: bool, rows: seq<Record>, approvals: seq<A.Approval>, qa: Qa.Store, waiting: seq<Request>,
      phase: Phase)

  /**
   `Gated` is logged when the durable record has been looked up: `clears` says that
   the commit's own checks let it call the connector, `calls` that it does.
   */
  datatype Event =
    | Began(g: nat, call: Call)
    | Gated(g: nat, record: Record, env: Env, clears: bool, calls: bool)
    | Executed(g: nat, record: Record, actor: Actor, seen: seq<A.Approval>, env: Env, begun: nat, gated: nat,
      outcome: string)
    | DiscardedRow(g: nat, row: Record, approvals: seq<A.Approval>)
    | PutDone(g: nat, key: string, stored: CommitRecord, won: bool)
    | CommitAnswered(g: nat, call: Call, result: CommitResult)
    | DiscardAnswered(g: nat, answer: DiscardResult)
    | Rejected(g: nat)
    | Reviewed(g: nat, verdict: Qa.Verdict)
    | QaWasReset(g: nat, effectType: string)
    | Lost(g: nat)

  datatype System = System(gateways: seq<Gateway>, replicas: nat, durable: Table, log: seq<Event>)

  datatype Label =
    | Join
    | DraftStep(g: nat, p: DraftParams, caller: Option<Caller>, id: string, now: int)
    | Submit(g: nat, request: Request)
    | Start(g: nat, env: Env, decidedAt: int)
    | LookedUp(g: nat, env: Env)
    | ConnectorReturned(g: nat, outcome: string, env: Env, decidedAt: int)
    | PutReturned(g: nat, committedAt: int, env: Env)
    | WinnerReturned(g: nat, env: Env)
    | AwaitFailed(g: nat)
    | Operators(g: nat, approvals: seq<A.Approval>)
    | Review(g: nat, verdict: Qa.Verdict)
    | ResetQa(g: nat, effectType: string)
    | Restart(g: nat)

  function EmptyGateway(home: nat): Gateway { Gateway(home, true, [], [], Qa.Store([], {}), [], Idle) }

  ghost predicate Enabled(config: Config, s: System, l: Label) {
    l.Join? ||
    (l.g < |s.gateways| && s.gateways[l.g].alive &&
     var gw := s.gateways[l.g];
     match l
     case DraftStep(_, p, _, id, now) => ValidDraft(config, p, now) && forall r | r in gw.rows :: r.id != id
     case Start(_, _, _) => gw.phase.Idle? && gw.waiting != []
     case LookedUp(_, _) => gw.phase.LookingUp?
     case ConnectorReturned(_, _, _, _) => gw.phase.Executing?
     case PutReturned(_, _, _) => gw.phase.Putting?
     case WinnerReturned(_, _) => gw.phase.FetchingWinner?
     case AwaitFailed(_) => !gw.phase.Idle?
     case _ => true)
  }

  ghost function With(s: System, g: nat, gw: Gateway, events: seq<Event>): System
    requires g < |s.gateways|
  {
    s.(gateways := s.gateways[g := gw], log := s.log + events)
  }

  /** The stretch from the durable lookup's answer to the connector call. */
  ghost function GateStep(config: Config, s: System, g: nat, gw: Gateway, call: Call, record: Record,
      identity: Identity,
                          begun: nat, durable: Option<CommitRecord>, env: Env, events: seq<Event>): System
    requires g < |s.gateways|
  {
    var now := env.(tripped := gw.qa.tripped);
    var approvalId := ApprovalIdOf(call);
    var (approvals, gated) := Gate(config, gw.approvals, record, identity, approvalId, durable, now);
    var clears := Gate(config, gw.approvals, record, identity, approvalId, None, now).1.Execute?;
    var gating := events + [Gated(g, record, now, clears, gated.Execute?)];
    match gated
    case AnswerWith(result) =>
      With(s, g, gw.(approvals := approvals, phase := Idle), gating + [CommitAnswered(g, call, result)])
    case Execute(actor, _) =>
      With(s, g, gw.(approvals := approvals,
                     phase := Executing(call, record, actor, gw.approvals, now, begun, |s.log + events|)), gating)
  }

  function ApprovalIdOf(call: Call): Option<string> { if call.caller.Some? then call.caller.value.approvalId else None }

  ghost function StartStep(config: Config, s: System, g: nat, env: Env, decidedAt: int): System
    requires g < |s.gateways| && s.gateways[g].waiting != []
  {
    var gw := s.gateways[g].(waiting := s.gateways[g].waiting[1..]);
    match s.gateways[g].waiting[0]
    case DiscardOf(call) =>
      var (rows, result) := Discard(config, gw.rows, gw.approvals, call, decidedAt);
      var i := IndexOf(gw.rows, ParseDraftRef(call.ref));
      var written := if result.DiscardedResult? && !result.replay && i < |rows|
        then [DiscardedRow(g, rows[i], gw.approvals)] else [];
      With(s, g, gw.(rows := rows), written + [DiscardAnswered(g, result)])
    case CommitOf(call) =>
      var begun := BeginCommit(config, gw.rows, call);
      match begun
      case AnswerNow(result) => With(s, g, gw, [Began(g, call), CommitAnswered(g, call, result)])
      case Proceed(record, identity) =>
        if config.hasCommitRecords then
          With(s, g, gw.(phase := LookingUp(call, record, identity, |s.log|)), [Began(g, call)])
        else GateStep(config, s, g, gw, call, record, identity, |s.log|, None, env, [Began(g, call)])
  }

  ghost function ExecutedStep(config: Config, s: System, g: nat, outcome: string, env: Env, decidedAt: int): System
    requires g < |s.gateways| && s.gateways[g].phase.Executing?
  {
    var gw := s.gateways[g];
    var p := gw.phase;
    var (rows, recorded) := RecordCommit(gw.rows, p.record, p.actor, outcome, decidedAt);
    var e := Executed(g, p.record, p.actor, p.seen, p.env, p.begun, p.gated, outcome);
    match recorded
    case LostRace(result) => With(s, g, gw.(rows := rows, phase := Idle), [e, CommitAnswered(g, p.call, result)])
    case Wrote(decided) =>
      if config.hasCommitRecords then With(s, g, gw.(rows := rows, phase := Putting(p.call, decided)), [e])
      else
        With(s, g, gw.(rows := rows, phase := Idle,
          approvals := RoutePostHocReview(config, gw.approvals, decided, env)),
             [e, CommitAnswered(g, p.call, FreshAnswer(decided))])
  }

  ghost function PutStep(config: Config, s: System, g: nat, committedAt: int, env: Env): System
    requires g < |s.gateways| && s.gateways[g].phase.Putting?
  {
    var gw := s.gateways[g];
    var decided := gw.phase.decided;
    var key := decided.idempotencyKey;
    var stored := DurableRecord(decided, committedAt);
    var (durable, won) := PutIfAbsent(s.durable, key, stored);
    if !won then
      With(s, g, gw.(phase := FetchingWinner(gw.phase.call, decided)), [PutDone(g, key, stored, false)])
    else
      With(s, g, gw.(phase := Idle, approvals := RoutePostHocReview(config, gw.approvals, decided, env)),
           [PutDone(g, key, stored, true), CommitAnswered(g, gw.phase.call, FreshAnswer(decided))])
        .(durable := durable)
  }

  ghost function Apply(config: Config, s: System, l: Label): System
    requires Enabled(config, s, l)
  {
    match l
    case Join => s.(gateways := s.gateways + [EmptyGateway(s.replicas)], replicas := s.replicas + 1)
    case DraftStep(g, p, caller, id, now) =>
      With(s, g, s.gateways[g].(rows := s.gateways[g].rows + [NewDraft(config, p, caller, id, now)]), [])
    case Submit(g, request) => With(s, g, s.gateways[g].(waiting := s.gateways[g].waiting + [request]), [])
    case Start(g, env, decidedAt) => StartStep(config, s, g, env, decidedAt)
    case LookedUp(g, env) =>
      var gw := s.gateways[g];
      var p := gw.phase;
      GateStep(config, s, g, gw, p.call, p.record, p.identity, p.begun, Lookup(s.durable, p.record.idempotencyKey), env,
        [])
    case ConnectorReturned(g, outcome, env, decidedAt) => ExecutedStep(config, s, g, outcome, env, decidedAt)
    case PutReturned(g, committedAt, env) => PutStep(config, s, g, committedAt, env)
    case WinnerReturned(g, env) =>
      var gw := s.gateways[g];
      var winner := Lookup(s.durable, gw.phase.decided.idempotencyKey);
      With(s, g,
           gw.(phase := Idle,
               approvals := if winner.Some? then gw.approvals
                            else RoutePostHocReview(config, gw.approvals, gw.phase.decided, env)),
           [CommitAnswered(g, gw.phase.call, WinnerAnswer(gw.phase.decided, winner))])
    case AwaitFailed(g) => With(s, g, s.gateways[g].(phase := Idle), [Rejected(g)])
    case Operators(g, approvals) => With(s, g, s.gateways[g].(approvals := approvals), [])
    case Review(g, v) =>
      With(s, g, s.gateways[g].(qa := Qa.Record(config.qaPolicies, s.gateways[g].qa, v)), [Reviewed(g, v)])
    case ResetQa(g, effectType) =>
      With(s, g, s.gateways[g].(qa := Qa.Reset(s.gateways[g].qa, effectType)), [QaWasReset(g, effectType)])
    case Restart(g) =>
      var gw := s.gateways[g].(phase := Idle, waiting := []);
      if config.durableStores then With(s, g, gw, [])
      else
        var lost := With(s, g, gw.(alive := false), [Lost(g)]);
        lost.(gateways := lost.gateways + [EmptyGateway(gw.home)])
  }

  ghost function Run(config: Config, labels: seq<Label>): Option<System>
    decreases |labels|
  {
    if labels == [] then Some(System([], 0, map[], []))
    else
      var before := Run(config, labels[..|labels|-1]);
      var l := labels[|labels|-1];
      if before.Some? && Enabled(config, before.value, l) then Some(Apply(config, before.value, l)) else None
  }

  lemma {:induction false} RunStep(config: Config, labels: seq<Label>, s: System, l: Label)
    requires Run(config, labels) == Some(s) && Enabled(config, s, l)
    ensures Run(config, labels + [l]) == Some(Apply(config, s, l))
  {}

  // ---------------------------------------------------------------------
  // What every reachable state keeps
  // ---------------------------------------------------------------------

  ghost predicate RowOk(r: Record) {
    && (r.status.Draft? <==> r.decisionActor.None?)
    && (r.status.Committed? ==> r.outcome.Some?)
  }

  /** At most one committed row per idempotency key. */
  ghost predicate OneCommittedPerKey(rows: seq<Record>) {
    forall i, j | 0 <= i < j < |rows| && rows[i].status.Committed? && rows[j].status.Committed? ::
      rows[i].idempotencyKey != rows[j].idempotencyKey
  }

  ghost predicate NoneCommitted(rows: seq<Record>, key: string) {
    forall r | r in rows && r.idempotencyKey == key :: !r.status.Committed?
  }

  ghost predicate GatewayOk(gw: Gateway) {
    && DistinctIds(gw.rows) && OneCommittedPerKey(gw.rows)
    && (forall r | r in gw.rows :: RowOk(r))
    && match gw.phase
       case Idle => true
       case LookingUp(call, record, _, _) =>
         record in gw.rows && record.id == ParseDraftRef(call.ref) && NoneCommitted(gw.rows, record.idempotencyKey)
       case Executing(call, record, actor, seen, env, _, _) =>
         && record in gw.rows && record.id == ParseDraftRef(call.ref) && record.status.Draft?
           && NoneCommitted(gw.rows, record.idempotencyKey)
         && Authorised(record, actor, seen, env)
       case Putting(call, decided) =>
         decided in gw.rows && decided.id == ParseDraftRef(call.ref) && decided.status.Committed?
       case FetchingWinner(call, decided) =>
         decided in gw.rows && decided.id == ParseDraftRef(call.ref) && decided.status.Committed?
  }

  ghost predicate PutWon(e: Event, key: string) { e.PutDone? && e.won && e.key == key }

  ghost predicate NoPutBefore(log: seq<Event>, n: nat, key: string)
    requires n <= |log|
  {
    forall j | 0 <= j < n :: !PutWon(log[j], key)
  }

  /** The commit in progress began where it says, and no key it is about to execute was recorded before that. */
  ghost predicate PhaseLogged(config: Config, durable: Table, log: seq<Event>, g: nat, gw: Gateway) {
    match gw.phase
    case LookingUp(_, _, _, begun) => config.hasCommitRecords && begun < |log| && BegunBy(log[begun], g)
    case Executing(_, record, _, _, _, begun, _) =>
      begun < |log| && BegunBy(log[begun], g)
        && (config.hasCommitRecords ==> NoPutBefore(log, begun, record.idempotencyKey))
    case Putting(_, _) => config.hasCommitRecords
    case FetchingWinner(_, decided) => decided.idempotencyKey in durable
    case _ => true
  }

  ghost predicate Executes(e: Event, g: nat, key: string) { e.Executed? && e.g == g && e.record.idempotencyKey == key }

  /** The row is the executed draft with that execution's actor and outcome recorded on it, and nothing else changed. */
  ghost predicate CommittedAs(row: Record, e: Event)
    requires e.Executed?
  {
    row.decidedAt.Some?
    && row == Decided(e.record, DecisionWrite(Committed, e.actor, None, Some(e.outcome), row.decidedAt.value))
  }

  ghost predicate BegunBy(e: Event, g: nat) { e.Began? && e.g == g }

  ghost predicate IsFresh(e: Event) { e.CommitAnswered? && e.result.CommittedResult? && !e.result.replay }

  /** Some gateway executed the key to a return. */
  ghost predicate Backed(log: seq<Event>, key: string) {
    exists i :: 0 <= i < |log| && log[i].Executed? && log[i].record.idempotencyKey == key
  }

  ghost predicate HasDraft(rows: seq<Record>, id: string, key: string) {
    exists i :: 0 <= i < |rows| && rows[i].id == id && rows[i].idempotencyKey == key
  }

  /** A committed answer is about the key of the draft the call named, and that key has been executed. */
  ghost predicate AnswerBacked(log: seq<Event>, rows: seq<Record>, call: Call, result: CommitResult) {
    result.CommittedResult? ==>
      && result.decision.Some? && Backed(log, result.decision.value.draft.idempotencyKey)
      && HasDraft(rows, ParseDraftRef(call.ref), result.decision.value.draft.idempotencyKey)
  }

  ghost predicate RecordOf(record: CommitRecord, key: string) {
    record.decision.Some? && record.decision.value.draft.idempotencyKey == key
  }

  /** A fresh answer follows at once on the won put it repeats; without commit records, on the execution. */
  ghost predicate FreshFrom(config: Config, e: Event, g: nat, result: CommitResult)
    requires result.CommittedResult? && result.decision.Some?
  {
    if config.hasCommitRecords then
      e.PutDone? && e.won && e.g == g && result.decision == e.stored.decision && result.outcome == e.stored.outcome
    else Executes(e, g, result.decision.value.draft.idempotencyKey)
  }

  ghost predicate EventOk(config: Config, s: System, i: nat)
    requires i < |s.log|
  {
    var e := s.log[i];
    match e
    case Executed(g, record, actor, seen, env, begun, _, _) =>
      && g < |s.gateways| && begun < i && BegunBy(s.log[begun], g)
      && Authorised(record, actor, seen, env)
      && (exists row | row in s.gateways[g].rows :: CommittedAs(row, e))
      && (forall j | 0 <= j < i :: !Executes(s.log[j], g, record.idempotencyKey))
      && (config.hasCommitRecords ==> NoPutBefore(s.log, begun, record.idempotencyKey))
    case DiscardedRow(g, row, approvals) =>
      g < |s.gateways| && row in s.gateways[g].rows && row.status.Discarded? && DiscardAuthorised(row, approvals)
    case PutDone(_, key, stored, won) =>
      && key in s.durable
      && (if won then s.durable[key] == stored && RecordOf(stored, key) && NoPutBefore(s.log, i, key)
          else !NoPutBefore(s.log, i, key))
    case CommitAnswered(g, call, result) =>
      && g < |s.gateways| && AnswerBacked(s.log, s.gateways[g].rows, call, result)
      && (IsFresh(e) ==> i > 0 && result.decision.Some? && FreshFrom(config, s.log[i-1], g, result))
    case _ => true
  }

  /** A decided row has its decision in the log. */
  ghost predicate RowLogged(log: seq<Event>, g: nat, row: Record) {
    && (row.status.Committed? ==> exists i ::
      0 <= i < |log| && log[i].Executed? && log[i].g == g && CommittedAs(row, log[i]))
    && (row.status.Discarded? ==> exists i ::
      0 <= i < |log| && log[i].DiscardedRow? && log[i].g == g && log[i].row == row)
  }

  ghost predicate Inv(config: Config, s: System) {
    && (forall g | 0 <= g < |s.gateways| ::
      GatewayOk(s.gateways[g]) && PhaseLogged(config, s.durable, s.log, g, s.gateways[g]))
    && (forall i | 0 <= i < |s.log| :: EventOk(config, s, i))
    && (forall g, row | 0 <= g < |s.gateways| && row in s.gateways[g].rows :: RowLogged(s.log, g, row))
    && (forall key | key in s.durable ::
      RecordOf(s.durable[key], key) && Backed(s.log, key) && !NoPutBefore(s.log, |s.log|, key))
  }

  /** Rows keep their places, ids and keys, and a decided row its decision. */
  ghost predicate RowsKept(rows: seq<Record>, rows': seq<Record>) {
    && |rows| <= |rows'|
    && forall i | 0 <= i < |rows| ::
         && rows'[i].id == rows[i].id && rows'[i].idempotencyKey == rows[i].idempotencyKey
         && (!rows[i].status.Draft? ==> rows'[i] == rows[i])
  }

  lemma DecidedRowStays(rows: seq<Record>, rows': seq<Record>, row: Record)
    requires RowsKept(rows, rows') && row in rows && !row.status.Draft?
    ensures row in rows'
  {}

  /** Nothing decided is ever undone: decided rows, durable records and the log only grow. */
  ghost predicate Extends(s: System, s': System) {
    && |s.gateways| <= |s'.gateways|
    && (forall g | 0 <= g < |s.gateways| ::
      RowsKept(s.gateways[g].rows, s'.gateways[g].rows) && s'.gateways[g].home == s.gateways[g].home)
    && (forall key | key in s.durable :: key in s'.durable && s'.durable[key] == s.durable[key])
    && s.log <= s'.log
  }

  lemma BackedStays(log: seq<Event>, log': seq<Event>, key: string)
    requires Backed(log, key) && log <= log'
    ensures Backed(log', key)
  {}

  lemma EventStays(config: Config, s: System, s': System, i: nat)
    requires i < |s.log| && EventOk(config, s, i) && Extends(s, s')
    ensures EventOk(config, s', i)
  {}

  lemma RowStaysLogged(log: seq<Event>, more: seq<Event>, g: nat, row: Record)
    requires RowLogged(log, g, row)
    ensures RowLogged(log + more, g, row)
  {
    var log' := log + more;
    if row.status.Committed? {
      var i :| 0 <= i < |log| && log[i].Executed? && log[i].g == g && CommittedAs(row, log[i]);
      assert log'[i] == log[i];
    }
    if row.status.Discarded? {
      var i :| 0 <= i < |log| && log[i].DiscardedRow? && log[i].g == g && log[i].row == row;
      assert log'[i] == log[i];
    }
  }

  /** A step of gateway `g` that appends `events` keeps the invariant if what it adds is in order. */
  lemma StepFrame(config: Config, s: System, g: nat, gw: Gateway, durable: Table, events: seq<Event>)
    requires Inv(config, s) && g < |s.gateways|
    requires
      var s' := System(s.gateways[g := gw], s.replicas, durable, s.log + events);
      && GatewayOk(gw) && PhaseLogged(config, durable, s'.log, g, gw)
      && RowsKept(s.gateways[g].rows, gw.rows) && gw.home == s.gateways[g].home
      && (forall key | key in s.durable :: key in durable && durable[key] == s.durable[key])
      && (forall key | key in durable && key !in s.durable ::
            RecordOf(durable[key], key) && Backed(s.log, key) && !NoPutBefore(s'.log, |s'.log|, key))
      && (forall i | |s.log| <= i < |s'.log| :: EventOk(config, s', i))
      && (forall row | row in gw.rows && row !in s.gateways[g].rows :: RowLogged(s'.log, g, row))
    ensures
      var s' := System(s.gateways[g := gw], s.replicas, durable, s.log + events);
      Inv(config, s') && Extends(s, s')
  {
    var s' := System(s.gateways[g := gw], s.replicas, durable, s.log + events);
    forall i | 0 <= i < |s'.log| ensures EventOk(config, s', i) {
      if i < |s.log| { EventStays(config, s, s', i); }
    }
    forall h | 0 <= h < |s'.gateways|
      ensures GatewayOk(s'.gateways[h]) && PhaseLogged(config, durable, s'.log, h, s'.gateways[h]) {
      if h != g { PhaseStaysLogged(config, s.durable, durable, s.log, events, h, s.gateways[h]); }
    }
    forall h, row | 0 <= h < |s'.gateways| && row in s'.gateways[h].rows ensures RowLogged(s'.log, h, row) {
      if h != g || row in s.gateways[g].rows { RowStaysLogged(s.log, events, h, row); }
    }
    forall key | key in durable
      ensures RecordOf(durable[key], key) && Backed(s'.log, key) && !NoPutBefore(s'.log, |s'.log|, key) {
      BackedStays(s.log, s'.log, key);
      if key in s.durable { PutStays(s.log, s'.log, key); }
    }
  }

  lemma PutStays(log: seq<Event>, log': seq<Event>, key: string)
    requires log <= log' && !NoPutBefore(log, |log|, key)
    ensures !NoPutBefore(log', |log'|, key)
  {
    var j :| 0 <= j < |log| && PutWon(log[j], key);
    assert PutWon(log'[j], key);
  }

  lemma PhaseStaysLogged(config: Config, durable: Table, durable': Table,
                         log: seq<Event>, more: seq<Event>, g: nat, gw: Gateway)
    requires PhaseLogged(config, durable, log, g, gw) && durable.Keys <= durable'.Keys
    ensures PhaseLogged(config, durable', log + more, g, gw)
  {}

  // ---------------------------------------------------------------------
  // One lemma per kind of step
  // ---------------------------------------------------------------------

  /** The row whose id is `record.id`, where it stands. */
  lemma RowIndex(rows: seq<Record>, record: Record)
    requires DistinctIds(rows) && record in rows
    ensures IndexOf(rows, record.id) < |rows| && rows[IndexOf(rows, record.id)] == record
  {}

  lemma AppendKeepsRows(gw: Gateway, r: Record)
    requires GatewayOk(gw) && RowOk(r) && r.status.Draft? && forall row | row in gw.rows :: row.id != r.id
    ensures GatewayOk(gw.(rows := gw.rows + [r]))
  {}

  lemma DraftKeeps(config: Config, s: System, l: Label)
    requires Inv(config, s) && l.DraftStep? && Enabled(config, s, l)
    ensures Inv(config, Apply(config, s, l)) && Extends(s, Apply(config, s, l))
  {
    var gw := s.gateways[l.g];
    var r := NewDraft(config, l.p, l.caller, l.id, l.now);
    AppendKeepsRows(gw, r);
    assert s.log + [] == s.log;
    StepFrame(config, s, l.g, gw.(rows := gw.rows + [r]), s.durable, []);
  }

  /** Steps that change neither rows nor records: the phase may fall back to idle. */
  lemma QuietKeeps(config: Config, s: System, g: nat, gw: Gateway, events: seq<Event>)
    requires Inv(config, s) && g < |s.gateways|
    requires gw.rows == s.gateways[g].rows && gw.home == s.gateways[g].home
    requires gw.phase == s.gateways[g].phase || gw.phase.Idle?
    requires events == [] || (|events| == 1
      && (events[0].Rejected? || events[0].Reviewed? || events[0].QaWasReset? || events[0].Lost?))
    ensures Inv(config, With(s, g, gw, events)) && Extends(s, With(s, g, gw, events))
  {
    var s' := With(s, g, gw, events);
    PhaseStaysLogged(config, s.durable, s.durable, s.log, events, g, s.gateways[g]);
    forall i | |s.log| <= i < |s'.log| ensures EventOk(config, s', i) { assert s'.log[i] == events[0]; }
    StepFrame(config, s, g, gw, s.durable, events);
  }

  lemma AnswerKeeps(config: Config, s: System, g: nat, gw: Gateway, events: seq<Event>, call: Call,
      result: CommitResult)
    requires Inv(config, s) && g < |s.gateways|
    requires gw.rows == s.gateways[g].rows && gw.home == s.gateways[g].home && gw.phase.Idle?
    requires forall i | 0 <= i < |events| :: events[i].Began? || events[i].Gated?
    requires (result.CommittedResult? ==> result.replay) && AnswerBacked(s.log, gw.rows, call, result)
    ensures
      var s' := With(s, g, gw, events + [CommitAnswered(g, call, result)]);
      Inv(config, s') && Extends(s, s')
  {
    var log := s.log + (events + [CommitAnswered(g, call, result)]);
    if result.CommittedResult? { BackedStays(s.log, log, result.decision.value.draft.idempotencyKey); }
    StepFrame(config, s, g, gw, s.durable, events + [CommitAnswered(g, call, result)]);
  }

  /** Replaying a committed row of the named draft's key is a backed answer. */
  lemma ReplayIsBacked(config: Config, s: System, g: nat, call: Call, draft: Record, row: Record)
    requires Inv(config, s) && g < |s.gateways|
    requires draft in s.gateways[g].rows && draft.id == ParseDraftRef(call.ref)
    requires row in s.gateways[g].rows && row.status.Committed? && row.idempotencyKey == draft.idempotencyKey
    ensures AnswerBacked(s.log, s.gateways[g].rows, call, CommittedReplay(row))
  {}

  lemma DurableIsBacked(config: Config, s: System, g: nat, call: Call, draft: Record)
    requires Inv(config, s) && g < |s.gateways|
    requires draft in s.gateways[g].rows && draft.id == ParseDraftRef(call.ref) && draft.idempotencyKey in s.durable
    ensures
      var d := s.durable[draft.idempotencyKey];
      AnswerBacked(s.log, s.gateways[g].rows, call, CommittedResult(true, d.decision, d.outcome))
  {}

  lemma GateKeeps(config: Config, s: System, g: nat, gw: Gateway, call: Call, record: Record, identity: Identity,
                  begun: nat, durable: Option<CommitRecord>, env: Env, events: seq<Event>)
    requires Inv(config, s) && g < |s.gateways|
    requires gw.rows == s.gateways[g].rows && gw.home == s.gateways[g].home
    requires record in gw.rows && !record.status.Committed? && NoneCommitted(gw.rows, record.idempotencyKey)
    requires record.id == ParseDraftRef(call.ref)
    requires events == [] || (|events| == 1 && events[0].Began?)
    requires begun < |s.log + events| && BegunBy((s.log + events)[begun], g)
    requires if config.hasCommitRecords then events == [] && durable == Lookup(s.durable, record.idempotencyKey)
      else durable == None
    ensures
      var s' := GateStep(config, s, g, gw, call, record, identity, begun, durable, env, events);
      Inv(config, s') && Extends(s, s')
  {
    var now := env.(tripped := gw.qa.tripped);
    var approvalId := ApprovalIdOf(call);
    var (approvals, gated) := Gate(config, gw.approvals, record, identity, approvalId, durable, now);
    var clears := Gate(config, gw.approvals, record, identity, approvalId, None, now).1.Execute?;
    var gating := events + [Gated(g, record, now, clears, gated.Execute?)];
    match gated
    case AnswerWith(result) =>
      GateReplays(config, gw.approvals, record, identity, approvalId, durable, now);
      if durable.Some? { DurableIsBacked(config, s, g, call, record); }
      AnswerKeeps(config, s, g, gw.(approvals := approvals, phase := Idle), gating, call, result);
    case Execute(actor, _) =>
      GateIsSound(config, gw.approvals, record, identity, approvalId, durable, now);
      var phase := Executing(call, record, actor, gw.approvals, now, begun, |s.log + events|);
      assert (s.log + gating)[begun] == (s.log + events)[begun];
      if config.hasCommitRecords { NoPutYet(config, s, record.idempotencyKey); }
      StepFrame(config, s, g, gw.(approvals := approvals, phase := phase), s.durable, gating);
  }

  /** A key without a durable record has never been put. */
  lemma NoPutYet(config: Config, s: System, key: string)
    requires Inv(config, s) && key !in s.durable
    ensures NoPutBefore(s.log, |s.log|, key)
  {
    forall j | 0 <= j < |s.log| ensures !PutWon(s.log[j], key) { assert EventOk(config, s, j); }
  }

  /** What the gate answers as committed without executing is the durable record, as a replay. */
  lemma GateReplays(config: Config, approvals: seq<A.Approval>, record: Record, identity: Identity,
      approvalId: Option<string>,
                    durable: Option<CommitRecord>, env: Env)
    ensures
      var gated := Gate(config, approvals, record, identity, approvalId, durable, env).1;
      gated.AnswerWith? && gated.result.CommittedResult? ==>
        durable.Some? && gated.result == CommittedResult(true, durable.value.decision, durable.value.outcome)
  {}

  lemma StartCommitKeeps(config: Config, s: System, g: nat, env: Env, decidedAt: int)
    requires Inv(config, s) && g < |s.gateways|
    requires s.gateways[g].phase.Idle? && s.gateways[g].waiting != [] && s.gateways[g].waiting[0].CommitOf?
    ensures
      var s' := StartStep(config, s, g, env, decidedAt);
      Inv(config, s') && Extends(s, s')
  {
    var gw := s.gateways[g].(waiting := s.gateways[g].waiting[1..]);
    var call := s.gateways[g].waiting[0].call;
    var events := [Began(g, call)];
    var begun := BeginCommit(config, gw.rows, call);
    match begun
    case AnswerNow(result) =>
      assert events + [CommitAnswered(g, call, result)] == [Began(g, call), CommitAnswered(g, call, result)];
      BeginAnswersBacked(config, s, g, call);
      AnswerKeeps(config, s, g, gw, events, call, result);
    case Proceed(record, identity) =>
      ProceedsUncommitted(config, gw.rows, call);
      if config.hasCommitRecords {
        StepFrame(config, s, g, gw.(phase := LookingUp(call, record, identity, |s.log|)), s.durable, events);
      } else {
        GateKeeps(config, s, g, gw, call, record, identity, |s.log|, None, env, events);
      }
  }

  lemma BeginAnswersBacked(config: Config, s: System, g: nat, call: Call)
    requires Inv(config, s) && g < |s.gateways| && BeginCommit(config, s.gateways[g].rows, call).AnswerNow?
    ensures
      var result := BeginCommit(config, s.gateways[g].rows, call).result;
      (result.CommittedResult? ==> result.replay) && AnswerBacked(s.log, s.gateways[g].rows, call, result)
  {
    var rows := s.gateways[g].rows;
    if BeginCommit(config, rows, call).result.CommittedResult? {
      var draft := LoadDraft(rows, call.ref).record;
      if draft.status.Committed? {
        ReplayIsBacked(config, s, g, call, draft, draft);
      } else {
        FindIsCommittedFirst(rows, draft.idempotencyKey);
        ReplayIsBacked(config, s, g, call, draft, FindByIdempotencyKey(rows, draft.idempotencyKey).value);
      }
    }
  }

  /** A commit that gets past its replays has found no committed row of its key. */
  lemma ProceedsUncommitted(config: Config, rows: seq<Record>, call: Call)
    requires BeginCommit(config, rows, call).Proceed?
    ensures
      var record := BeginCommit(config, rows, call).record;
      record in rows && !record.status.Committed? && NoneCommitted(rows, record.idempotencyKey)
      && record.id == ParseDraftRef(call.ref)
  {
    FindIsCommittedFirst(rows, BeginCommit(config, rows, call).record.idempotencyKey);
  }

  /** Deciding the undecided row `i` in place. */
  lemma DecideKeepsRows(gw: Gateway, i: nat, w: DecisionWrite)
    requires GatewayOk(gw) && i < |gw.rows| && gw.rows[i].status.Draft? && !w.status.Draft?
    requires w.status.Committed? ==> w.outcome.Some? && NoneCommitted(gw.rows, gw.rows[i].idempotencyKey)
    ensures
      var rows := gw.rows[i := Decided(gw.rows[i], w)];
      && GatewayOk(gw.(rows := rows, phase := Idle))
      && RowsKept(gw.rows, rows)
      && (forall row | row in rows && row !in gw.rows :: row == rows[i])
  {}

  lemma StartDiscardKeeps(config: Config, s: System, g: nat, env: Env, decidedAt: int)
    requires Inv(config, s) && g < |s.gateways|
    requires s.gateways[g].phase.Idle? && s.gateways[g].waiting != [] && s.gateways[g].waiting[0].DiscardOf?
    ensures
      var s' := StartStep(config, s, g, env, decidedAt);
      Inv(config, s') && Extends(s, s')
  {
    var gw := s.gateways[g].(waiting := s.gateways[g].waiting[1..]);
    var call := s.gateways[g].waiting[0].call;
    var (rows, result) := Discard(config, gw.rows, gw.approvals, call, decidedAt);
    var i := IndexOf(gw.rows, ParseDraftRef(call.ref));
    DiscardIsSound(config, gw.rows, gw.approvals, call, decidedAt);
    if result.DiscardedResult? && !result.replay {
      DiscardFrame(config, s, g, gw, rows, i, call.reason, decidedAt, result);
    } else {
      assert [] + [DiscardAnswered(g, result)] == [DiscardAnswered(g, result)];
      NoDiscardKeeps(config, s, g, gw, result);
    }
  }

  lemma NoDiscardKeeps(config: Config, s: System, g: nat, gw: Gateway, result: DiscardResult)
    requires Inv(config, s) && g < |s.gateways| && gw.rows == s.gateways[g].rows && gw.home == s.gateways[g].home
      && gw.phase.Idle?
    ensures
      var s' := With(s, g, gw, [DiscardAnswered(g, result)]);
      Inv(config, s') && Extends(s, s')
  {
    StepFrame(config, s, g, gw, s.durable, [DiscardAnswered(g, result)]);
  }

  lemma DiscardFrame(config: Config, s: System, g: nat, gw: Gateway, rows: seq<Record>, i: nat, reason: Option<string>,
                     decidedAt: int, result: DiscardResult)
    requires Inv(config, s) && g < |s.gateways| && s.gateways[g].phase.Idle?
    requires gw.rows == s.gateways[g].rows && gw.home == s.gateways[g].home && gw.phase.Idle?
    requires DiscardsRow(gw.rows, rows, i, reason, gw.approvals, decidedAt)
    ensures
      var s' := With(s, g, gw.(rows := rows), [DiscardedRow(g, rows[i], gw.approvals)] + [DiscardAnswered(g, result)]);
      Inv(config, s') && Extends(s, s')
  {
    DecideKeepsRows(gw, i, DecisionWrite(Discarded, rows[i].decisionActor.value, reason, None, decidedAt));
    var events := [DiscardedRow(g, rows[i], gw.approvals)] + [DiscardAnswered(g, result)];
    var log := s.log + events;
    assert log[|s.log|] == DiscardedRow(g, rows[i], gw.approvals);
    assert RowLogged(log, g, rows[i]);
    StepFrame(config, s, g, gw.(rows := rows), s.durable, events);
  }

  /** Under the lock the compare-and-set cannot fail: the row is still the undecided one that was loaded. */
  lemma RecordCommitWrites(gw: Gateway, outcome: string, decidedAt: int)
    requires GatewayOk(gw) && gw.phase.Executing?
    ensures
      var p := gw.phase;
      var i := IndexOf(gw.rows, p.record.id);
      var decided := Decided(p.record, DecisionWrite(Committed, p.actor, None, Some(outcome), decidedAt));
      && i < |gw.rows| && gw.rows[i] == p.record
      && RecordCommit(gw.rows, p.record, p.actor, outcome, decidedAt) == (gw.rows[i := decided], Wrote(decided))
  {
    var p := gw.phase;
    RowIndex(gw.rows, p.record);
    DecidedIsFound(gw.rows, IndexOf(gw.rows, p.record.id),
      DecisionWrite(Committed, p.actor, None, Some(outcome), decidedAt));
  }

  /** Where the commit in progress on `g` lands when its connector has returned. */
  ghost function ExecutedRow(s: System, g: nat, outcome: string, decidedAt: int): Record
    requires g < |s.gateways| && s.gateways[g].phase.Executing?
  {
    var p := s.gateways[g].phase;
    Decided(p.record, DecisionWrite(Committed, p.actor, None, Some(outcome), decidedAt))
  }

  ghost function ExecutedEvent(s: System, g: nat, outcome: string): Event
    requires g < |s.gateways| && s.gateways[g].phase.Executing?
  {
    var p := s.gateways[g].phase;
    Executed(g, p.record, p.actor, p.seen, p.env, p.begun, p.gated, outcome)
  }

  /** `rows` are the rows of `g` with the execution `e` of its commit in progress recorded on `decided`. */
  ghost predicate Records(s: System, g: nat, rows: seq<Record>, decided: Record, e: Event)
    requires g < |s.gateways|
  {
    var gw := s.gateways[g];
    && gw.phase.Executing? && e.Executed?
    && e == Executed(g, gw.phase.record, gw.phase.actor, gw.phase.seen, gw.phase.env, gw.phase.begun, gw.phase.gated,
      e.outcome)
    && GatewayOk(gw.(rows := rows, phase := Idle)) && RowsKept(gw.rows, rows)
    && decided in rows && (forall row | row in rows && row !in gw.rows :: row == decided)
    && decided.status.Committed? && RowOk(decided) && CommittedAs(decided, e)
      && decided.id == ParseDraftRef(gw.phase.call.ref)
  }

  lemma ExecutedRecords(config: Config, s: System, g: nat, outcome: string, decidedAt: int)
    requires Inv(config, s) && g < |s.gateways| && s.gateways[g].phase.Executing?
    ensures
      var gw := s.gateways[g];
      var decided := ExecutedRow(s, g, outcome, decidedAt);
      var (rows, recorded) := RecordCommit(gw.rows, gw.phase.record, gw.phase.actor, outcome, decidedAt);
      recorded == Wrote(decided) && Records(s, g, rows, decided, ExecutedEvent(s, g, outcome))
  {
    var gw := s.gateways[g];
    var i := IndexOf(gw.rows, gw.phase.record.id);
    var decided := ExecutedRow(s, g, outcome, decidedAt);
    RecordCommitWrites(gw, outcome, decidedAt);
    DecideKeepsRows(gw, i, DecisionWrite(Committed, gw.phase.actor, None, Some(outcome), decidedAt));
    assert gw.rows[i := decided][i] == decided;
  }

  lemma ExecutedThenPuts(config: Config, s: System, g: nat, rows: seq<Record>, decided: Record, e: Event)
    requires Inv(config, s) && g < |s.gateways| && config.hasCommitRecords && Records(s, g, rows, decided, e)
    ensures
      var gw := s.gateways[g];
      var s' := With(s, g, gw.(rows := rows, phase := Putting(gw.phase.call, decided)), [e]);
      Inv(config, s') && Extends(s, s')
  {
    var gw := s.gateways[g];
    var gw' := gw.(rows := rows, phase := Putting(gw.phase.call, decided));
    var s' := With(s, g, gw', [e]);
    assert s'.log[|s.log|] == e;
    ExecutedIsLogged(s'.log, |s.log|, g, rows, decided);
    ExecutedEventOk(config, s, g, s', e);
    StepFrame(config, s, g, gw', s.durable, [e]);
  }

  lemma ExecutedAnswers(config: Config, s: System, g: nat, rows: seq<Record>, decided: Record, e: Event,
      approvals: seq<A.Approval>)
    requires Inv(config, s) && g < |s.gateways| && !config.hasCommitRecords && Records(s, g, rows, decided, e)
    ensures
      var gw := s.gateways[g];
      var s' := With(s, g, gw.(rows := rows, phase := Idle, approvals := approvals),
                     [e, CommitAnswered(g, gw.phase.call, FreshAnswer(decided))]);
      Inv(config, s') && Extends(s, s')
  {
    var call := s.gateways[g].phase.call;
    var gw' := s.gateways[g].(rows := rows, phase := Idle, approvals := approvals);
    var s1 := With(s, g, gw', [e]);
    assert s1.log[|s.log|] == e;
    ExecutedIsLogged(s1.log, |s.log|, g, rows, decided);
    ExecutedEventOk(config, s, g, s1, e);
    StepFrame(config, s, g, gw', s.durable, [e]);
    FreshAnswerKeeps(config, s1, g, call, decided);
    var s' := With(s1, g, gw', [CommitAnswered(g, call, FreshAnswer(decided))]);
    InTwoSteps(s, g, gw', s.durable, e, CommitAnswered(g, call, FreshAnswer(decided)));
    ExtendsOn(s, s1, s');
  }

  lemma InTwoSteps(s: System, g: nat, gw: Gateway, durable: Table, a: Event, b: Event)
    requires g < |s.gateways|
    ensures With(System(s.gateways[g := gw], s.replicas, durable, s.log + [a]), g, gw, [b])
         == System(s.gateways[g := gw], s.replicas, durable, s.log + [a, b])
  {
    assert s.log + [a] + [b] == s.log + [a, b];
  }

  /** The fresh answer right after the event it stands on. */
  lemma FreshAnswerKeeps(config: Config, s: System, g: nat, call: Call, decided: Record)
    requires Inv(config, s) && g < |s.gateways| && s.log != []
    requires decided.status.Committed? && RowOk(decided) && FreshFrom(config, s.log[|s.log|-1], g, FreshAnswer(decided))
    requires Backed(s.log, decided.idempotencyKey)
    requires HasDraft(s.gateways[g].rows, ParseDraftRef(call.ref), decided.idempotencyKey)
    ensures
      var s' := With(s, g, s.gateways[g], [CommitAnswered(g, call, FreshAnswer(decided))]);
      Inv(config, s') && Extends(s, s')
  {
    var gw := s.gateways[g];
    var events := [CommitAnswered(g, call, FreshAnswer(decided))];
    BackedStays(s.log, s.log + events, decided.idempotencyKey);
    PhaseStaysLogged(config, s.durable, s.durable, s.log, events, g, gw);
    var s' := With(s, g, gw, events);
    assert s'.log[|s.log|] == events[0] && s'.log[|s.log|-1] == s.log[|s.log|-1];
    assert EventOk(config, s', |s.log|);
    StepFrame(config, s, g, gw, s.durable, events);
  }

  lemma ExecutedIsLogged(log: seq<Event>, i: nat, g: nat, rows: seq<Record>, row: Record)
    requires i < |log| && log[i].Executed? && log[i].g == g && CommittedAs(row, log[i]) && row in rows
    ensures RowLogged(log, g, row) && Backed(log, row.idempotencyKey) && HasDraft(rows, row.id, row.idempotencyKey)
  {}

  lemma ExecutedKeeps(config: Config, s: System, g: nat, outcome: string, env: Env, decidedAt: int)
    requires Inv(config, s) && g < |s.gateways| && s.gateways[g].phase.Executing?
    ensures
      var s' := ExecutedStep(config, s, g, outcome, env, decidedAt);
      Inv(config, s') && Extends(s, s')
  {
    var gw := s.gateways[g];
    var decided := ExecutedRow(s, g, outcome, decidedAt);
    var e := ExecutedEvent(s, g, outcome);
    var rows := RecordCommit(gw.rows, gw.phase.record, gw.phase.actor, outcome, decidedAt).0;
    ExecutedRecords(config, s, g, outcome, decidedAt);
    if config.hasCommitRecords {
      ExecutedThenPuts(config, s, g, rows, decided, e);
    } else {
      ExecutedAnswers(config, s, g, rows, decided, e, RoutePostHocReview(config, gw.approvals, decided, env));
    }
  }

  lemma ExecutedEventOk(config: Config, s: System, g: nat, s': System, e: Event)
    requires Inv(config, s) && g < |s.gateways| && s.gateways[g].phase.Executing?
    requires var p := s.gateways[g].phase;
      e.Executed? && e == Executed(g, p.record, p.actor, p.seen, p.env, p.begun, p.gated, e.outcome)
    requires |s.log| < |s'.log| && s.log <= s'.log && s'.log[|s.log|] == e && |s'.gateways| == |s.gateways|
    requires exists row | row in s'.gateways[g].rows :: CommittedAs(row, e)
    ensures EventOk(config, s', |s.log|)
  {
    var n := |s.log|;
    var p := s.gateways[g].phase;
    assert forall j | 0 <= j < n :: s'.log[j] == s.log[j];
    assert NoneCommitted(s.gateways[g].rows, p.record.idempotencyKey);
    forall j | 0 <= j < n ensures !Executes(s.log[j], g, p.record.idempotencyKey) {
      if s.log[j].Executed? { ExecutedIsCommitted(config, s, j); }
    }
  }

  /** Whatever a gateway has executed stands committed in its store. */
  lemma ExecutedIsCommitted(config: Config, s: System, j: nat)
    requires Inv(config, s) && j < |s.log| && s.log[j].Executed?
    ensures
      var e := s.log[j];
      e.g < |s.gateways| && exists row | row in s.gateways[e.g].rows :: CommittedAs(row, e)
  {
    assert EventOk(config, s, j);
  }

  lemma PutKeeps(config: Config, s: System, g: nat, committedAt: int, env: Env)
    requires Inv(config, s) && g < |s.gateways| && s.gateways[g].phase.Putting?
    ensures
      var s' := PutStep(config, s, g, committedAt, env);
      Inv(config, s') && Extends(s, s')
  {
    var gw := s.gateways[g];
    var decided := gw.phase.decided;
    var key := decided.idempotencyKey;
    if key in s.durable {
      PutLoses(config, s, g, gw.phase.call, decided, DurableRecord(decided, committedAt));
    } else {
      PutWins(config, s, g, gw.phase.call, decided, committedAt,
        RoutePostHocReview(config, gw.approvals, decided, env));
    }
  }

  lemma LostPutOk(log: seq<Event>, log': seq<Event>, key: string)
    requires log <= log' && !NoPutBefore(log, |log|, key)
    ensures !NoPutBefore(log', |log|, key)
  {
    var j :| 0 <= j < |log| && PutWon(log[j], key);
    assert PutWon(log'[j], key);
  }

  lemma PutLoses(config: Config, s: System, g: nat, call: Call, decided: Record, stored: CommitRecord)
    requires Inv(config, s) && g < |s.gateways| && s.gateways[g].phase == Putting(call, decided)
    requires decided.idempotencyKey in s.durable
    ensures
      var gw' := s.gateways[g].(phase := FetchingWinner(call, decided));
      var s' := With(s, g, gw', [PutDone(g, decided.idempotencyKey, stored, false)]);
      Inv(config, s') && Extends(s, s')
  {
    var events := [PutDone(g, decided.idempotencyKey, stored, false)];
    LostPutOk(s.log, s.log + events, decided.idempotencyKey);
    StepFrame(config, s, g, s.gateways[g].(phase := FetchingWinner(call, decided)), s.durable, events);
  }

  lemma PutWins(config: Config, s: System, g: nat, call: Call, decided: Record, committedAt: int,
      approvals: seq<A.Approval>)
    requires Inv(config, s) && g < |s.gateways| && s.gateways[g].phase == Putting(call, decided)
    requires decided.idempotencyKey !in s.durable
    ensures
      var key, stored := decided.idempotencyKey, DurableRecord(decided, committedAt);
      var gw' := s.gateways[g].(phase := Idle, approvals := approvals);
      var events := [PutDone(g, key, stored, true), CommitAnswered(g, call, FreshAnswer(decided))];
      var s' := System(s.gateways[g := gw'], s.replicas, s.durable[key := stored], s.log + events);
      Inv(config, s') && Extends(s, s')
  {
    var key, stored := decided.idempotencyKey, DurableRecord(decided, committedAt);
    var gw' := s.gateways[g].(phase := Idle, approvals := approvals);
    var put, answer := PutDone(g, key, stored, true), CommitAnswered(g, call, FreshAnswer(decided));
    var s1 := System(s.gateways[g := gw'], s.replicas, s.durable[key := stored], s.log + [put]);
    DecidedIsBacked(config, s, g, call, decided);
    BackedStays(s.log, s1.log, key);
    PutRecorded(config, s, g, gw', key, stored);
    assert s1.log[|s1.log|-1] == put && s1.gateways[g] == gw';
    FreshAnswerKeeps(config, s1, g, call, decided);
    InTwoSteps(s, g, gw', s.durable[key := stored], put, answer);
    ExtendsOn(s, s1, With(s1, g, gw', [answer]));
  }

  lemma PutRecorded(config: Config, s: System, g: nat, gw: Gateway, key: string, stored: CommitRecord)
    requires Inv(config, s) && g < |s.gateways| && config.hasCommitRecords
    requires gw.rows == s.gateways[g].rows && gw.home == s.gateways[g].home && gw.phase.Idle?
    requires key !in s.durable && RecordOf(stored, key) && Backed(s.log, key)
    ensures
      var s' := System(s.gateways[g := gw], s.replicas, s.durable[key := stored],
        s.log + [PutDone(g, key, stored, true)]);
      Inv(config, s') && Extends(s, s')
  {
    var n := |s.log|;
    var put := PutDone(g, key, stored, true);
    var log := s.log + [put];
    assert log[n] == put;
    NoPutYet(config, s, key);
    assert forall j | 0 <= j < n :: log[j] == s.log[j];
    assert PutWon(log[n], key);
    StepFrame(config, s, g, gw, s.durable[key := stored], [put]);
  }

  lemma DecidedIsBacked(config: Config, s: System, g: nat, call: Call, decided: Record)
    requires Inv(config, s) && g < |s.gateways| && s.gateways[g].phase == Putting(call, decided)
    ensures RowOk(decided) && Backed(s.log, decided.idempotencyKey)
    ensures HasDraft(s.gateways[g].rows, ParseDraftRef(call.ref), decided.idempotencyKey)
  {}

  lemma WinnerKeeps(config: Config, s: System, l: Label)
    requires Inv(config, s) && l.WinnerReturned? && Enabled(config, s, l)
    ensures Inv(config, Apply(config, s, l)) && Extends(s, Apply(config, s, l))
  {
    var gw := s.gateways[l.g];
    var winner := Lookup(s.durable, gw.phase.decided.idempotencyKey);
    var answer := WinnerAnswer(gw.phase.decided, winner);
    assert [] + [CommitAnswered(l.g, gw.phase.call, answer)] == [CommitAnswered(l.g, gw.phase.call, answer)];
    DurableIsBacked(config, s, l.g, gw.phase.call, gw.phase.decided);
    AnswerKeeps(config, s, l.g, gw.(phase := Idle), [], gw.phase.call, answer);
  }

  lemma LookedUpKeeps(config: Config, s: System, l: Label)
    requires Inv(config, s) && l.LookedUp? && Enabled(config, s, l)
    ensures Inv(config, Apply(config, s, l)) && Extends(s, Apply(config, s, l))
  {
    var p := s.gateways[l.g].phase;
    assert s.log + [] == s.log;
    GateKeeps(config, s, l.g, s.gateways[l.g], p.call, p.record, p.identity, p.begun,
              Lookup(s.durable, p.record.idempotencyKey), l.env, []);
  }

  lemma AddKeeps(config: Config, s: System, home: nat, replicas: nat)
    requires Inv(config, s)
    ensures
      var s' := s.(gateways := s.gateways + [EmptyGateway(home)], replicas := replicas);
      Inv(config, s') && Extends(s, s')
  {
    var s' := s.(gateways := s.gateways + [EmptyGateway(home)], replicas := replicas);
    forall i | 0 <= i < |s'.log| ensures EventOk(config, s', i) { EventStays(config, s, s', i); }
  }

  lemma RestartKeeps(config: Config, s: System, g: nat)
    requires Inv(config, s) && Enabled(config, s, Restart(g))
    ensures Inv(config, Apply(config, s, Restart(g))) && Extends(s, Apply(config, s, Restart(g)))
  {
    var gw := s.gateways[g].(phase := Idle, waiting := []);
    if config.durableStores {
      QuietKeeps(config, s, g, gw, []);
    } else {
      var lost := With(s, g, gw.(alive := false), [Lost(g)]);
      QuietKeeps(config, s, g, gw.(alive := false), [Lost(g)]);
      AddKeeps(config, lost, gw.home, lost.replicas);
      ExtendsOn(s, lost, Apply(config, s, Restart(g)));
    }
  }

  lemma StepKeepsInv(config: Config, s: System, l: Label)
    requires Inv(config, s) && Enabled(config, s, l)
    ensures Inv(config, Apply(config, s, l)) && Extends(s, Apply(config, s, l))
  {
    match l
    case Join => AddKeeps(config, s, s.replicas, s.replicas + 1);
    case DraftStep(_, _, _, _, _) => DraftKeeps(config, s, l);
    case Submit(g, request) =>
      QuietKeeps(config, s, g, s.gateways[g].(waiting := s.gateways[g].waiting + [request]), []);
    case Start(g, env, decidedAt) =>
      if s.gateways[g].waiting[0].CommitOf? { StartCommitKeeps(config, s, g, env, decidedAt); }
      else { StartDiscardKeeps(config, s, g, env, decidedAt); }
    case LookedUp(_, _) => LookedUpKeeps(config, s, l);
    case ConnectorReturned(g, outcome, env, decidedAt) => ExecutedKeeps(config, s, g, outcome, env, decidedAt);
    case PutReturned(g, committedAt, env) => PutKeeps(config, s, g, committedAt, env);
    case WinnerReturned(_, _) => WinnerKeeps(config, s, l);
    case AwaitFailed(g) => QuietKeeps(config, s, g, s.gateways[g].(phase := Idle), [Rejected(g)]);
    case Operators(g, approvals) => QuietKeeps(config, s, g, s.gateways[g].(approvals := approvals), []);
    case Review(g, v) =>
      QuietKeeps(config, s, g, s.gateways[g].(qa := Qa.Record(config.qaPolicies, s.gateways[g].qa, v)),
        [Reviewed(g, v)]);
    case ResetQa(g, effectType) =>
      QuietKeeps(config, s, g, s.gateways[g].(qa := Qa.Reset(s.gateways[g].qa, effectType)),
        [QaWasReset(g, effectType)]);
    case Restart(g) => RestartKeeps(config, s, g);
  }

  lemma {:induction false} Reachable(config: Config, labels: seq<Label>)
    requires Run(config, labels).Some?
    ensures Inv(config, Run(config, labels).value)
    decreases |labels|
  {
    if labels != [] {
      Reachable(config, labels[..|labels|-1]);
      StepKeepsInv(config, Run(config, labels[..|labels|-1]).value, labels[|labels|-1]);
    }
  }

  lemma ExtendsOn(a: System, b: System, c: System)
    requires Extends(a, b) && Extends(b, c)
    ensures Extends(a, c)
  {}

  lemma UndecidedProceeds(config: Config, rows: seq<Record>, i: nat, call: Call)
    requires DistinctIds(rows) && i < |rows| && NoneCommitted(rows, rows[i].idempotencyKey)
    requires VerifiedCaller(config, call.caller).Known? && call.ref == DraftRef(rows[i].id)
    ensures BeginCommit(config, rows, call).Proceed? && BeginCommit(config, rows, call).record == rows[i]
  {
    ParseDraftRefInverts(rows[i].id);
    RowIndex(rows, rows[i]);
    FindIsCommittedFirst(rows, rows[i].idempotencyKey);
  }

  lemma UndecidedIsWritten(rows: seq<Record>, i: nat, actor: Actor, outcome: string, at: int)
    requires DistinctIds(rows) && i < |rows| && rows[i].status.Draft?
    ensures
      var decided := Decided(rows[i], DecisionWrite(Committed, actor, None, Some(outcome), at));
      RecordCommit(rows, rows[i], actor, outcome, at) == (rows[i := decided], Wrote(decided))
  {
    RowIndex(rows, rows[i]);
    DecidedIsFound(rows, i, DecisionWrite(Committed, actor, None, Some(outcome), at));
  }

  lemma ParseDraftRefInverts(id: string)
    ensures DRAFT_REF_PREFIX <= DraftRef(id) && ParseDraftRef(DraftRef(id)) == id
  {}
}
