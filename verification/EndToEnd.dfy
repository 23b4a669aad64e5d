/**
 The whole path: replicas drain one queue, each through its own gateway.
 */
module EndToEnd {
  /*
   Any number of replicas; their gateways share the durable commit records. Outcomes
   are kept in one table that all replicas share, or in the memory of each. Producers
   enqueue anything, duplicates included; locks are lost, runs fail, settles fail and
   replicas crash between any two awaits, losing whatever they kept in memory. The
   queue is the broker's and outlives them.
   */

  import opened Prelude
  import opened WorkQueue
  import opened Processor
  import G = EffectGateway
  import S = EffectStore
  import C = CommitProtocol
  import H = CommitHistory

  /** What one replica's consumer is waiting for. */
  datatype Phase =
    | Free
    | Delivered(m: Message)
    | Running(m: Message, item: WorkItem)
    | Drafted(m: Message, item: WorkItem, draftId: string)
    | Committing(m: Message, item: WorkItem, draftId: string)
    | Recording(m: Message, item: WorkItem, outcome: Outcome)
    | Settling(m: Message, result: ProcessResult)

  /** A replica: its gateway, the outcomes in its memory, and its consumer. */
  datatype Replica = Replica(g: nat, memory: Outcomes, phase: Phase)

  datatype Entry = Entry(key: string, outcome: Outcome)

  /** `ever` remembers every outcome that was ever recorded anywhere. */
  datatype System = System(commits: C.System, books: Books, table: Outcomes, ever: set<Entry>, replicas: seq<Replica>)

  /** The outcome store replica `r` sees. */
  function OutcomesOf(config: Config, s: System, r: nat): Outcomes
    requires r < |s.replicas|
  {
    if config.firstWriterWins then s.table else s.replicas[r].memory
  }

  datatype Label =
    | Join
    | Produce(body: Raw)
    | Fetch(r: nat)
    | LockLost(id: nat)
    | LookedUp(r: nat)
    | DraftsEffect(r: nat, p: G.DraftParams, caller: Option<G.Caller>, draftId: string, now: int)
    | SubmitsCommit(r: nat, call: G.Call)
    | CommitReturned(r: nat, answer: nat, attempts: nat)
    | RunEnds(r: nat, runner: RunnerResult, pipeline: PipelineResult)
    | OutcomeRecorded(r: nat)
    | MessageSettled(r: nat)
    | Crash(r: nat)
    | GatewayStep(step: C.Label)

  predicate InRun(p: Phase) { p.Running? || p.Drafted? || p.Committing? }

  /** The gateway step a label takes, if it takes one. */
  function CommitStep(s: System, l: Label): Option<C.Label> {
    match l
    case Join => Some(C.Join)
    case DraftsEffect(r, p, caller, draftId, now) =>
      if r < |s.replicas| then Some(C.DraftStep(s.replicas[r].g, p, caller, draftId, now)) else None
    case SubmitsCommit(r, call) => if r < |s.replicas| then Some(C.Submit(s.replicas[r].g, C.CommitOf(call))) else None
    case Crash(r) => if r < |s.replicas| then Some(C.Restart(s.replicas[r].g)) else None
    case GatewayStep(step) => Some(step)
    case _ => None
  }

  /** What a label asks of the replica and the queue. */
  ghost predicate Ready(config: Config, s: System, l: Label) {
    match l
    case Join => true
    case Produce(_) => true
    case LockLost(_) => true
    case GatewayStep(step) => !step.Join? && !step.Restart?
    case Fetch(r) => r < |s.replicas| && s.replicas[r].phase.Free? && Receive(s.books.q).1.Some?
    case LookedUp(r) => r < |s.replicas| && s.replicas[r].phase.Delivered?
    case DraftsEffect(r, p, _, _, _) =>
      && r < |s.replicas| && s.replicas[r].phase.Running? && HasPipeline(config, s.replicas[r].phase.m)
      && p.idempotencyKey == s.replicas[r].phase.item.idempotencyKey
    case SubmitsCommit(r, call) =>
      r < |s.replicas| && s.replicas[r].phase.Drafted? && call.ref == S.DraftRef(s.replicas[r].phase.draftId)
    case CommitReturned(r, answer, _) =>
      && r < |s.replicas| && s.replicas[r].phase.Committing? && answer < |s.commits.log|
      && var e := s.commits.log[answer];
      && e.CommitAnswered? && e.g == s.replicas[r].g && e.call.ref == S.DraftRef(s.replicas[r].phase.draftId)
        && e.result.CommittedResult?
    case RunEnds(r, _, pipeline) =>
      && r < |s.replicas| && InRun(s.replicas[r].phase) && !pipeline.PipelineCommits?
      && (s.replicas[r].phase.Running? || HasPipeline(config, s.replicas[r].phase.m))
    case OutcomeRecorded(r) => r < |s.replicas| && s.replicas[r].phase.Recording?
    case MessageSettled(r) => r < |s.replicas| && s.replicas[r].phase.Settling?
    case Crash(r) => r < |s.replicas|
  }

  ghost predicate Enabled(effects: G.Config, config: Config, s: System, l: Label) {
    var step := CommitStep(s, l);
    Ready(config, s, l) && (step.Some? ==> C.Enabled(effects, s.commits, step.value))
  }

  /** A run that ended with `result`: record first if it completed, then settle. */
  function AfterRun(m: Message, item: WorkItem, result: ProcessResult): Phase {
    if result.Completed? then Recording(m, item, result.result) else Settling(m, result)
  }

  function Enter(s: System, r: nat, phase: Phase): seq<Replica>
    requires r < |s.replicas|
  {
    s.replicas[r := s.replicas[r].(phase := phase)]
  }

  /** What the label does around the gateways, which it leaves as `commits`. */
  ghost function MoveOn(durableStores: bool, config: Config, s: System, l: Label, commits: C.System): System
    requires Ready(config, s, l)
  {
    var t := s.(commits := commits);
    match l
    case Join => t.(replicas := s.replicas + [Replica(|s.commits.gateways|, map[], Free)])
    case Produce(body) => t.(books := Do(s.books, EnqueueOp(body)))
    case LockLost(id) => t.(books := Do(s.books, AbandonOp(id)))
    case GatewayStep(_) => t
    case Fetch(r) => t.(books := Do(s.books, ReceiveOp), replicas := Enter(s, r, Delivered(Receive(s.books.q).1.value)))
    case LookedUp(r) =>
      var m := s.replicas[r].phase.m;
      var verdict := Judge(MaxFor(config, m), OutcomesOf(config, s, r), m);
      t.(replicas := Enter(s, r, if verdict.RunIt? then Running(m, verdict.item) else Settling(m, verdict.result)))
    case DraftsEffect(r, _, _, draftId, _) =>
      t.(replicas := Enter(s, r, Drafted(s.replicas[r].phase.m, s.replicas[r].phase.item, draftId)))
    case SubmitsCommit(r, _) =>
      var p := s.replicas[r].phase;
      t.(replicas := Enter(s, r, Committing(p.m, p.item, p.draftId)))
    case CommitReturned(r, _, attempts) =>
      var p := s.replicas[r].phase;
      t.(replicas := Enter(s, r, AfterRun(p.m, p.item, AfterPipeline(PipelineCommits(attempts)))))
    case RunEnds(r, runner, pipeline) =>
      var p := s.replicas[r].phase;
      t.(replicas := Enter(s, r,
        AfterRun(p.m, p.item, if HasPipeline(config, p.m) then AfterPipeline(pipeline) else AfterRunner(runner))))
    case OutcomeRecorded(r) =>
      var p := s.replicas[r].phase;
      var outcomes := Recorded(config.firstWriterWins, OutcomesOf(config, s, r), p.item.idempotencyKey, p.outcome);
      t.(table := if config.firstWriterWins then outcomes else s.table,
         ever := s.ever + {Entry(p.item.idempotencyKey, p.outcome)},
         replicas := s.replicas[r :=
           Replica(s.replicas[r].g, if config.firstWriterWins then s.replicas[r].memory else outcomes,
                                             Settling(p.m, Completed(p.outcome, false)))])
    case MessageSettled(r) =>
      var p := s.replicas[r].phase;
      t.(books := Do(s.books, SettleOp(p.m.id, p.result)), replicas := Enter(s, r, Free))
    case Crash(r) =>
      t.(replicas := s.replicas[r :=
        Replica(if durableStores then s.replicas[r].g else |s.commits.gateways|, map[], Free)])
  }

  ghost function Apply(effects: G.Config, config: Config, s: System, l: Label): System
    requires Enabled(effects, config, s, l)
  {
    var step := CommitStep(s, l);
    MoveOn(effects.durableStores, config, s, l, if step.Some? then C.Apply(effects, s.commits, step.value)
      else s.commits)
  }

  ghost function Run(effects: G.Config, config: Config, labels: seq<Label>): Option<System>
    decreases |labels|
  {
    if labels == [] then Some(System(C.System([], 0, map[], []), EMPTY_BOOKS, map[], {}, []))
    else
      var before := Run(effects, config, labels[..|labels|-1]);
      var l := labels[|labels|-1];
      if before.Some? && Enabled(effects, config, before.value, l) then Some(Apply(effects, config, before.value, l))
        else None
  }

  // ---------------------------------------------------------------------
  // The gateways see a run of the commit protocol
  // ---------------------------------------------------------------------

  ghost function CommitSteps(effects: G.Config, config: Config, labels: seq<Label>): seq<C.Label>
    requires Run(effects, config, labels).Some?
    decreases |labels|
  {
    if labels == [] then []
    else
      var before := labels[..|labels|-1];
      var step := CommitStep(Run(effects, config, before).value, labels[|labels|-1]);
      CommitSteps(effects, config, before) + (if step.Some? then [step.value] else [])
  }

  lemma StepCommits(effects: G.Config, config: Config, s: System, l: Label)
    requires Enabled(effects, config, s, l)
    ensures
      var step := CommitStep(s, l);
      if step.Some? then
        C.Enabled(effects, s.commits, step.value)
        && Apply(effects, config, s, l).commits == C.Apply(effects, s.commits, step.value)
      else Apply(effects, config, s, l).commits == s.commits
  {}

  /** Seen from the gateways, a run of the whole system is a run of the commit protocol. */
  lemma {:induction false} GatewaysRunTheProtocol(effects: G.Config, config: Config, labels: seq<Label>)
    requires Run(effects, config, labels).Some?
    ensures C.Run(effects, CommitSteps(effects, config, labels)) == Some(Run(effects, config, labels).value.commits)
    decreases |labels|
  {
    if labels != [] {
      var before := labels[..|labels|-1];
      GatewaysRunTheProtocol(effects, config, before);
      var s := Run(effects, config, before).value;
      var step := CommitStep(s, labels[|labels|-1]);
      var steps := CommitSteps(effects, config, before);
      StepCommits(effects, config, s, labels[|labels|-1]);
      if step.Some? {
        C.RunStep(effects, steps, s.commits, step.value);
      } else {
        assert steps + [] == steps;
      }
    }
  }

  // ---------------------------------------------------------------------
  // What every reachable state keeps
  // ---------------------------------------------------------------------

  ghost predicate MessageOk(bodies: seq<Raw>, m: Message) { 1 <= m.id <= |bodies| && m.body == bodies[m.id - 1] }

  ghost predicate ItemOk(bodies: seq<Raw>, m: Message, item: WorkItem) {
    MessageOk(bodies, m) && ParseWorkItem(m.body) == Some(item)
  }

  /** An outcome saying that the pipeline committed stands on an execution of the key. */
  ghost predicate Stands(outcome: Outcome, log: seq<C.Event>, key: string) {
    outcome.PipelineCommitted? ==> C.Backed(log, key)
  }

  ghost predicate HoldsDraft(commits: C.System, g: nat, draftId: string, key: string) {
    g < |commits.gateways| && C.HasDraft(commits.gateways[g].rows, draftId, key)
  }

  ghost predicate ResultOk(ever: set<Entry>, m: Message, result: ProcessResult) {
    && (result.Completed? ==>
      ParseWorkItem(m.body).Some? && Entry(ParseWorkItem(m.body).value.idempotencyKey, result.result) in ever)
    && (result == DeadLettered(MalformedEnvelope) <==> ParseWorkItem(m.body).None?)
  }

  ghost predicate PhaseOk(commits: C.System, bodies: seq<Raw>, ever: set<Entry>, g: nat, p: Phase) {
    match p
    case Free => true
    case Delivered(m) => MessageOk(bodies, m)
    case Running(m, item) => ItemOk(bodies, m, item)
    case Drafted(m, item, draftId) => ItemOk(bodies, m, item) && HoldsDraft(commits, g, draftId, item.idempotencyKey)
    case Committing(m, item, draftId) => ItemOk(bodies, m, item) && HoldsDraft(commits, g, draftId, item.idempotencyKey)
    case Recording(m, item, outcome) => ItemOk(bodies, m, item) && Stands(outcome, commits.log, item.idempotencyKey)
    case Settling(m, result) => MessageOk(bodies, m) && ResultOk(ever, m, result)
  }

  ghost predicate EntriesStand(ever: set<Entry>, log: seq<C.Event>) {
    forall e | e in ever :: Stands(e.outcome, log, e.key)
  }

  ghost predicate OnRecord(ever: set<Entry>, key: string) { exists e | e in ever :: e.key == key }

  ghost predicate SettledOk(b: Books, ever: set<Entry>) {
    && (forall id | id in b.completed ::
          1 <= id <= |b.bodies| && ParseWorkItem(b.bodies[id - 1]).Some?
            && OnRecord(ever, ParseWorkItem(b.bodies[id - 1]).value.idempotencyKey))
    && |b.q.dead| == |b.deadIds|
    && (forall k | 0 <= k < |b.deadIds| ::
          1 <= b.deadIds[k] <= |b.bodies|
          && (b.q.dead[k].reason == MalformedEnvelope <==> ParseWorkItem(b.bodies[b.deadIds[k] - 1]).None?))
  }

  ghost predicate AllEver(outcomes: Outcomes, ever: set<Entry>) {
    forall key | key in outcomes :: Entry(key, outcomes[key]) in ever
  }

  ghost predicate ReplicaOk(s: System, r: nat)
    requires r < |s.replicas|
  {
    var replica := s.replicas[r];
    && replica.g < |s.commits.gateways| && s.commits.gateways[replica.g].home == r
    && AllEver(replica.memory, s.ever) && PhaseOk(s.commits, s.books.bodies, s.ever, replica.g, replica.phase)
  }

  ghost predicate Inv(config: Config, s: System) {
    && |s.replicas| == s.commits.replicas && (forall r | 0 <= r < |s.replicas| :: ReplicaOk(s, r))
    && AllEver(s.table, s.ever) && (config.firstWriterWins ==> forall e | e in s.ever :: e.key in s.table)
    && EntriesStand(s.ever, s.commits.log) && SettledOk(s.books, s.ever)
  }

  /** Gateway steps, new bodies and new outcomes disturb no replica. */
  lemma PhaseStays(c: C.System, c': C.System, bodies: seq<Raw>, bodies': seq<Raw>, ever: set<Entry>, ever': set<Entry>,
      g: nat, p: Phase)
    requires PhaseOk(c, bodies, ever, g, p)
    requires C.Extends(c, c') && bodies <= bodies' && ever <= ever'
    ensures PhaseOk(c', bodies', ever', g, p)
  {}

  lemma EntriesStillStand(ever: set<Entry>, log: seq<C.Event>, log': seq<C.Event>)
    requires EntriesStand(ever, log) && log <= log'
    ensures EntriesStand(ever, log')
  {
    forall e | e in ever ensures Stands(e.outcome, log', e.key) {
      if e.outcome.PipelineCommitted? { C.BackedStays(log, log', e.key); }
    }
  }

  lemma ExtendsItself(c: C.System)
    ensures C.Extends(c, c)
  {}

  ghost predicate Onward(s: System, s': System) {
    && C.Extends(s.commits, s'.commits) && s.books.bodies <= s'.books.bodies && s.ever <= s'.ever
  }

  lemma ReplicaStays(s: System, s': System, r: nat)
    requires Onward(s, s') && r < |s.replicas| && r < |s'.replicas| && s'.replicas[r] == s.replicas[r]
      && ReplicaOk(s, r)
    ensures ReplicaOk(s', r)
  {
    var p := s.replicas[r];
    PhaseStays(s.commits, s'.commits, s.books.bodies, s'.books.bodies, s.ever, s'.ever, p.g, p.phase);
  }

  /** A step that changes replica `r` and leaves the others as they are. */
  lemma ReplicaStep(config: Config, s: System, s': System, r: nat)
    requires Inv(config, s) && r < |s.replicas| == |s'.replicas| && Onward(s, s')
    requires s'.replicas == s.replicas[r := s'.replicas[r]] && ReplicaOk(s', r)
      && s'.commits.replicas == s.commits.replicas
    requires AllEver(s'.table, s'.ever) && (config.firstWriterWins ==> forall e | e in s'.ever :: e.key in s'.table)
    requires EntriesStand(s'.ever, s'.commits.log) && SettledOk(s'.books, s'.ever)
    ensures Inv(config, s')
  {
    forall q | 0 <= q < |s'.replicas| ensures ReplicaOk(s', q) {
      if q != r { ReplicaStays(s, s', q); }
    }
  }

  /** A step of the environment: no replica moves. */
  lemma OutsideStep(config: Config, s: System, s': System)
    requires Inv(config, s) && s'.replicas == s.replicas && s'.commits.replicas == s.commits.replicas && Onward(s, s')
    requires s'.table == s.table && s'.ever == s.ever && SettledOk(s'.books, s.ever)
    ensures Inv(config, s')
  {
    EntriesStillStand(s.ever, s.commits.log, s'.commits.log);
    forall q | 0 <= q < |s'.replicas| ensures ReplicaOk(s', q) { ReplicaStays(s, s', q); }
  }

  lemma BooksStep(b: Books, op: Op, ever: set<Entry>)
    requires SettledOk(b, ever) && (op.EnqueueOp? || op.ReceiveOp? || op.AbandonOp?)
    ensures SettledOk(Do(b, op), ever) && b.bodies <= Do(b, op).bodies
  {}

  /** What the label does to the queue. */
  function QueueOp(s: System, l: Label): Option<Op> {
    match l
    case Produce(body) => Some(EnqueueOp(body))
    case LockLost(id) => Some(AbandonOp(id))
    case Fetch(_) => Some(ReceiveOp)
    case MessageSettled(r) =>
      if r < |s.replicas| && s.replicas[r].phase.Settling?
      then Some(SettleOp(s.replicas[r].phase.m.id, s.replicas[r].phase.result)) else None
    case _ => None
  }

  lemma MoveBooks(durableStores: bool, config: Config, s: System, l: Label, commits: C.System)
    requires Ready(config, s, l)
    ensures
      var op := QueueOp(s, l);
      MoveOn(durableStores, config, s, l, commits).books == if op.Some? then Do(s.books, op.value) else s.books
  {}

  lemma MoveConserves(durableStores: bool, config: Config, s: System, l: Label, commits: C.System)
    requires Ready(config, s, l) && Conserved(s.books)
    ensures Conserved(MoveOn(durableStores, config, s, l, commits).books)
  {
    MoveBooks(durableStores, config, s, l, commits);
    var op := QueueOp(s, l);
    if op.Some? { OpConserves(s.books, op.value); }
  }

  lemma FetchedIsOk(b: Books)
    requires Conserved(b) && Receive(b.q).1.Some?
    ensures MessageOk(Do(b, ReceiveOp).bodies, Receive(b.q).1.value)
  {
    assert Accounted(b, b.q.available[0]);
  }

  lemma InFlightBody(b: Books, id: nat)
    requires Conserved(b)
    ensures id in b.q.inFlight ==> 1 <= id <= |b.bodies| && b.q.inFlight[id].body == b.bodies[id - 1]
  {
    if id in b.q.inFlight { assert Accounted(b, b.q.inFlight[id]); }
  }

  /** Settling a held message right keeps the settled ones right. */
  lemma SettledRight(b: Books, b': Books, ever: set<Entry>, m: Message, result: ProcessResult)
    requires SettledOk(b, ever) && MessageOk(b.bodies, m) && ResultOk(ever, m, result)
    requires b' == Do(b, SettleOp(m.id, result)) && (m.id in b.q.inFlight ==> b.q.inFlight[m.id].body == m.body)
    ensures SettledOk(b', ever) && b'.bodies == b.bodies
  {
    if m.id in b.q.inFlight && result.DeadLettered? {
      assert b'.q.dead == b.q.dead + [DeadLetter(m.body, result.reason)] && b'.deadIds == b.deadIds + [m.id];
    }
  }

  /**
   What the gateway step of a label means to everyone else: nothing is undone, and a new
   gateway is where it should be.
   */
  ghost predicate Onwards(durableStores: bool, s: System, l: Label, commits: C.System) {
    var n := |s.commits.gateways|;
    && C.Extends(s.commits, commits) && commits.replicas == s.commits.replicas + (if l.Join? then 1 else 0)
    && (CommitStep(s, l).None? ==> commits == s.commits)
    && (l.Join? ==> n < |commits.gateways| && commits.gateways[n].home == s.commits.replicas)
    && (l.Crash? && !durableStores && l.r < |s.replicas| && s.replicas[l.r].g < n ==>
          n < |commits.gateways| && commits.gateways[n].home == s.commits.gateways[s.replicas[l.r].g].home)
    && (l.DraftsEffect? && l.r < |s.replicas| ==> HoldsDraft(commits, s.replicas[l.r].g, l.draftId, l.p.idempotencyKey))
  }

  lemma GatewayGoesOn(effects: G.Config, config: Config, s: System, l: Label)
    requires Enabled(effects, config, s, l) && C.Inv(effects, s.commits)
    ensures Onwards(effects.durableStores, s, l, Apply(effects, config, s, l).commits)
  {
    ExtendsItself(s.commits);
    var step := CommitStep(s, l);
    if step.Some? {
      C.StepKeepsInv(effects, s.commits, step.value);
      GatewayAdded(effects, s.commits, step.value);
      if l.DraftsEffect? { DraftedIsHeld(effects, s.commits, step.value); }
    }
  }

  /** Only a join adds a replica, and a join or the loss of a gateway adds a gateway. */
  lemma GatewayAdded(effects: G.Config, c: C.System, step: C.Label)
    requires C.Enabled(effects, c, step)
    ensures
      var c', n := C.Apply(effects, c, step), |c.gateways|;
      && c'.replicas == c.replicas + (if step.Join? then 1 else 0)
      && (step.Join? ==> n < |c'.gateways| && c'.gateways[n].home == c.replicas)
      && (step.Restart? && !effects.durableStores ==>
        n < |c'.gateways| && c'.gateways[n].home == c.gateways[step.g].home)
  {}

  lemma DraftedIsHeld(effects: G.Config, c: C.System, step: C.Label)
    requires step.DraftStep? && C.Enabled(effects, c, step)
    ensures HoldsDraft(C.Apply(effects, c, step), step.g, step.id, step.p.idempotencyKey)
  {
    var rows := c.gateways[step.g].rows;
    assert C.Apply(effects, c, step).gateways[step.g].rows[|rows|]
      == G.NewDraft(effects, step.p, step.caller, step.id, step.now);
  }

  /** A committed answer to this replica's own draft stands on an execution of its item's key. */
  lemma AnswerStands(effects: G.Config, config: Config, s: System, l: Label)
    requires C.Inv(effects, s.commits) && Inv(config, s) && l.CommitReturned? && Ready(config, s, l)
    ensures C.Backed(s.commits.log, s.replicas[l.r].phase.item.idempotencyKey)
  {
    var p := s.replicas[l.r].phase;
    var e := s.commits.log[l.answer];
    assert C.EventOk(effects, s.commits, l.answer);
    C.ParseDraftRefInverts(p.draftId);
    assert ReplicaOk(s, l.r);
    SameDraftSameKey(s.commits.gateways[e.g].rows, p.draftId, e.result.decision.value.draft.idempotencyKey,
      p.item.idempotencyKey);
  }

  lemma SameDraftSameKey(rows: seq<S.Record>, id: string, a: string, b: string)
    requires S.DistinctIds(rows) && C.HasDraft(rows, id, a) && C.HasDraft(rows, id, b)
    ensures a == b
  {}

  lemma StepKeepsInv(effects: G.Config, config: Config, s: System, l: Label)
    requires C.Inv(effects, s.commits) && Inv(config, s) && Conserved(s.books) && Enabled(effects, config, s, l)
    ensures Inv(config, Apply(effects, config, s, l))
  {
    GatewayGoesOn(effects, config, s, l);
    if l.CommitReturned? { AnswerStands(effects, config, s, l); }
    MoveKeepsInv(effects.durableStores, config, s, l, Apply(effects, config, s, l).commits);
  }

  lemma MoveKeepsInv(durableStores: bool, config: Config, s: System, l: Label, commits: C.System)
    requires Inv(config, s) && Conserved(s.books) && Ready(config, s, l) && Onwards(durableStores, s, l, commits)
    requires l.CommitReturned? ==> C.Backed(s.commits.log, s.replicas[l.r].phase.item.idempotencyKey)
    ensures Inv(config, MoveOn(durableStores, config, s, l, commits))
  {
    var s' := MoveOn(durableStores, config, s, l, commits);
    EntriesStillStand(s.ever, s.commits.log, s'.commits.log);
    if l.Join? {
      forall q | 0 <= q < |s'.replicas| ensures ReplicaOk(s', q) {
        if q < |s.replicas| { ReplicaStays(s, s', q); }
      }
    } else if l.Produce? || l.LockLost? || l.GatewayStep? {
      var op := QueueOp(s, l);
      if op.Some? { BooksStep(s.books, op.value, s.ever); }
      OutsideStep(config, s, s');
    } else if l.MessageSettled? {
      MessageSettledKeeps(config, s, s', l.r);
    } else if l.Fetch? || l.LookedUp? || l.OutcomeRecorded? || l.Crash? {
      ConsumerKeeps(durableStores, config, s, l, commits);
    } else {
      PipelineKeeps(durableStores, config, s, l, commits);
    }
  }

  lemma ConsumerKeeps(durableStores: bool, config: Config, s: System, l: Label, commits: C.System)
    requires Inv(config, s) && Conserved(s.books) && Ready(config, s, l) && Onwards(durableStores, s, l, commits)
    requires (l.Fetch? || l.LookedUp? || l.OutcomeRecorded? || l.Crash?) && EntriesStand(s.ever, commits.log)
    ensures Inv(config, MoveOn(durableStores, config, s, l, commits))
  {
    assert ReplicaOk(s, l.r);
    if l.Fetch? {
      BooksStep(s.books, ReceiveOp, s.ever);
      FetchedIsOk(s.books);
    }
    ReplicaStep(config, s, MoveOn(durableStores, config, s, l, commits), l.r);
  }

  lemma PipelineKeeps(durableStores: bool, config: Config, s: System, l: Label, commits: C.System)
    requires Inv(config, s) && Ready(config, s, l) && Onwards(durableStores, s, l, commits)
    requires (l.DraftsEffect? || l.SubmitsCommit? || l.CommitReturned? || l.RunEnds?)
      && EntriesStand(s.ever, commits.log)
    requires l.CommitReturned? ==> C.Backed(s.commits.log, s.replicas[l.r].phase.item.idempotencyKey)
    ensures Inv(config, MoveOn(durableStores, config, s, l, commits))
  {
    assert ReplicaOk(s, l.r);
    PhaseStays(s.commits, commits, s.books.bodies, s.books.bodies, s.ever, s.ever, s.replicas[l.r].g,
      s.replicas[l.r].phase);
    ReplicaStep(config, s, MoveOn(durableStores, config, s, l, commits), l.r);
  }

  lemma MessageSettledKeeps(config: Config, s: System, s': System, r: nat)
    requires Inv(config, s) && Conserved(s.books) && r < |s.replicas| && s.replicas[r].phase.Settling?
    requires
      var p := s.replicas[r].phase;
      s' == s.(books := Do(s.books, SettleOp(p.m.id, p.result)), replicas := Enter(s, r, Free))
    ensures Inv(config, s')
  {
    var p := s.replicas[r].phase;
    ExtendsItself(s.commits);
    assert ReplicaOk(s, r);
    InFlightBody(s.books, p.m.id);
    SettledRight(s.books, s'.books, s.ever, p.m, p.result);
    ReplicaStep(config, s, s', r);
  }

  lemma {:induction false} Reachable(effects: G.Config, config: Config, labels: seq<Label>)
    requires Run(effects, config, labels).Some?
    ensures Inv(config, Run(effects, config, labels).value) && Conserved(Run(effects, config, labels).value.books)
    decreases |labels|
  {
    if labels == [] {
      Conservation([]);
    } else {
      var before := labels[..|labels|-1];
      var s := Run(effects, config, before).value;
      Reachable(effects, config, before);
      GatewaysRunTheProtocol(effects, config, before);
      C.Reachable(effects, CommitSteps(effects, config, before));
      StepKeepsInv(effects, config, s, labels[|labels|-1]);
      var l := labels[|labels|-1];
      MoveConserves(effects.durableStores, config, s, l, Apply(effects, config, s, l).commits);
    }
  }

  // ---------------------------------------------------------------------
  // What holds of every run
  // ---------------------------------------------------------------------

  /**
   However messages are duplicated and redelivered, runs fail, settles fail and
   replicas crash, and whether or not an outcome was ever recorded: a replica
   executes a key to a return at most once, plus once for every crash that took its
   gateway's memory between that return and the first put of the key. With durable
   stores that is at most once, and at most once for each replica over all.
   */
  lemma {:induction false} AtMostOnce(effects: G.Config, config: Config, labels: seq<Label>, r: nat, key: string)
    requires Run(effects, config, labels).Some? && r < |Run(effects, config, labels).value.replicas|
    ensures
      var s := Run(effects, config, labels).value;
      var all, cut := H.Executors(s.commits.log, key), H.CutShort(effects, s.commits, key);
      && |H.OfReplica(s.commits, all, r)| <= 1 + |H.OfReplica(s.commits, cut, r)|
      && H.Executions(s.commits.log, key) == |all| <= |s.replicas| + |cut|
      && (effects.durableStores ==>
        |H.OfReplica(s.commits, all, r)| <= 1 && H.Executions(s.commits.log, key) <= |s.replicas|)
  {
    GatewaysRunTheProtocol(effects, config, labels);
    Reachable(effects, config, labels);
    var steps := CommitSteps(effects, config, labels);
    H.OncePerReplica(effects, steps, r, key);
    H.ExecutionsBounded(effects, steps, key);
    C.Reachable(effects, steps);
    H.ExecutionsAreCounted(effects, Run(effects, config, labels).value.commits, key);
  }

  /**
   Every enqueued message is in exactly one place. A completed one is well formed
   and an outcome was recorded for its key, in the shared table still on record; an
   outcome that says the pipeline committed stands on an execution of that key; and
   a dead one is labelled malformed exactly when it is.
   */
  lemma {:induction false} CompletedMeansDone(effects: G.Config, config: Config, labels: seq<Label>)
    requires Run(effects, config, labels).Some?
    ensures
      var s := Run(effects, config, labels).value;
      && Conserved(s.books) && SettledOk(s.books, s.ever)
      && (config.firstWriterWins ==> forall key :: OnRecord(s.ever, key) <==> key in s.table)
      && (forall e | e in s.ever && e.outcome.PipelineCommitted? :: C.Backed(s.commits.log, e.key))
  {
    Reachable(effects, config, labels);
    var s := Run(effects, config, labels).value;
    forall e | e in s.ever && e.outcome.PipelineCommitted? ensures C.Backed(s.commits.log, e.key) {
      assert Stands(e.outcome, s.commits.log, e.key);
    }
    forall key | key in s.table ensures OnRecord(s.ever, key) { assert Entry(key, s.table[key]) in s.ever; }
  }

  /** From the `n`th step on replica `r` keeps its outcomes: they are in the table, or it does not crash. */
  ghost predicate Remembers(config: Config, labels: seq<Label>, n: nat, r: nat) {
    config.firstWriterWins || forall k | n <= k < |labels| :: labels[k] != Crash(r)
  }

  lemma MoveKeepsOutcomes(durableStores: bool, config: Config, s: System, l: Label, commits: C.System, r: nat)
    requires Ready(config, s, l) && r < |s.replicas| && (config.firstWriterWins || l != Crash(r))
    ensures
      var s' := MoveOn(durableStores, config, s, l, commits);
      && r < |s'.replicas| && OutcomesOf(config, s, r).Keys <= OutcomesOf(config, s', r).Keys
      && (config.firstWriterWins ==> forall key | key in s.table :: s'.table[key] == s.table[key])
  {}

  /**
   What replica `r` has on record stays on record: in the shared table for ever and
   with the first outcome, in its own memory until it crashes.
   */
  lemma {:induction false} OutcomesAreKept(effects: G.Config, config: Config, labels: seq<Label>, n: nat, r: nat)
    requires n <= |labels| && Run(effects, config, labels).Some? && Run(effects, config, labels[..n]).Some?
    requires r < |Run(effects, config, labels[..n]).value.replicas| && Remembers(config, labels, n, r)
    ensures r < |Run(effects, config, labels).value.replicas|
    ensures
      var s, s' := Run(effects, config, labels[..n]).value, Run(effects, config, labels).value;
      && OutcomesOf(config, s, r).Keys <= OutcomesOf(config, s', r).Keys
      && (config.firstWriterWins ==> forall key | key in s.table :: s'.table[key] == s.table[key])
    decreases |labels|
  {
    if n == |labels| {
      assert labels[..n] == labels;
    } else {
      var before := labels[..|labels|-1];
      assert before[..n] == labels[..n];
      OutcomesAreKept(effects, config, before, n, r);
      var mid, l := Run(effects, config, before).value, labels[|labels|-1];
      MoveKeepsOutcomes(effects.durableStores, config, mid, l, Apply(effects, config, mid, l).commits, r);
    }
  }

  /**
   Once a key is on record with replica `r`, every delivery it looks up afterwards,
   at any delivery count, is completed with the recorded outcome: it is neither run
   again nor dead-lettered. With the table store this holds for all replicas and for
   ever, with the first outcome; with outcomes in memory, until the replica crashes.
   */
  lemma {:induction false} RecordedIsNeverRerun(effects: G.Config, config: Config, labels: seq<Label>, n: nat, r: nat)
    requires n <= |labels| && Run(effects, config, labels + [LookedUp(r)]).Some?
    requires
      var s := Run(effects, config, labels);
      s.Some? && r < |s.value.replicas| && s.value.replicas[r].phase.Delivered?
      && ParseWorkItem(s.value.replicas[r].phase.m.body).Some?
    requires
      var key := ParseWorkItem(Run(effects, config, labels).value.replicas[r].phase.m.body).value.idempotencyKey;
      var s := Run(effects, config, labels[..n]);
      s.Some? && r < |s.value.replicas| && key in OutcomesOf(config, s.value, r) && Remembers(config, labels, n, r)
    ensures
      var s := Run(effects, config, labels).value;
      var m := s.replicas[r].phase.m;
      var key := ParseWorkItem(m.body).value.idempotencyKey;
      && key in OutcomesOf(config, s, r)
      && Run(effects, config, labels + [LookedUp(r)]).value.replicas[r].phase
         == Settling(m, Completed(OutcomesOf(config, s, r)[key], true))
      && (config.firstWriterWins ==> s.table[key] == Run(effects, config, labels[..n]).value.table[key])
  {
    OutcomesAreKept(effects, config, labels, n, r);
    assert (labels + [LookedUp(r)])[..|labels|] == labels;
  }

  /**
   What a delivery meets is the replica's own store: with outcomes in memory, a well
   formed message is run on replica `r` exactly when `r` itself has no outcome of its
   key, whatever the others have recorded, and the delivery count allows it.
   */
  lemma RerunExactlyWhenUnknownHere(effects: G.Config, config: Config, s: System, r: nat)
    requires Enabled(effects, config, s, LookedUp(r)) && !config.firstWriterWins
      && ParseWorkItem(s.replicas[r].phase.m.body).Some?
    ensures
      var m := s.replicas[r].phase.m;
      Apply(effects, config, s, LookedUp(r)).replicas[r].phase.Running? <==>
        ParseWorkItem(m.body).value.idempotencyKey !in s.replicas[r].memory && m.deliveryCount < MaxFor(config, m)
  {}

  lemma {:induction false} RunNext(effects: G.Config, config: Config, labels: seq<Label>, s: System, l: Label)
    requires Run(effects, config, labels) == Some(s) && Enabled(effects, config, s, l)
    ensures Run(effects, config, labels + [l]) == Some(Apply(effects, config, s, l))
  {
    assert (labels + [l])[..|labels|] == labels;
  }

  /** A step that no gateway takes part in. */
  lemma {:induction false} RunLocal(effects: G.Config, config: Config, labels: seq<Label>, s: System, l: Label)
    requires Run(effects, config, labels) == Some(s) && Ready(config, s, l) && CommitStep(s, l).None?
    ensures Run(effects, config, labels + [l]) == Some(MoveOn(effects.durableStores, config, s, l, s.commits))
  {
    RunNext(effects, config, labels, s, l);
  }

  lemma TwoJoin(effects: G.Config, config: Config) returns (s: System)
    ensures Run(effects, config, [Join] + [Join]) == Some(s) && |s.replicas| == 2 && s.ever == {}
      && s.books == EMPTY_BOOKS
    ensures forall r | 0 <= r < 2 :: s.replicas[r].phase == Free && s.replicas[r].memory == map[]
  {
    s := Run(effects, config, []).value;
    RunNext(effects, config, [], s, Join);
    assert [] + [Join] == [Join];
    s := Apply(effects, config, s, Join);
    RunNext(effects, config, [Join], s, Join);
    s := Apply(effects, config, s, Join);
  }

  lemma DuplicatesQueued(effects: G.Config, config: Config, body: Raw) returns (labels: seq<Label>, s: System)
    ensures Run(effects, config, labels) == Some(s) && |s.replicas| == 2 && s.ever == {}
    ensures forall r | 0 <= r < 2 :: s.replicas[r].phase == Free && s.replicas[r].memory == map[]
    ensures s.books.q.available == [Message(1, body, 0), Message(2, body, 0)] && !s.books.q.closed
  {
    s := TwoJoin(effects, config);
    labels := [Join] + [Join];
    var c, durable := s.commits, effects.durableStores;
    RunLocal(effects, config, labels, s, Produce(body));
    labels, s := labels + [Produce(body)], MoveOn(durable, config, s, Produce(body), c);
    RunLocal(effects, config, labels, s, Produce(body));
    labels, s := labels + [Produce(body)], MoveOn(durable, config, s, Produce(body), c);
  }

  /** Two replicas, the same body enqueued twice, each replica holding one of the messages. */
  lemma DuplicatesDelivered(effects: G.Config, config: Config, body: Raw) returns (labels: seq<Label>, s: System)
    ensures Run(effects, config, labels) == Some(s) && |s.replicas| == 2 && s.ever == {}
    ensures s.replicas[0].phase == Delivered(Message(1, body, 1))
      && s.replicas[1].phase == Delivered(Message(2, body, 1))
    ensures s.replicas[0].memory == map[] && s.replicas[1].memory == map[]
  {
    labels, s := DuplicatesQueued(effects, config, body);
    var c, durable := s.commits, effects.durableStores;
    RunLocal(effects, config, labels, s, Fetch(0));
    labels, s := labels + [Fetch(0)], MoveOn(durable, config, s, Fetch(0), c);
    assert s.books.q.available == [Message(2, body, 0)];
    RunLocal(effects, config, labels, s, Fetch(1));
    labels, s := labels + [Fetch(1)], MoveOn(durable, config, s, Fetch(1), c);
  }

  /** The first of two replicas runs its message and records the outcome in its own memory. */
  lemma FirstRecords(effects: G.Config, config: Config, body: Raw) returns (labels: seq<Label>, s: System)
    requires !config.firstWriterWins && ParseWorkItem(body).Some? && MaxFor(config, Message(1, body, 1)) > 1
    ensures Run(effects, config, labels) == Some(s) && |s.replicas| == 2
    ensures OnRecord(s.ever, ParseWorkItem(body).value.idempotencyKey)
    ensures s.replicas[1].phase == Delivered(Message(2, body, 1)) && s.replicas[1].memory == map[]
  {
    var item := ParseWorkItem(body).value;
    labels, s := DuplicatesDelivered(effects, config, body);
    var c, durable := s.commits, effects.durableStores;
    var ends := RunEnds(0, RunnerReturned("done"), PipelineBridges(true, 1));
    var outcome := if HasPipeline(config, Message(1, body, 1)) then BridgedAndResolved(1) else RunnerAnswered("done");
    RunLocal(effects, config, labels, s, LookedUp(0));
    labels, s := labels + [LookedUp(0)], MoveOn(durable, config, s, LookedUp(0), c);
    RunLocal(effects, config, labels, s, ends);
    labels, s := labels + [ends], MoveOn(durable, config, s, ends, c);
    RunLocal(effects, config, labels, s, OutcomeRecorded(0));
    labels, s := labels + [OutcomeRecorded(0)], MoveOn(durable, config, s, OutcomeRecorded(0), c);
    assert Entry(item.idempotencyKey, outcome) in s.ever;
  }

  /**
   With outcomes in memory the guarantee stops at the replica: the first replica runs
   the item, in its pipeline if it has one, and records its outcome; and the second
   runs the duplicate again.
   */
  lemma DuplicateRunsOnAnotherReplica(effects: G.Config, config: Config, body: Raw)
      returns (labels: seq<Label>, s: System)
    requires !config.firstWriterWins && ParseWorkItem(body).Some? && MaxFor(config, Message(1, body, 1)) > 1
    ensures Run(effects, config, labels) == Some(s) && |s.replicas| == 2
    ensures
      var item := ParseWorkItem(body).value;
      OnRecord(s.ever, item.idempotencyKey) && s.replicas[1].phase == Running(Message(2, body, 1), item)
  {
    labels, s := FirstRecords(effects, config, body);
    RunLocal(effects, config, labels, s, LookedUp(1));
    RerunExactlyWhenUnknownHere(effects, config, s, 1);
    labels, s := labels + [LookedUp(1)], MoveOn(effects.durableStores, config, s, LookedUp(1), s.commits);
  }
}
