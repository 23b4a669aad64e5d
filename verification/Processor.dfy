/**
 What becomes of a delivered message: the plain and the pipeline processor over
 the queue and the outcome store, and how a filled queue drains.
 */
module Processor {
  import opened Prelude
  import opened WorkQueue

  datatype Outcome = RunnerAnswered(text: string) | PipelineCommitted(attempts: nat) | BridgedAndResolved(attempts: nat)
  datatype ProcessResult = Completed(result: Outcome, shortCircuited: bool) | DeadLettered(reason: Reason) | Abandoned

  datatype RunnerResult = RunnerThrew | RunnerReturned(text: string)
  datatype PipelineResult =
    | PipelineThrew
    | PipelineCommits(attempts: nat)
    | PipelineDeadLetters(reason: string)
    | PipelineEscalates
    | PipelineBridges(resolved: bool, attempts: nat)

  /** `pipelines` holds the item types with a pipeline. The table-backed outcome store is the first-writer-wins one. */
  datatype Config = Config(pipelines: set<string>, pipelineMax: nat, fallbackMax: nat, firstWriterWins: bool)

  type Outcomes = map<string, Outcome>

  function Recorded(firstWriterWins: bool, outcomes: Outcomes, key: string, outcome: Outcome): Outcomes {
    if firstWriterWins && key in outcomes then outcomes else outcomes[key := outcome]
  }

  class IdempotencyStore {
    const firstWriterWins: bool
    var outcomes: Outcomes

    constructor (firstWriterWins: bool)
      ensures this.firstWriterWins == firstWriterWins && outcomes == map[]
    {
      this.firstWriterWins := firstWriterWins;
      outcomes := map[];
    }

    method Get(key: string) returns (r: Option<Outcome>)
      ensures r == if key in outcomes then Some(outcomes[key]) else None
    {
      r := if key in outcomes then Some(outcomes[key]) else None;
    }

    method Set(key: string, outcome: Outcome)
      modifies this
      ensures outcomes == Recorded(firstWriterWins, old(outcomes), key, outcome)
    {
      if firstWriterWins && key in outcomes {
        return;
      }
      outcomes := outcomes[key := outcome];
    }
  }

  // ---------------------------------------------------------------------
  // One delivery
  // ---------------------------------------------------------------------

  datatype Verdict = Settles(result: ProcessResult) | RunIt(item: WorkItem)

  /** Before any run: the envelope, then the recorded outcome, then the delivery count. */
  function Judge(max: nat, outcomes: Outcomes, m: Message): Verdict {
    var item := ParseWorkItem(m.body);
    if item.None? then Settles(DeadLettered(MalformedEnvelope))
    else if item.value.idempotencyKey in outcomes then Settles(Completed(outcomes[item.value.idempotencyKey], true))
    else if m.deliveryCount >= max then Settles(DeadLettered(PoisonMessage))
    else RunIt(item.value)
  }

  function AfterRunner(runner: RunnerResult): ProcessResult {
    if runner.RunnerThrew? then Abandoned else Completed(RunnerAnswered(runner.text), false)
  }

  function AfterPipeline(pipeline: PipelineResult): ProcessResult {
    match pipeline
    case PipelineThrew => Abandoned
    case PipelineDeadLetters(reason) => DeadLettered(PipelineReason(reason))
    case PipelineEscalates => DeadLettered(EscalationUnarmed)
    case PipelineBridges(resolved, attempts) =>
      if resolved then Completed(BridgedAndResolved(attempts), false) else DeadLettered(EscalationUnresolved)
    case PipelineCommits(attempts) => Completed(PipelineCommitted(attempts), false)
  }

  function Settled(q: Queue, id: nat, result: ProcessResult): Queue {
    match result
    case Completed(_, _) => Complete(q, id)
    case DeadLettered(reason) => DeadLetterIt(q, id, reason)
    case Abandoned => Abandon(q, id)
  }

  predicate HasPipeline(config: Config, m: Message) {
    var item := ParseWorkItem(m.body);
    item.Some? && item.value.itemType in config.pipelines
  }

  function MaxFor(config: Config, m: Message): nat {
    if HasPipeline(config, m) then config.pipelineMax else config.fallbackMax
  }

  function ResultOf(config: Config, outcomes: Outcomes, m: Message, runner: RunnerResult,
      pipeline: PipelineResult): ProcessResult
  {
    var verdict := Judge(MaxFor(config, m), outcomes, m);
    match verdict
    case Settles(result) => result
    case RunIt(_) => if HasPipeline(config, m) then AfterPipeline(pipeline) else AfterRunner(runner)
  }

  function OutcomesAfter(config: Config, outcomes: Outcomes, m: Message, result: ProcessResult): Outcomes {
    var item := ParseWorkItem(m.body);
    if item.Some? && result.Completed? && !result.shortCircuited
    then Recorded(config.firstWriterWins, outcomes, item.value.idempotencyKey, result.result) else outcomes
  }

  predicate Runs(config: Config, outcomes: Outcomes, m: Message) { Judge(MaxFor(config, m), outcomes, m).RunIt? }

  class WorkItemProcessor {
    const queue: InMemoryWorkItemQueue
    const outcomes: IdempotencyStore
    const max: nat

    constructor (queue: InMemoryWorkItemQueue, outcomes: IdempotencyStore, max: nat)
      ensures this.queue == queue && this.outcomes == outcomes && this.max == max
    {
      this.queue, this.outcomes, this.max := queue, outcomes, max;
    }

    /** `runner` is what the orchestrator runner would answer. */
    method Process(m: Message, runner: RunnerResult) returns (r: ProcessResult)
      modifies queue, outcomes
      ensures
        var config := Config({}, 0, max, outcomes.firstWriterWins);
        && r == ResultOf(config, old(outcomes.outcomes), m, runner, PipelineThrew)
        && queue.State() == Settled(old(queue.State()), m.id, r)
        && outcomes.outcomes == OutcomesAfter(config, old(outcomes.outcomes), m, r)
    {
      var parsed := ParseWorkItem(m.body);
      if parsed.None? {
        queue.DeadLetterMessage(m, MalformedEnvelope);
        return DeadLettered(MalformedEnvelope);
      }
      var item := parsed.value;
      var recorded := outcomes.Get(item.idempotencyKey);
      if recorded.Some? {
        queue.CompleteMessage(m);
        return Completed(recorded.value, true);
      }
      if m.deliveryCount >= max {
        queue.DeadLetterMessage(m, PoisonMessage);
        return DeadLettered(PoisonMessage);
      }
      if runner.RunnerThrew? {
        queue.AbandonMessage(m);
        return Abandoned;
      }
      var result := RunnerAnswered(runner.text);
      outcomes.Set(item.idempotencyKey, result);
      queue.CompleteMessage(m);
      r := Completed(result, false);
    }
  }

  class PipelineWorkItemProcessor {
    const config: Config
    const queue: InMemoryWorkItemQueue
    const outcomes: IdempotencyStore
    const fallback: WorkItemProcessor

    constructor (config: Config, queue: InMemoryWorkItemQueue, outcomes: IdempotencyStore, fallback: WorkItemProcessor)
      ensures this.config == config && this.queue == queue && this.outcomes == outcomes && this.fallback == fallback
    {
      this.config, this.queue, this.outcomes, this.fallback := config, queue, outcomes, fallback;
    }

    predicate Wired()
      reads this
    {
      && fallback.queue == queue && fallback.outcomes == outcomes
      && fallback.max == config.fallbackMax && outcomes.firstWriterWins == config.firstWriterWins
    }

    method Process(m: Message, runner: RunnerResult, pipeline: PipelineResult) returns (r: ProcessResult)
      requires Wired()
      modifies queue, outcomes
      ensures r == ResultOf(config, old(outcomes.outcomes), m, runner, pipeline)
      ensures queue.State() == Settled(old(queue.State()), m.id, r)
      ensures outcomes.outcomes == OutcomesAfter(config, old(outcomes.outcomes), m, r)
    {
      var parsed := ParseWorkItem(m.body);
      if parsed.None? {
        r := fallback.Process(m, runner);
        return;
      }
      var item := parsed.value;
      if item.itemType !in config.pipelines {
        r := fallback.Process(m, runner);
        return;
      }
      var recorded := outcomes.Get(item.idempotencyKey);
      if recorded.Some? {
        queue.CompleteMessage(m);
        return Completed(recorded.value, true);
      }
      if m.deliveryCount >= config.pipelineMax {
        queue.DeadLetterMessage(m, PoisonMessage);
        return DeadLettered(PoisonMessage);
      }
      match pipeline
      case PipelineThrew =>
        queue.AbandonMessage(m);
        return Abandoned;
      case PipelineDeadLetters(reason) =>
        queue.DeadLetterMessage(m, PipelineReason(reason));
        return DeadLettered(PipelineReason(reason));
      case PipelineEscalates =>
        queue.DeadLetterMessage(m, EscalationUnarmed);
        return DeadLettered(EscalationUnarmed);
      case PipelineBridges(resolved, attempts) =>
        if !resolved {
          queue.DeadLetterMessage(m, EscalationUnresolved);
          return DeadLettered(EscalationUnresolved);
        }
        outcomes.Set(item.idempotencyKey, BridgedAndResolved(attempts));
        queue.CompleteMessage(m);
        r := Completed(BridgedAndResolved(attempts), false);
      case PipelineCommits(attempts) =>
        outcomes.Set(item.idempotencyKey, PipelineCommitted(attempts));
        queue.CompleteMessage(m);
        r := Completed(PipelineCommitted(attempts), false);
    }
  }

  /**
   Each reason and each completion happens exactly when it should, whichever
   processor gets the message; a delivery whose key has an outcome is completed
   with that outcome, whatever its delivery count.
   */
  lemma ReasonsAreExact(config: Config, outcomes: Outcomes, m: Message, runner: RunnerResult, pipeline: PipelineResult)
    ensures
      var item := ParseWorkItem(m.body);
      var r := ResultOf(config, outcomes, m, runner, pipeline);
      var known := item.Some? && item.value.idempotencyKey in outcomes;
      && (r == DeadLettered(MalformedEnvelope) <==> item.None?)
      && (r.Completed? && r.shortCircuited <==> known)
      && (known ==>
        r.result == outcomes[item.value.idempotencyKey] && OutcomesAfter(config, outcomes, m, r) == outcomes)
      && (r == DeadLettered(PoisonMessage) <==> item.Some? && !known && MaxFor(config, m) <= m.deliveryCount)
      && (r == DeadLettered(EscalationUnarmed)
        <==> Runs(config, outcomes, m) && HasPipeline(config, m) && pipeline.PipelineEscalates?)
      && (r == DeadLettered(EscalationUnresolved) <==>
            Runs(config, outcomes, m) && HasPipeline(config, m) && pipeline.PipelineBridges? && !pipeline.resolved)
      && (r.Abandoned? <==>
            Runs(config, outcomes, m) && if HasPipeline(config, m) then pipeline.PipelineThrew?
              else runner.RunnerThrew?)
      && (r.Completed? ==> item.Some? && item.value.idempotencyKey in OutcomesAfter(config, outcomes, m, r))
  {}

  // ---------------------------------------------------------------------
  // Draining
  // ---------------------------------------------------------------------

  /** One consumer on a filled queue; `runs` logs the id of every message that was run. */
  datatype Drain = Drain(books: Books, outcomes: Outcomes, runs: seq<nat>)
  datatype Turn = Turn(runner: RunnerResult, pipeline: PipelineResult)

  function SettleOp(id: nat, result: ProcessResult): Op {
    match result
    case Completed(_, _) => CompleteOp(id)
    case DeadLettered(reason) => DeadLetterOp(id, reason)
    case Abandoned => AbandonOp(id)
  }

  ghost function Deliver(config: Config, d: Drain, t: Turn): Drain {
    var (q, got) := Receive(d.books.q);
    if got.None? then d
    else
      var m := got.value;
      var r := ResultOf(config, d.outcomes, m, t.runner, t.pipeline);
      Drain(Do(Do(d.books, ReceiveOp), SettleOp(m.id, r)), OutcomesAfter(config, d.outcomes, m, r),
            if Runs(config, d.outcomes, m) then d.runs + [m.id] else d.runs)
  }

  ghost function DeliverAll(config: Config, bodies: seq<Raw>, outcomes: Outcomes, turns: seq<Turn>): Drain
    decreases |turns|
  {
    if turns == [] then Drain(Filled(bodies), outcomes, [])
    else Deliver(config, DeliverAll(config, bodies, outcomes, turns[..|turns|-1]), turns[|turns|-1])
  }

  ghost function Filled(bodies: seq<Raw>): Books
    decreases |bodies|
  {
    if bodies == [] then EMPTY_BOOKS else Do(Filled(bodies[..|bodies|-1]), EnqueueOp(bodies[|bodies|-1]))
  }

  /** After this many deliveries a body is settled for certain. */
  function Limit(config: Config, body: Raw): (n: nat)
    ensures n >= 1
  {
    MaxInt(1, MaxFor(config, Message(0, body, 0)))
  }

  function Budget(config: Config, bodies: seq<Raw>): nat
    decreases |bodies|
  {
    if bodies == [] then 0 else Budget(config, bodies[..|bodies|-1]) + Limit(config, bodies[|bodies|-1])
  }

  /** The deliveries the waiting messages still have before them. */
  function Work(config: Config, s: seq<Message>): int
    decreases |s|
  {
    if s == [] then 0
    else Work(config, s[..|s|-1]) + (Limit(config, s[|s|-1].body) - s[|s|-1].deliveryCount)
  }

  function Times(s: seq<nat>, id: nat): nat
    decreases |s|
  {
    if s == [] then 0 else Times(s[..|s|-1], id) + (if s[|s|-1] == id then 1 else 0)
  }

  ghost predicate UnknownKey(outcomes: Outcomes, body: Raw) {
    ParseWorkItem(body).Some? && ParseWorkItem(body).value.idempotencyKey !in outcomes
  }

  ghost predicate Waits(config: Config, d: Drain, m: Message) {
    && m.deliveryCount < Limit(config, m.body)
    && Times(d.runs, m.id) <= m.deliveryCount
    && (UnknownKey(d.outcomes, m.body) ==> Times(d.runs, m.id) == m.deliveryCount)
  }

  ghost predicate CompletedOk(d: Drain, id: nat) {
    && 1 <= id <= |d.books.bodies| && ParseWorkItem(d.books.bodies[id - 1]).Some?
    && ParseWorkItem(d.books.bodies[id - 1]).value.idempotencyKey in d.outcomes
  }

  ghost predicate DeadOk(config: Config, d: Drain, k: nat)
    requires k < |d.books.deadIds| && k < |d.books.q.dead|
  {
    var id, reason := d.books.deadIds[k], d.books.q.dead[k].reason;
    && 1 <= id <= |d.books.bodies|
    && (reason == MalformedEnvelope <==> ParseWorkItem(d.books.bodies[id - 1]).None?)
    && (reason == PoisonMessage ==> Times(d.runs, id) == Limit(config, d.books.bodies[id - 1]) - 1)
  }

  ghost predicate RunsOk(config: Config, d: Drain) {
    forall id | 1 <= id <= |d.books.bodies| :: Times(d.runs, id) <= Limit(config, d.books.bodies[id - 1]) - 1
  }

  ghost predicate Between(b: Books) { !b.q.closed && b.q.inFlight == map[] && b.dropped == [] }

  ghost predicate DrainOk(config: Config, d: Drain) {
    var b := d.books;
    && |b.q.dead| == |b.deadIds|
    && (forall i | 0 <= i < |b.q.available| :: Waits(config, d, b.q.available[i]))
    && (forall id | id in b.completed :: CompletedOk(d, id))
    && (forall k | 0 <= k < |b.deadIds| :: DeadOk(config, d, k))
    && RunsOk(config, d)
  }

  ghost predicate DrainInv(config: Config, d: Drain) { Conserved(d.books) && Between(d.books) && DrainOk(config, d) }

  /** The first waiting message is where it is once, and nowhere else. */
  ghost predicate FirstAlone(b: Books) {
    && b.q.available != [] && Accounted(b, b.q.available[0])
    && (forall j | 0 < j < |b.q.available| :: b.q.available[j].id != b.q.available[0].id)
    && b.q.available[0].id !in b.completed && b.q.available[0].id !in b.deadIds
  }

  lemma {:induction false} WorkFirst(config: Config, s: seq<Message>)
    requires s != []
    ensures Work(config, s) == Work(config, s[1..]) + (Limit(config, s[0].body) - s[0].deliveryCount)
    decreases |s|
  {
    if |s| > 1 {
      WorkFirst(config, s[..|s|-1]);
      assert s[..|s|-1][1..] == s[1..][..|s|-2];
    }
  }

  lemma WorkLast(config: Config, s: seq<Message>, m: Message)
    ensures Work(config, s + [m]) == Work(config, s) + (Limit(config, m.body) - m.deliveryCount)
  {}

  lemma {:induction false} WorkCoversAll(config: Config, d: Drain, s: seq<Message>)
    requires forall i | 0 <= i < |s| :: Waits(config, d, s[i])
    ensures Work(config, s) >= |s|
    decreases |s|
  {
    if s != [] { WorkCoversAll(config, d, s[..|s|-1]); }
  }

  lemma {:induction false} FilledConserves(bodies: seq<Raw>)
    ensures Conserved(Filled(bodies))
    decreases |bodies|
  {
    if bodies == [] {
      assert Ids([]) == [];
    } else {
      FilledConserves(bodies[..|bodies|-1]);
      OpConserves(Filled(bodies[..|bodies|-1]), EnqueueOp(bodies[|bodies|-1]));
    }
  }

  lemma {:induction false} FilledIsReady(config: Config, bodies: seq<Raw>, outcomes: Outcomes)
    ensures
      var b := Filled(bodies);
      && Between(b) && DrainOk(config, Drain(b, outcomes, [])) && b.bodies == bodies
      && Work(config, b.q.available) == Budget(config, bodies) && b.completed == [] && b.deadIds == []
    decreases |bodies|
  {
    if bodies != [] {
      var before := bodies[..|bodies|-1];
      FilledIsReady(config, before, outcomes);
      OneMoreIsReady(config, Filled(before), bodies[|bodies|-1], outcomes);
      assert bodies == before + [bodies[|bodies|-1]];
    }
  }

  lemma OneMoreIsReady(config: Config, b: Books, body: Raw, outcomes: Outcomes)
    requires Between(b) && DrainOk(config, Drain(b, outcomes, [])) && b.completed == [] && b.deadIds == []
    ensures
      var b' := Do(b, EnqueueOp(body));
      && Between(b') && DrainOk(config, Drain(b', outcomes, [])) && b'.bodies == b.bodies + [body]
      && Work(config, b'.q.available) == Work(config, b.q.available) + Limit(config, body)
      && b'.completed == [] && b'.deadIds == []
  {}

  lemma FirstIsAlone(b: Books)
    requires Conserved(b) && b.q.available != []
    ensures FirstAlone(b)
  {
    var id := b.q.available[0].id;
    var ids: seq<nat> := Ids(b.q.available);
    AvailableIsNotInFlight(b, 0);
    UpToCounts(b.q.sequence, id);
    assert ids[0] == id;
    assert multiset(ids)[id] >= 1;
    assert Whereabouts(b)[id] <= 1;
    assert multiset(b.completed)[id] == 0 && multiset(b.deadIds)[id] == 0;
  }

  lemma DeliverConserves(config: Config, d: Drain, t: Turn)
    requires Conserved(d.books)
    ensures Conserved(Deliver(config, d, t).books)
  {
    var (q, got) := Receive(d.books.q);
    if got.Some? {
      OpConserves(d.books, ReceiveOp);
      OpConserves(Do(d.books, ReceiveOp),
        SettleOp(got.value.id, ResultOf(config, d.outcomes, got.value, t.runner, t.pipeline)));
    }
  }

  /** The books after the first waiting message has been delivered and settled. */
  lemma DeliverShape(config: Config, d: Drain, t: Turn)
    requires Between(d.books) && d.books.q.available != []
    ensures
      var d' := Deliver(config, d, t);
      var b, b' := d.books, d'.books;
      var m := Receive(b.q).1.value;
      var r := ResultOf(config, d.outcomes, m, t.runner, t.pipeline);
      && Between(b') && b'.bodies == b.bodies
      && b'.q.available == (if r.Abandoned? then b.q.available[1..] + [m] else b.q.available[1..])
      && b'.completed == (if r.Completed? then b.completed + [m.id] else b.completed)
      && b'.deadIds == (if r.DeadLettered? then b.deadIds + [m.id] else b.deadIds)
      && b'.q.dead == (if r.DeadLettered? then b.q.dead + [DeadLetter(m.body, r.reason)] else b.q.dead)
  {
    var b := d.books;
    var m := Receive(b.q).1.value;
    var b1 := Do(b, ReceiveOp);
    assert b1.q.inFlight == map[m.id := m];
    assert b1.q.inFlight - {m.id} == map[];
  }

  lemma WaitsStays(config: Config, d: Drain, d': Drain, m: Message)
    requires Waits(config, d, m) && Times(d'.runs, m.id) == Times(d.runs, m.id)
    requires d.outcomes.Keys <= d'.outcomes.Keys
    ensures Waits(config, d', m)
  {}

  /** The books of one message on its delivery. */
  lemma DeliveredMessage(config: Config, d: Drain, t: Turn)
    requires DrainOk(config, d) && !d.books.q.closed && d.books.q.available != []
    ensures
      var d' := Deliver(config, d, t);
      var m := Receive(d.books.q).1.value;
      var r := ResultOf(config, d.outcomes, m, t.runner, t.pipeline);
      && (r.Abandoned? ==> Waits(config, d', m))
      && Times(d'.runs, m.id) <= Limit(config, m.body) - 1
      && (r == DeadLettered(PoisonMessage) ==> Times(d'.runs, m.id) == Limit(config, m.body) - 1)
      && (forall id | id != m.id :: Times(d'.runs, id) == Times(d.runs, id))
      && d.outcomes.Keys <= d'.outcomes.Keys
  {
    var m := Receive(d.books.q).1.value;
    assert Waits(config, d, d.books.q.available[0]);
    assert (d.runs + [m.id])[..|d.runs|] == d.runs;
    assert MaxFor(config, m) == MaxFor(config, Message(0, m.body, 0));
    ReasonsAreExact(config, d.outcomes, m, t.runner, t.pipeline);
  }

  lemma DeliverKeeps(config: Config, d: Drain, t: Turn)
    requires DrainInv(config, d)
    ensures DrainInv(config, Deliver(config, d, t))
    ensures Deliver(config, d, t).books.bodies == d.books.bodies
    ensures d.books.q.available == [] ==> Deliver(config, d, t).books.q.available == []
    ensures d.books.q.available != [] ==>
      Work(config, Deliver(config, d, t).books.q.available) < Work(config, d.books.q.available)
  {
    if d.books.q.available != [] {
      FirstIsAlone(d.books);
      DeliverConserves(config, d, t);
      DeliverKeepsOk(config, d, t);
    }
  }

  /** What one delivery of the first waiting message, as `m`, with the result `r` leaves behind. */
  ghost predicate DeliveredAs(config: Config, d: Drain, d': Drain, m: Message, r: ProcessResult)
    requires d.books.q.available != []
  {
    var b, b' := d.books, d'.books;
    && m.id == b.q.available[0].id && m.body == b.q.available[0].body && b'.bodies == b.bodies
    && b'.q.available == (if r.Abandoned? then b.q.available[1..] + [m] else b.q.available[1..])
    && b'.completed == (if r.Completed? then b.completed + [m.id] else b.completed)
    && b'.deadIds == (if r.DeadLettered? then b.deadIds + [m.id] else b.deadIds)
    && b'.q.dead == (if r.DeadLettered? then b.q.dead + [DeadLetter(m.body, r.reason)] else b.q.dead)
    && (r.Abandoned? ==> Waits(config, d', m))
    && Times(d'.runs, m.id) <= Limit(config, m.body) - 1
    && (r == DeadLettered(PoisonMessage) ==> Times(d'.runs, m.id) == Limit(config, m.body) - 1)
    && (r == DeadLettered(MalformedEnvelope) <==> ParseWorkItem(m.body).None?)
    && (r.Completed? ==> ParseWorkItem(m.body).Some? && ParseWorkItem(m.body).value.idempotencyKey in d'.outcomes)
    && (forall id | id != m.id :: Times(d'.runs, id) == Times(d.runs, id))
    && d.outcomes.Keys <= d'.outcomes.Keys
  }

  lemma DeliverKeepsOk(config: Config, d: Drain, t: Turn)
    requires Between(d.books) && DrainOk(config, d) && FirstAlone(d.books)
    ensures
      var d' := Deliver(config, d, t);
      && Between(d'.books) && DrainOk(config, d') && d'.books.bodies == d.books.bodies
      && Work(config, d'.books.q.available) < Work(config, d.books.q.available)
  {
    var b := d.books;
    var d' := Deliver(config, d, t);
    var m := Receive(b.q).1.value;
    var r := ResultOf(config, d.outcomes, m, t.runner, t.pipeline);
    DeliverShape(config, d, t);
    DeliveredMessage(config, d, t);
    ReasonsAreExact(config, d.outcomes, m, t.runner, t.pipeline);
    assert DeliveredAs(config, d, d', m, r);
    WaitingStays(config, d, d', m, r);
    RunsStay(config, d, d', m);
    CompletedStays(config, d, d', m, r);
    DeadStays(config, d, d', m, r);
    assert Waits(config, d, b.q.available[0]);
    WorkFirst(config, b.q.available);
    WorkLast(config, b.q.available[1..], m);
  }

  lemma WaitingStays(config: Config, d: Drain, d': Drain, m: Message, r: ProcessResult)
    requires DrainOk(config, d) && FirstAlone(d.books) && DeliveredAs(config, d, d', m, r)
    ensures forall i | 0 <= i < |d'.books.q.available| :: Waits(config, d', d'.books.q.available[i])
  {
    var av, av' := d.books.q.available, d'.books.q.available;
    forall i | 0 <= i < |av'| ensures Waits(config, d', av'[i]) {
      if i < |av| - 1 {
        assert av'[i] == av[i + 1];
        WaitsStays(config, d, d', av[i + 1]);
      } else {
        assert r.Abandoned? && av'[i] == m;
      }
    }
  }

  lemma RunsStay(config: Config, d: Drain, d': Drain, m: Message)
    requires RunsOk(config, d) && FirstAlone(d.books) && m.id == d.books.q.available[0].id
      && m.body == d.books.q.available[0].body
    requires d'.books.bodies == d.books.bodies && Times(d'.runs, m.id) <= Limit(config, m.body) - 1
    requires forall id | id != m.id :: Times(d'.runs, id) == Times(d.runs, id)
    ensures RunsOk(config, d')
  {
    forall id | 1 <= id <= |d'.books.bodies| ensures Times(d'.runs, id) <= Limit(config, d'.books.bodies[id - 1]) - 1 {
      if id == m.id { assert d.books.bodies[id - 1] == m.body; }
    }
  }

  lemma CompletedStays(config: Config, d: Drain, d': Drain, m: Message, r: ProcessResult)
    requires DrainOk(config, d) && FirstAlone(d.books) && DeliveredAs(config, d, d', m, r)
    ensures forall id | id in d'.books.completed :: CompletedOk(d', id)
  {
    forall id | id in d'.books.completed ensures CompletedOk(d', id) {
      if id in d.books.completed {
        CompletedEntryStays(d, d', id);
      } else {
        assert r.Completed? && id == m.id && d.books.bodies[id - 1] == m.body;
      }
    }
  }

  lemma CompletedEntryStays(d: Drain, d': Drain, id: nat)
    requires CompletedOk(d, id) && d'.books.bodies == d.books.bodies && d.outcomes.Keys <= d'.outcomes.Keys
    ensures CompletedOk(d', id)
  {}

  lemma DeadStays(config: Config, d: Drain, d': Drain, m: Message, r: ProcessResult)
    requires |d.books.q.dead| == |d.books.deadIds| && forall k | 0 <= k < |d.books.deadIds| :: DeadOk(config, d, k)
    requires m.id !in d.books.deadIds && 1 <= m.id <= |d.books.bodies| && d.books.bodies[m.id - 1] == m.body
    requires d'.books.bodies == d.books.bodies && forall id | id != m.id :: Times(d'.runs, id) == Times(d.runs, id)
    requires d'.books.deadIds == (if r.DeadLettered? then d.books.deadIds + [m.id] else d.books.deadIds)
    requires d'.books.q.dead == (if r.DeadLettered? then d.books.q.dead + [DeadLetter(m.body, r.reason)]
      else d.books.q.dead)
    requires r == DeadLettered(PoisonMessage) ==> Times(d'.runs, m.id) == Limit(config, m.body) - 1
    requires r == DeadLettered(MalformedEnvelope) <==> ParseWorkItem(m.body).None?
    ensures |d'.books.deadIds| == |d'.books.q.dead| && forall k | 0 <= k < |d'.books.deadIds| :: DeadOk(config, d', k)
  {
    forall k | 0 <= k < |d'.books.deadIds| ensures DeadOk(config, d', k) {
      if k < |d.books.deadIds| {
        DeadEntryStays(config, d, d', k, m.id);
      } else {
        NewDeadEntry(config, d', k, m, r);
      }
    }
  }

  lemma NewDeadEntry(config: Config, d: Drain, k: nat, m: Message, r: ProcessResult)
    requires k < |d.books.deadIds| && k < |d.books.q.dead| && 1 <= m.id <= |d.books.bodies|
      && d.books.bodies[m.id - 1] == m.body
    requires r.DeadLettered? && d.books.deadIds[k] == m.id && d.books.q.dead[k].reason == r.reason
    requires r == DeadLettered(PoisonMessage) ==> Times(d.runs, m.id) == Limit(config, m.body) - 1
    requires r == DeadLettered(MalformedEnvelope) <==> ParseWorkItem(m.body).None?
    ensures DeadOk(config, d, k)
  {}

  lemma DeadEntryStays(config: Config, d: Drain, d': Drain, k: nat, delivered: nat)
    requires k < |d.books.deadIds| <= |d'.books.deadIds| && k < |d.books.q.dead| <= |d'.books.q.dead|
      && DeadOk(config, d, k)
    requires d'.books.bodies == d.books.bodies && d'.books.deadIds[k] == d.books.deadIds[k]
      && d'.books.q.dead[k] == d.books.q.dead[k]
    requires delivered !in d.books.deadIds && forall id | id != delivered :: Times(d'.runs, id) == Times(d.runs, id)
    ensures DeadOk(config, d', k)
  {}

  lemma {:induction false} DrainProgress(config: Config, bodies: seq<Raw>, outcomes: Outcomes, turns: seq<Turn>)
    ensures
      var d := DeliverAll(config, bodies, outcomes, turns);
      && DrainInv(config, d) && d.books.bodies == bodies
      && (d.books.q.available == [] || Work(config, d.books.q.available) + |turns| <= Budget(config, bodies))
    decreases |turns|
  {
    if turns == [] {
      FilledConserves(bodies);
      FilledIsReady(config, bodies, outcomes);
    } else {
      var before := turns[..|turns|-1];
      DrainProgress(config, bodies, outcomes, before);
      DeliverKeeps(config, DeliverAll(config, bodies, outcomes, before), turns[|turns|-1]);
    }
  }

  /**
   Whatever the runs answer, a filled queue is empty after the deliveries its
   messages are allowed, at most the larger `maxDeliveryCount` (or one) each.
   Then every message is completed, with an outcome recorded for its key, or
   dead: as malformed exactly when its envelope is, as poison only after all its
   permitted runs failed. No message is run more than one time less than that.
   */
  lemma QueueDrains(config: Config, bodies: seq<Raw>, outcomes: Outcomes, turns: seq<Turn>)
    requires |turns| >= Budget(config, bodies)
    ensures
      var d := DeliverAll(config, bodies, outcomes, turns);
      && d.books.q.available == [] && d.books.q.inFlight == map[]
      && |d.books.completed| + |d.books.q.dead| == |bodies|
      && (forall id | id in d.books.completed :: CompletedOk(d, id))
      && |d.books.deadIds| == |d.books.q.dead| && (forall k | 0 <= k < |d.books.deadIds| :: DeadOk(config, d, k))
      && RunsOk(config, d)
    ensures Budget(config, bodies) <= |bodies| * MaxInt(1, MaxInt(config.pipelineMax, config.fallbackMax))
  {
    DrainProgress(config, bodies, outcomes, turns);
    var d := DeliverAll(config, bodies, outcomes, turns);
    WorkCoversAll(config, d, d.books.q.available);
    if d.books.q.available != [] { assert false; }
    UpToCounts(d.books.q.sequence, 0);
    assert Ids(d.books.q.available) == [];
    assert |Whereabouts(d.books)| == d.books.q.sequence;
    BudgetIsBounded(config, bodies);
  }

  lemma {:induction false} BudgetIsBounded(config: Config, bodies: seq<Raw>)
    ensures Budget(config, bodies) <= |bodies| * MaxInt(1, MaxInt(config.pipelineMax, config.fallbackMax))
    decreases |bodies|
  {
    if bodies != [] {
      var cap := MaxInt(1, MaxInt(config.pipelineMax, config.fallbackMax));
      BudgetIsBounded(config, bodies[..|bodies|-1]);
      assert Limit(config, bodies[|bodies|-1]) <= cap;
      assert |bodies| * cap == (|bodies| - 1) * cap + cap;
    }
  }
}
