/**
 What the commit protocol promises of whole runs: what is decided stays decided, a
 key is executed once by a gateway and answered fresh once over all, nothing executes
 after a put, and why the decision lock is needed.
 */
module CommitGuarantees {
  import opened Prelude
  import opened EffectStore
  import opened CommitRecords
  import opened EffectGateway
  import opened CommitProtocol

  /** A run that goes on keeps every decided row, every durable record and the log as they stand. */
  lemma {:induction false} DecisionsAreFinal(config: Config, labels: seq<Label>, n: nat)
    requires n <= |labels| && Run(config, labels).Some?
    ensures Run(config, labels[..n]).Some?
    ensures Extends(Run(config, labels[..n]).value, Run(config, labels).value)
    decreases |labels|
  {
    if n == |labels| {
      assert labels[..n] == labels;
    } else {
      var before := labels[..|labels|-1];
      assert before[..n] == labels[..n];
      DecisionsAreFinal(config, before, n);
      Reachable(config, before);
      StepKeepsInv(config, Run(config, before).value, labels[|labels|-1]);
      ExtendsOn(Run(config, labels[..n]).value, Run(config, before).value, Run(config, labels).value);
    }
  }

  /** From the `n`th step on, gateway `g` is not lost: its stores are durable, or its replica is not restarted. */
  ghost predicate NotLost(config: Config, labels: seq<Label>, n: nat, g: nat) {
    config.durableStores || forall k | n <= k < |labels| :: labels[k] != Restart(g)
  }

  lemma StaysAlive(config: Config, s: System, l: Label, g: nat)
    requires Enabled(config, s, l) && g < |s.gateways| && s.gateways[g].alive
      && (config.durableStores || l != Restart(g))
    ensures g < |Apply(config, s, l).gateways| && Apply(config, s, l).gateways[g].alive
  {
    match l
    case Start(h, env, decidedAt) => StartStaysAlive(config, s, h, env, decidedAt, g);
    case LookedUp(h, env) =>
      var p := s.gateways[h].phase;
      GateStaysAlive(config, s, h, s.gateways[h], p.call, p.record, p.identity, p.begun,
                     Lookup(s.durable, p.record.idempotencyKey), env, [], g);
    case ConnectorReturned(h, outcome, env, decidedAt) =>
      assert ExecutedStep(config, s, h, outcome, env, decidedAt).gateways[g].alive;
    case PutReturned(h, committedAt, env) => assert PutStep(config, s, h, committedAt, env).gateways[g].alive;
    case _ =>
  }

  lemma GateStaysAlive(config: Config, s: System, h: nat, gw: Gateway, call: Call, record: Record, identity: Identity,
                       begun: nat, durable: Option<CommitRecord>, env: Env, events: seq<Event>, g: nat)
    requires g < |s.gateways| && h < |s.gateways| && s.gateways[g].alive && gw.alive
    ensures
      var s' := GateStep(config, s, h, gw, call, record, identity, begun, durable, env, events);
      g < |s'.gateways| && s'.gateways[g].alive
  {}

  lemma StartStaysAlive(config: Config, s: System, h: nat, env: Env, decidedAt: int, g: nat)
    requires g < |s.gateways| && h < |s.gateways| && s.gateways[g].alive && s.gateways[h].alive
      && s.gateways[h].waiting != []
    ensures
      var s' := StartStep(config, s, h, env, decidedAt);
      g < |s'.gateways| && s'.gateways[g].alive
  {
    var gw := s.gateways[h].(waiting := s.gateways[h].waiting[1..]);
    match s.gateways[h].waiting[0]
    case DiscardOf(_) =>
    case CommitOf(call) =>
      match BeginCommit(config, gw.rows, call)
      case AnswerNow(_) =>
      case Proceed(record, identity) =>
        GateStaysAlive(config, s, h, gw, call, record, identity, |s.log|, None, env, [Began(h, call)], g);
  }

  lemma {:induction false} ServesOn(config: Config, labels: seq<Label>, n: nat, g: nat)
    requires n <= |labels| && Run(config, labels).Some? && Run(config, labels[..n]).Some?
      && NotLost(config, labels, n, g)
    requires g < |Run(config, labels[..n]).value.gateways| && Run(config, labels[..n]).value.gateways[g].alive
    ensures g < |Run(config, labels).value.gateways| && Run(config, labels).value.gateways[g].alive
    decreases |labels|
  {
    if n == |labels| {
      assert labels[..n] == labels;
    } else {
      var before := labels[..|labels|-1];
      assert before[..n] == labels[..n];
      ServesOn(config, before, n, g);
      StaysAlive(config, Run(config, before).value, labels[|labels|-1], g);
    }
  }

  /**
   Once a row of a key is committed on a gateway, every commit that gateway ever
   starts for a known draft of that key by a verified caller is answered, at once,
   with that row's own decision and outcome; and until its stores are lost it is
   the gateway of its replica, with durable stores for ever.
   */
  lemma {:induction false} CommittedKeyReplaysForever(config: Config, labels: seq<Label>, n: nat, g: nat, row: Record,
      call: Call)
    requires n <= |labels| && Run(config, labels).Some? && Run(config, labels[..n]).Some?
    requires g < |Run(config, labels[..n]).value.gateways| && row in Run(config, labels[..n]).value.gateways[g].rows
    requires row.status.Committed?
    ensures g < |Run(config, labels).value.gateways|
    ensures
      var rows := Run(config, labels).value.gateways[g].rows;
      var loaded := LoadDraft(rows, call.ref);
      VerifiedCaller(config, call.caller).Known? && loaded.Found?
        && loaded.record.idempotencyKey == row.idempotencyKey ==>
        BeginCommit(config, rows, call) == AnswerNow(CommittedResult(true, ToDecisionRecord(row), row.outcome))
    ensures Run(config, labels[..n]).value.gateways[g].alive && NotLost(config, labels, n, g) ==>
      Run(config, labels).value.gateways[g].alive
  {
    DecisionsAreFinal(config, labels, n);
    Reachable(config, labels);
    if Run(config, labels[..n]).value.gateways[g].alive && NotLost(config, labels, n, g) {
      ServesOn(config, labels, n, g);
    }
    var rows := Run(config, labels).value.gateways[g].rows;
    DecidedRowStays(Run(config, labels[..n]).value.gateways[g].rows, rows, row);
    ReplaysCommitted(config, rows, row, call);
  }

  lemma ReplaysCommitted(config: Config, rows: seq<Record>, row: Record, call: Call)
    requires OneCommittedPerKey(rows) && row in rows && row.status.Committed?
    ensures
      var loaded := LoadDraft(rows, call.ref);
      VerifiedCaller(config, call.caller).Known? && loaded.Found?
        && loaded.record.idempotencyKey == row.idempotencyKey ==>
        BeginCommit(config, rows, call) == AnswerNow(CommittedResult(true, ToDecisionRecord(row), row.outcome))
  {
    FindIsCommittedFirst(rows, row.idempotencyKey);
    SameCommitted(rows, row, FindByIdempotencyKey(rows, row.idempotencyKey).value);
    var loaded := LoadDraft(rows, call.ref);
    if loaded.Found? && loaded.record.status.Committed? && loaded.record.idempotencyKey == row.idempotencyKey {
      SameCommitted(rows, row, loaded.record);
    }
  }

  lemma SameCommitted(rows: seq<Record>, a: Record, b: Record)
    requires OneCommittedPerKey(rows) && a in rows && b in rows && a.idempotencyKey == b.idempotencyKey
    requires a.status.Committed? && b.status.Committed?
    ensures a == b
  {}

  /**
   Whatever stores are lost in between: once a key has a durable record, a commit of
   that key on any gateway whose lookup comes back is answered with that record, as a
   replay.
   */
  lemma {:induction false} RecordSurvivesRowLoss(config: Config, labels: seq<Label>, n: nat, g: nat, env: Env,
      key: string)
    requires n <= |labels| && Run(config, labels).Some? && Run(config, labels[..n]).Some?
    requires key in Run(config, labels[..n]).value.durable
    requires Enabled(config, Run(config, labels).value, LookedUp(g, env))
    requires Run(config, labels).value.gateways[g].phase.record.idempotencyKey == key
    ensures
      var p := Run(config, labels).value.gateways[g].phase;
      var d := Run(config, labels[..n]).value.durable[key];
      var s := Apply(config, Run(config, labels).value, LookedUp(g, env));
      && s.gateways[g].phase.Idle? && s.log != []
      && s.log[|s.log|-1] == CommitAnswered(g, p.call, CommittedResult(true, d.decision, d.outcome))
  {
    DecisionsAreFinal(config, labels, n);
  }

  /**
   On one gateway, until it is lost, at most one row per key is committed and no key is
   executed to a return twice.
   */
  lemma {:induction false} OncePerGateway(config: Config, labels: seq<Label>, g: nat, key: string)
    requires Run(config, labels).Some? && g < |Run(config, labels).value.gateways|
    ensures
      var s := Run(config, labels).value;
      && OneCommittedPerKey(s.gateways[g].rows)
      && forall i, j | 0 <= i < j < |s.log| && Executes(s.log[i], g, key) :: !Executes(s.log[j], g, key)
  {
    Reachable(config, labels);
    var s := Run(config, labels).value;
    forall i, j | 0 <= i < j < |s.log| && Executes(s.log[i], g, key) ensures !Executes(s.log[j], g, key) {
      assert EventOk(config, s, j);
    }
  }

  ghost predicate FreshFor(e: Event, key: string) {
    IsFresh(e) && e.result.decision.Some? && e.result.decision.value.draft.idempotencyKey == key
  }

  lemma FreshIsDurable(config: Config, s: System, i: nat, key: string)
    requires Inv(config, s) && config.hasCommitRecords && i < |s.log| && FreshFor(s.log[i], key)
    ensures i > 0 && PutWon(s.log[i-1], key)
    ensures key in s.durable && s.durable[key].decision == s.log[i].result.decision
         && s.durable[key].outcome == s.log[i].result.outcome
  {
    assert EventOk(config, s, i);
    assert EventOk(config, s, i - 1);
  }

  /**
   Over all gateways, at most one call per key is ever answered as a fresh
   commit, every fresh answer says what it committed, and its decision and
   outcome are the durable record's.
   */
  lemma {:induction false} AtMostOneFreshAnswer(config: Config, labels: seq<Label>, i: nat)
    requires Run(config, labels).Some? && config.hasCommitRecords
    requires i < |Run(config, labels).value.log| && IsFresh(Run(config, labels).value.log[i])
    ensures
      var s := Run(config, labels).value;
      var r := s.log[i].result;
      && r.decision.Some?
      && var key := r.decision.value.draft.idempotencyKey;
      && key in s.durable && s.durable[key].decision == r.decision && s.durable[key].outcome == r.outcome
      && forall j | 0 <= j < |s.log| && FreshFor(s.log[j], key) :: j == i
  {
    Reachable(config, labels);
    var s := Run(config, labels).value;
    assert EventOk(config, s, i);
    var key := s.log[i].result.decision.value.draft.idempotencyKey;
    FreshIsDurable(config, s, i, key);
    forall j | 0 <= j < |s.log| && FreshFor(s.log[j], key) ensures j == i {
      FreshIsDurable(config, s, j, key);
      assert EventOk(config, s, i - 1) && EventOk(config, s, j - 1);
    }
  }

  /**
   A commit begun after any gateway's put for the key, won or lost, neither has
   executed the connector nor is executing it.
   */
  lemma {:induction false} NothingExecutesAfterAPut(config: Config, labels: seq<Label>, k: nat, key: string)
    requires Run(config, labels).Some? && config.hasCommitRecords
    requires k < |Run(config, labels).value.log| && Run(config, labels).value.log[k].PutDone?
      && Run(config, labels).value.log[k].key == key
    ensures
      var s := Run(config, labels).value;
      && (forall i | 0 <= i < |s.log| && s.log[i].Executed? && s.log[i].record.idempotencyKey == key ::
        s.log[i].begun <= k)
      && (forall g | 0 <= g < |s.gateways| && s.gateways[g].phase.Executing?
        && s.gateways[g].phase.record.idempotencyKey == key ::
            s.gateways[g].phase.begun <= k)
  {
    Reachable(config, labels);
    var s := Run(config, labels).value;
    var won := PutHasWinner(config, s, k);
    forall i | 0 <= i < |s.log| && s.log[i].Executed? && s.log[i].record.idempotencyKey == key
      ensures s.log[i].begun <= k {
      assert EventOk(config, s, i);
      BeganBeforePut(s.log, s.log[i].begun, won, key);
    }
    forall g | 0 <= g < |s.gateways| && s.gateways[g].phase.Executing?
      && s.gateways[g].phase.record.idempotencyKey == key
      ensures s.gateways[g].phase.begun <= k
    {
      assert PhaseLogged(config, s.durable, s.log, g, s.gateways[g]);
      BeganBeforePut(s.log, s.gateways[g].phase.begun, won, key);
    }
  }

  /** A put that lost did so to an earlier one. */
  lemma PutHasWinner(config: Config, s: System, k: nat) returns (won: nat)
    requires Inv(config, s) && k < |s.log| && s.log[k].PutDone?
    ensures won <= k && PutWon(s.log[won], s.log[k].key)
  {
    assert EventOk(config, s, k);
    if s.log[k].won {
      won := k;
    } else {
      won :| won < k && PutWon(s.log[won], s.log[k].key);
    }
  }

  lemma BeganBeforePut(log: seq<Event>, begun: nat, won: nat, key: string)
    requires begun <= |log| && won < |log| && NoPutBefore(log, begun, key) && PutWon(log[won], key)
    ensures begun <= won
  {}

  /**
   Why the lock matters: the compare-and-set is per draft. Let two undecided
   drafts of one uncommitted key pass the lookup before either is recorded, as
   two unserialised commits could, and both writes win: two rows of the key are
   committed and two connectors have been called.
   */
  lemma CompareAndSetAloneIsNotEnough(config: Config, rows: seq<Record>, i: nat, j: nat, a: Call, b: Call,
                                      actor: Actor, first: string, second: string, at: int)
    requires DistinctIds(rows) && i < |rows| && j < |rows| && i != j
    requires rows[i].status.Draft? && rows[j].status.Draft? && rows[i].idempotencyKey == rows[j].idempotencyKey
    requires NoneCommitted(rows, rows[i].idempotencyKey)
    requires VerifiedCaller(config, a.caller).Known? && a.ref == DraftRef(rows[i].id)
    requires VerifiedCaller(config, b.caller).Known? && b.ref == DraftRef(rows[j].id)
    ensures
      var begunA, begunB := BeginCommit(config, rows, a), BeginCommit(config, rows, b);
      var (afterA, recordedA) := RecordCommit(rows, rows[i], actor, first, at);
      var (afterB, recordedB) := RecordCommit(afterA, rows[j], actor, second, at);
      && begunA.Proceed? && begunA.record == rows[i] && begunB.Proceed? && begunB.record == rows[j]
      && recordedA.Wrote? && recordedB.Wrote? && !OneCommittedPerKey(afterB)
  {
    UndecidedProceeds(config, rows, i, a);
    UndecidedProceeds(config, rows, j, b);
    BothWritesWin(rows, i, j, actor, first, second, at);
  }

  lemma BothWritesWin(rows: seq<Record>, i: nat, j: nat, actor: Actor, first: string, second: string, at: int)
    requires DistinctIds(rows) && i < |rows| && j < |rows| && i != j
    requires rows[i].status.Draft? && rows[j].status.Draft? && rows[i].idempotencyKey == rows[j].idempotencyKey
    ensures
      var (afterA, recordedA) := RecordCommit(rows, rows[i], actor, first, at);
      var (afterB, recordedB) := RecordCommit(afterA, rows[j], actor, second, at);
      recordedA.Wrote? && recordedB.Wrote? && !OneCommittedPerKey(afterB)
  {
    var afterA := rows[i := Decided(rows[i], DecisionWrite(Committed, actor, None, Some(first), at))];
    UndecidedIsWritten(rows, i, actor, first, at);
    assert afterA[j] == rows[j] && DistinctIds(afterA);
    UndecidedIsWritten(afterA, j, actor, second, at);
    TwoCommitted(afterA[j := Decided(rows[j], DecisionWrite(Committed, actor, None, Some(second), at))], i, j);
  }

  lemma TwoCommitted(rows: seq<Record>, i: nat, j: nat)
    requires i < |rows| && j < |rows| && i != j && rows[i].idempotencyKey == rows[j].idempotencyKey
    requires rows[i].status.Committed? && rows[j].status.Committed?
    ensures !OneCommittedPerKey(rows)
  {}
}
