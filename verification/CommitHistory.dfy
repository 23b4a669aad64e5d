/**
 What the log of the commit protocol tells: which gateway of a replica acts when,
 which commits call their connector and why, what the QA breaker said to them, what
 every decision stands on, and how often a key is executed when replicas can lose
 their memory.
 */
module CommitHistory {
  import opened Prelude
  import opened EffectStore
  import opened CommitRecords
  import opened EffectGateway
  import opened CommitProtocol
  import A = Approvals
  import Qa = SamplingQa

  /** What happened to the QA store of gateway `g`. */
  function QaEvents(log: seq<Event>, g: nat): seq<Qa.Event>
    decreases |log|
  {
    if log == [] then []
    else
      var before, last := QaEvents(log[..|log|-1], g), log[|log|-1];
      if last.Reviewed? && last.g == g then before + [Qa.Reviewed(last.verdict)]
      else if last.QaWasReset? && last.g == g then before + [Qa.WasReset(last.effectType)]
      else before
  }

  ghost predicate LostBefore(log: seq<Event>, n: nat, g: nat)
    requires n <= |log|
  {
    exists k :: 0 <= k < n && log[k] == Lost(g)
  }

  /** By `n`, every earlier gateway of the replica of `g` has been lost. */
  ghost predicate Succeeds(s: System, n: nat, g: nat)
    requires n <= |s.log| && g < |s.gateways|
  {
    forall h | 0 <= h < g && s.gateways[h].home == s.gateways[g].home :: LostBefore(s.log, n, h)
  }

  /** A durable record of the key is there to be found. */
  ghost predicate Covered(config: Config, log: seq<Event>, n: nat, key: string)
    requires n <= |log|
  {
    config.hasCommitRecords && !NoPutBefore(log, n, key)
  }

  ghost predicate HistOk(config: Config, s: System, i: nat)
    requires i < |s.log|
  {
    match s.log[i]
    case Began(g, _) => g < |s.gateways| && Succeeds(s, i, g)
    case Gated(g, record, env, clears, calls) =>
      && g < |s.gateways| && (calls <==> clears && !Covered(config, s.log, i, record.idempotencyKey))
      && env.tripped == Qa.Run(config.qaPolicies, QaEvents(s.log[..i], g)).tripped
    case Executed(g, record, _, _, env, begun, gated, _) =>
      begun < gated < i && s.log[gated] == Gated(g, record, env, true, true) && !LostBefore(s.log, i, g)
    case Reviewed(g, _) => g < |s.gateways|
    case QaWasReset(g, _) => g < |s.gateways|
    case Lost(g) => g < |s.gateways| && !s.gateways[g].alive && !config.durableStores
    case _ => true
  }

  ghost predicate PhaseGated(log: seq<Event>, g: nat, p: Phase) {
    p.Executing? ==> p.begun < p.gated < |log| && log[p.gated] == Gated(g, p.record, p.env, true, true)
  }

  ghost predicate LifeOk(config: Config, s: System, g: nat)
    requires g < |s.gateways|
  {
    var gw := s.gateways[g];
    && gw.home < s.replicas && gw.qa == Qa.Run(config.qaPolicies, QaEvents(s.log, g))
    && Succeeds(s, |s.log|, g) && PhaseGated(s.log, g, gw.phase)
    && (gw.alive ==> forall h | g < h < |s.gateways| :: s.gateways[h].home != gw.home)
  }

  ghost predicate Hist(config: Config, s: System) {
    && (forall g | 0 <= g < |s.gateways| :: LifeOk(config, s, g))
    && (forall i | 0 <= i < |s.log| :: HistOk(config, s, i))
  }

  // ---------------------------------------------------------------------
  // Steps keep it
  // ---------------------------------------------------------------------

  ghost predicate QuietFor(events: seq<Event>, g: nat) {
    forall i | 0 <= i < |events| :: !((events[i].Reviewed? || events[i].QaWasReset?) && events[i].g == g)
  }

  lemma {:induction false} QaQuiet(log: seq<Event>, events: seq<Event>, g: nat)
    requires QuietFor(events, g)
    ensures QaEvents(log + events, g) == QaEvents(log, g)
    decreases |events|
  {
    if events == [] {
      assert log + events == log;
    } else {
      QaQuiet(log, events[..|events|-1], g);
      assert (log + events)[..|log + events|-1] == log + events[..|events|-1];
    }
  }

  lemma LostStays(log: seq<Event>, log': seq<Event>, n: nat, m: nat, g: nat)
    requires log <= log' && n <= |log| && n <= m <= |log'| && LostBefore(log, n, g)
    ensures LostBefore(log', m, g)
  {
    var k :| 0 <= k < n && log[k] == Lost(g);
    assert log'[k] == Lost(g);
  }

  /** Nothing is forgotten: the log grows, and gateways keep their homes and stay lost. */
  ghost predicate Grows(s: System, s': System) {
    && s.log <= s'.log && |s.gateways| <= |s'.gateways|
    && forall g | 0 <= g < |s.gateways| ::
         s'.gateways[g].home == s.gateways[g].home && (!s.gateways[g].alive ==> !s'.gateways[g].alive)
  }

  lemma SucceedsStays(s: System, s': System, n: nat, m: nat, g: nat)
    requires Grows(s, s') && g < |s.gateways| && n <= |s.log| && n <= m <= |s'.log| && Succeeds(s, n, g)
    ensures Succeeds(s', m, g)
  {
    forall h | 0 <= h < g && s'.gateways[h].home == s'.gateways[g].home ensures LostBefore(s'.log, m, h) {
      LostStays(s.log, s'.log, n, m, h);
    }
  }

  lemma HistStays(config: Config, s: System, s': System, i: nat)
    requires Grows(s, s') && i < |s.log| && HistOk(config, s, i)
    ensures HistOk(config, s', i)
  {
    var e := s.log[i];
    assert s'.log[i] == e && s'.log[..i] == s.log[..i];
    if e.Began? {
      SucceedsStays(s, s', i, i, e.g);
    } else if e.Gated? {
      assert forall j | 0 <= j < i :: s'.log[j] == s.log[j];
    } else if e.Executed? {
      assert forall j | 0 <= j < i :: s'.log[j] == s.log[j];
    }
  }

  /** A step of `g`, which stays alive or stays lost, that appends `events` in order. */
  lemma HistFrame(config: Config, s: System, s': System, g: nat, events: seq<Event>)
    requires Hist(config, s) && g < |s.gateways|
    requires |s'.gateways| == |s.gateways| && s'.gateways == s.gateways[g := s'.gateways[g]]
      && s'.replicas == s.replicas && s'.log == s.log + events
    requires s'.gateways[g].home == s.gateways[g].home && s'.gateways[g].alive == s.gateways[g].alive
    requires forall h | 0 <= h < |s.gateways| && h != g :: QuietFor(events, h)
    requires s'.gateways[g].qa == Qa.Run(config.qaPolicies, QaEvents(s'.log, g))
      && PhaseGated(s'.log, g, s'.gateways[g].phase)
    requires forall i | |s.log| <= i < |s'.log| :: HistOk(config, s', i)
    ensures Hist(config, s')
  {
    forall i | 0 <= i < |s'.log| ensures HistOk(config, s', i) {
      if i < |s.log| { HistStays(config, s, s', i); }
    }
    forall h | 0 <= h < |s'.gateways| ensures LifeOk(config, s', h) {
      assert LifeOk(config, s, h);
      SucceedsStays(s, s', |s.log|, |s'.log|, h);
      if h != g { QaQuiet(s.log, events, h); }
    }
  }

  predicate Plain(e: Event) { e.CommitAnswered? || e.DiscardAnswered? || e.DiscardedRow? || e.PutDone? || e.Rejected? }

  /** Steps that log nothing of interest here and start no connector call. */
  lemma PlainHist(config: Config, s: System, s': System, g: nat, events: seq<Event>)
    requires Hist(config, s) && g < |s.gateways|
    requires |s'.gateways| == |s.gateways| && s'.gateways == s.gateways[g := s'.gateways[g]]
      && s'.replicas == s.replicas && s'.log == s.log + events
    requires s'.gateways[g].home == s.gateways[g].home && s'.gateways[g].alive == s.gateways[g].alive
    requires s'.gateways[g].qa == s.gateways[g].qa
    requires s'.gateways[g].phase == s.gateways[g].phase || !s'.gateways[g].phase.Executing?
    requires forall i | 0 <= i < |events| :: Plain(events[i])
    ensures Hist(config, s')
  {
    assert LifeOk(config, s, g);
    QaQuiet(s.log, events, g);
    HistFrame(config, s, s', g, events);
  }

  /** The key has a durable record exactly when it has been put. */
  lemma CoveredIsDurable(config: Config, s: System, key: string)
    requires Inv(config, s)
    ensures key in s.durable <==> !NoPutBefore(s.log, |s.log|, key)
  {
    if key !in s.durable { NoPutYet(config, s, key); }
  }

  lemma BeganHist(config: Config, s: System, g: nat, waiting: seq<Request>, phase: Phase, call: Call)
    requires Hist(config, s) && g < |s.gateways| && !phase.Executing?
    ensures Hist(config, With(s, g, s.gateways[g].(waiting := waiting, phase := phase), [Began(g, call)]))
  {
    var events := [Began(g, call)];
    var s' := With(s, g, s.gateways[g].(waiting := waiting, phase := phase), events);
    assert LifeOk(config, s, g);
    QaQuiet(s.log, events, g);
    SucceedsStays(s, s', |s.log|, |s.log|, g);
    assert s'.log[|s.log|] == events[0];
    HistFrame(config, s, s', g, events);
  }

  /** The gate of a commit runs; `phase` is where it leaves the gateway. */
  lemma GatedHist(config: Config, s: System, g: nat, approvals: seq<A.Approval>, phase: Phase, e: Event)
    requires Hist(config, s) && g < |s.gateways| && e.Gated? && e.g == g
    requires e.calls <==> e.clears && !Covered(config, s.log, |s.log|, e.record.idempotencyKey)
    requires e.env.tripped == s.gateways[g].qa.tripped
    requires phase.Executing? ==>
      phase.begun < phase.gated == |s.log| && e == Gated(g, phase.record, phase.env, true, true)
    ensures Hist(config, With(s, g, s.gateways[g].(approvals := approvals, phase := phase), [e]))
  {
    var s' := With(s, g, s.gateways[g].(approvals := approvals, phase := phase), [e]);
    assert LifeOk(config, s, g);
    QaQuiet(s.log, [e], g);
    assert s'.log[|s.log|] == e && s'.log[..|s.log|] == s.log;
    CoveredHere(config, s.log, s'.log, |s.log|, e.record.idempotencyKey);
    HistFrame(config, s, s', g, [e]);
  }

  lemma CoveredHere(config: Config, log: seq<Event>, log': seq<Event>, n: nat, key: string)
    requires log <= log' && n <= |log|
    ensures Covered(config, log', n, key) <==> Covered(config, log, n, key)
  {
    assert forall i | 0 <= i < n :: log'[i] == log[i];
  }

  /** The gate calls exactly when the commit clears its own checks and no durable record is found. */
  lemma GateCallsExactly(config: Config, s: System, approvals: seq<A.Approval>, record: Record, identity: Identity,
                         approvalId: Option<string>, durable: Option<CommitRecord>, env: Env)
    requires config.hasCommitRecords ==> Inv(config, s)
    requires durable == if config.hasCommitRecords then Lookup(s.durable, record.idempotencyKey) else None
    ensures
      Gate(config, approvals, record, identity, approvalId, durable, env).1.Execute? <==>
        Gate(config, approvals, record, identity, approvalId, None, env).1.Execute?
        && !Covered(config, s.log, |s.log|, record.idempotencyKey)
  {
    if config.hasCommitRecords { CoveredIsDurable(config, s, record.idempotencyKey); }
  }

  /** The gate's stretch, from a state in which the commit has been logged as begun. */
  lemma GateHist(config: Config, s: System, g: nat, call: Call, record: Record, identity: Identity,
                 begun: nat, durable: Option<CommitRecord>, env: Env)
    requires Hist(config, s) && g < |s.gateways| && begun < |s.log| && (config.hasCommitRecords ==> Inv(config, s))
    requires durable == if config.hasCommitRecords then Lookup(s.durable, record.idempotencyKey) else None
    ensures Hist(config, GateStep(config, s, g, s.gateways[g], call, record, identity, begun, durable, env, []))
  {
    var gw := s.gateways[g];
    var now := env.(tripped := gw.qa.tripped);
    var (approvals, gated) := Gate(config, gw.approvals, record, identity, ApprovalIdOf(call), durable, now);
    var clears := Gate(config, gw.approvals, record, identity, ApprovalIdOf(call), None, now).1.Execute?;
    var e := Gated(g, record, now, clears, gated.Execute?);
    GateCallsExactly(config, s, gw.approvals, record, identity, ApprovalIdOf(call), durable, now);
    assert s.log + [] == s.log && [] + [e] == [e];
    match gated
    case AnswerWith(result) =>
      GatedHist(config, s, g, approvals, Idle, e);
      var s1 := With(s, g, gw.(approvals := approvals, phase := Idle), [e]);
      var s2 := With(s1, g, s1.gateways[g], [CommitAnswered(g, call, result)]);
      PlainHist(config, s1, s2, g, [CommitAnswered(g, call, result)]);
      assert s2 == GateStep(config, s, g, gw, call, record, identity, begun, durable, env, []);
    case Execute(actor, _) =>
      GatedHist(config, s, g, approvals, Executing(call, record, actor, gw.approvals, now, begun, |s.log|), e);
  }

  lemma StartHist(config: Config, s: System, g: nat, env: Env, decidedAt: int)
    requires Hist(config, s) && Inv(config, s) && g < |s.gateways| && s.gateways[g].phase.Idle?
      && s.gateways[g].waiting != []
    ensures Hist(config, StartStep(config, s, g, env, decidedAt))
  {
    var s' := StartStep(config, s, g, env, decidedAt);
    var waiting := s.gateways[g].waiting[1..];
    if s.gateways[g].waiting[0].DiscardOf? {
      PlainHist(config, s, s', g, s'.log[|s.log|..]);
    } else {
      StartCommitHist(config, s, g, s.gateways[g].waiting[0].call, waiting, env);
    }
  }

  lemma StartCommitHist(config: Config, s: System, g: nat, call: Call, waiting: seq<Request>, env: Env)
    requires Hist(config, s) && g < |s.gateways| && s.gateways[g].phase.Idle?
    requires s.gateways[g].waiting == [CommitOf(call)] + waiting
    ensures Hist(config, StartStep(config, s, g, env, 0))
  {
    var gw := s.gateways[g].(waiting := waiting);
    assert s.gateways[g].waiting[1..] == waiting;
    var s1 := With(s, g, gw, [Began(g, call)]);
    BeganHist(config, s, g, waiting, Idle, call);
    var begun := BeginCommit(config, gw.rows, call);
    match begun
    case AnswerNow(result) =>
      var s2 := With(s1, g, gw, [CommitAnswered(g, call, result)]);
      PlainHist(config, s1, s2, g, [CommitAnswered(g, call, result)]);
      assert s2 == StartStep(config, s, g, env, 0);
    case Proceed(record, identity) =>
      if config.hasCommitRecords {
        BeganHist(config, s, g, waiting, LookingUp(call, record, identity, |s.log|), call);
      } else {
        GateHist(config, s1, g, call, record, identity, |s.log|, None, env);
        GateAfterBegan(config, s, g, gw, call, record, identity, env);
      }
  }

  /** Logging the beginning first or together with the gate is the same. */
  lemma GateAfterBegan(config: Config, s: System, g: nat, gw: Gateway, call: Call, record: Record, identity: Identity,
      env: Env)
    requires g < |s.gateways|
    ensures
      var s1 := With(s, g, gw, [Began(g, call)]);
      GateStep(config, s, g, gw, call, record, identity, |s.log|, None, env, [Began(g, call)])
        == GateStep(config, s1, g, s1.gateways[g], call, record, identity, |s.log|, None, env, [])
  {
    var s1 := With(s, g, gw, [Began(g, call)]);
    assert s1.log + [] == s1.log == s.log + [Began(g, call)];
    assert s1.gateways[g := gw] == s.gateways[g := gw];
  }

  lemma NeverLost(config: Config, s: System, g: nat)
    requires Hist(config, s) && g < |s.gateways| && s.gateways[g].alive
    ensures !LostBefore(s.log, |s.log|, g)
  {
    forall k | 0 <= k < |s.log| ensures s.log[k] != Lost(g) { assert HistOk(config, s, k); }
  }

  lemma ExecutedHist(config: Config, s: System, g: nat, gw: Gateway, e: Event)
    requires Hist(config, s) && g < |s.gateways| && s.gateways[g].alive && s.gateways[g].phase.Executing?
    requires gw == s.gateways[g].(rows := gw.rows, approvals := gw.approvals, phase := gw.phase) && !gw.phase.Executing?
    requires var p := s.gateways[g].phase;
      e.Executed? && e == Executed(g, p.record, p.actor, p.seen, p.env, p.begun, p.gated, e.outcome)
    ensures Hist(config, With(s, g, gw, [e]))
  {
    var s' := With(s, g, gw, [e]);
    assert LifeOk(config, s, g);
    NeverLost(config, s, g);
    QaQuiet(s.log, [e], g);
    assert s'.log[|s.log|] == e && forall i | 0 <= i < |s.log| :: s'.log[i] == s.log[i];
    HistFrame(config, s, s', g, [e]);
  }

  lemma ReturnedHist(config: Config, s: System, g: nat, outcome: string, env: Env, decidedAt: int)
    requires Hist(config, s) && Inv(config, s) && g < |s.gateways| && s.gateways[g].alive
      && s.gateways[g].phase.Executing?
    ensures Hist(config, ExecutedStep(config, s, g, outcome, env, decidedAt))
  {
    var s' := ExecutedStep(config, s, g, outcome, env, decidedAt);
    var gw, gw' := s.gateways[g], s'.gateways[g];
    var e := ExecutedEvent(s, g, outcome);
    RecordCommitWrites(gw, outcome, decidedAt);
    ExecutedHist(config, s, g, gw', e);
    var s1 := With(s, g, gw', [e]);
    if !config.hasCommitRecords {
      var answered := [CommitAnswered(g, gw.phase.call, FreshAnswer(ExecutedRow(s, g, outcome, decidedAt)))];
      PlainHist(config, s1, With(s1, g, gw', answered), g, answered);
      assert s' == With(s1, g, gw', answered);
    }
  }

  lemma QaHist(config: Config, s: System, g: nat, qa: Qa.Store, e: Event)
    requires Hist(config, s) && g < |s.gateways| && (e.Reviewed? || e.QaWasReset?) && e.g == g
    requires qa == if e.Reviewed? then Qa.Record(config.qaPolicies, s.gateways[g].qa, e.verdict)
      else Qa.Reset(s.gateways[g].qa, e.effectType)
    ensures Hist(config, With(s, g, s.gateways[g].(qa := qa), [e]))
  {
    var s' := With(s, g, s.gateways[g].(qa := qa), [e]);
    assert LifeOk(config, s, g);
    assert s'.log[..|s.log|] == s.log;
    var events := QaEvents(s.log, g);
    var now := if e.Reviewed? then Qa.Reviewed(e.verdict) else Qa.WasReset(e.effectType);
    assert (events + [now])[..|events|] == events;
    HistFrame(config, s, s', g, [e]);
  }

  lemma {:induction false} NoQaYet(config: Config, s: System, g: nat, n: nat)
    requires Hist(config, s) && n <= |s.log| && g >= |s.gateways|
    ensures QaEvents(s.log[..n], g) == []
    decreases n
  {
    if n > 0 {
      NoQaYet(config, s, g, n - 1);
      assert s.log[..n][..n-1] == s.log[..n-1];
      assert HistOk(config, s, n - 1);
    }
  }

  /** A gateway is added for `home`, whose earlier gateways are all lost. */
  lemma AddHist(config: Config, s: System, home: nat, replicas: nat)
    requires Hist(config, s) && home < replicas && s.replicas <= replicas
    requires forall h | 0 <= h < |s.gateways| && s.gateways[h].home == home ::
      LostBefore(s.log, |s.log|, h) && !s.gateways[h].alive
    ensures Hist(config, s.(gateways := s.gateways + [EmptyGateway(home)], replicas := replicas))
  {
    var s' := s.(gateways := s.gateways + [EmptyGateway(home)], replicas := replicas);
    NoQaYet(config, s, |s.gateways|, |s.log|);
    assert s.log[..|s.log|] == s.log;
    forall i | 0 <= i < |s'.log| ensures HistOk(config, s', i) { HistStays(config, s, s', i); }
    forall g | 0 <= g < |s'.gateways| ensures LifeOk(config, s', g) {
      if g < |s.gateways| {
        assert LifeOk(config, s, g);
        SucceedsStays(s, s', |s.log|, |s.log|, g);
      }
    }
  }

  lemma LoseHist(config: Config, s: System, g: nat, gw: Gateway)
    requires Hist(config, s) && g < |s.gateways| && s.gateways[g].alive && !config.durableStores
    requires gw == s.gateways[g].(alive := false, waiting := [], phase := Idle)
    ensures
      var s' := With(s, g, gw, [Lost(g)]);
      Hist(config, s') && forall h | 0 <= h < |s'.gateways| && s'.gateways[h].home == gw.home ::
        LostBefore(s'.log, |s'.log|, h) && !s'.gateways[h].alive
  {
    var s' := With(s, g, gw, [Lost(g)]);
    assert LifeOk(config, s, g);
    assert s'.log[|s.log|] == Lost(g);
    forall i | 0 <= i < |s'.log| ensures HistOk(config, s', i) {
      if i < |s.log| { HistStays(config, s, s', i); }
    }
    forall h | 0 <= h < |s'.gateways| ensures LifeOk(config, s', h) {
      assert LifeOk(config, s, h);
      SucceedsStays(s, s', |s.log|, |s'.log|, h);
      QaQuiet(s.log, [Lost(g)], h);
    }
    forall h | 0 <= h < |s'.gateways| && s'.gateways[h].home == gw.home
      ensures LostBefore(s'.log, |s'.log|, h) && !s'.gateways[h].alive
    {
      if h < g {
        LostStays(s.log, s'.log, |s.log|, |s'.log|, h);
        assert LifeOk(config, s, h);
      }
    }
  }

  lemma RestartHist(config: Config, s: System, g: nat)
    requires Hist(config, s) && Enabled(config, s, Restart(g))
    ensures Hist(config, Apply(config, s, Restart(g)))
  {
    var gw := s.gateways[g].(phase := Idle, waiting := []);
    if config.durableStores {
      PlainHist(config, s, With(s, g, gw, []), g, []);
    } else {
      assert LifeOk(config, s, g);
      LoseHist(config, s, g, gw.(alive := false));
      AddHist(config, With(s, g, gw.(alive := false), [Lost(g)]), gw.home, s.replicas);
    }
  }

  lemma JoinHist(config: Config, s: System)
    requires Hist(config, s)
    ensures Hist(config, Apply(config, s, Join))
  {
    forall h | 0 <= h < |s.gateways| ensures s.gateways[h].home != s.replicas { assert LifeOk(config, s, h); }
    AddHist(config, s, s.replicas, s.replicas + 1);
  }

  lemma StepKeepsHist(config: Config, s: System, l: Label)
    requires Inv(config, s) && Hist(config, s) && Enabled(config, s, l)
    ensures Hist(config, Apply(config, s, l))
  {
    if l.Join? {
      JoinHist(config, s);
    } else if l.Start? {
      StartHist(config, s, l.g, l.env, l.decidedAt);
    } else if l.LookedUp? {
      var p := s.gateways[l.g].phase;
      GateHist(config, s, l.g, p.call, p.record, p.identity, p.begun, Lookup(s.durable, p.record.idempotencyKey),
        l.env);
    } else if l.ConnectorReturned? {
      ReturnedHist(config, s, l.g, l.outcome, l.env, l.decidedAt);
    } else if l.Review? {
      QaHist(config, s, l.g, Qa.Record(config.qaPolicies, s.gateways[l.g].qa, l.verdict), Reviewed(l.g, l.verdict));
    } else if l.ResetQa? {
      QaHist(config, s, l.g, Qa.Reset(s.gateways[l.g].qa, l.effectType), QaWasReset(l.g, l.effectType));
    } else if l.Restart? {
      RestartHist(config, s, l.g);
    } else {
      PlainStepHist(config, s, l);
    }
  }

  lemma PlainStepHist(config: Config, s: System, l: Label)
    requires Hist(config, s) && Enabled(config, s, l)
    requires l.DraftStep? || l.Submit? || l.PutReturned? || l.WinnerReturned? || l.AwaitFailed? || l.Operators?
    ensures Hist(config, Apply(config, s, l))
  {
    var s' := Apply(config, s, l);
    PlainHist(config, s, s', l.g, s'.log[|s.log|..]);
  }

  lemma {:induction false} HistHolds(config: Config, labels: seq<Label>)
    requires Run(config, labels).Some?
    ensures Inv(config, Run(config, labels).value) && Hist(config, Run(config, labels).value)
    decreases |labels|
  {
    Reachable(config, labels);
    if labels != [] {
      var before := labels[..|labels|-1];
      HistHolds(config, before);
      StepKeepsHist(config, Run(config, before).value, labels[|labels|-1]);
    }
  }

  // ---------------------------------------------------------------------
  // Which commits call their connector
  // ---------------------------------------------------------------------

  ghost predicate GatedFor(e: Event, key: string) { e.Gated? && e.record.idempotencyKey == key }

  /** The connector call that the gate at `c` let through came back. */
  ghost predicate Returned(log: seq<Event>, c: int) {
    exists i :: 0 <= i < |log| && log[i].Executed? && log[i].gated == c
  }

  /**
   A commit calls its connector exactly when it clears its own checks and its
   durable lookup came before every put of the key. So a key's connector is called
   at most once if and only if, of any two commits that clear their checks, the
   later one looked up after a put. Without commit records nothing is ever found:
   it is called once for every commit that clears.
   */
  lemma {:induction false} CalledOnceExactlyWhen(config: Config, labels: seq<Label>, key: string)
    requires Run(config, labels).Some?
    ensures
      var log := Run(config, labels).value.log;
      && (forall i | 0 <= i < |log| && GatedFor(log[i], key) ::
            log[i].calls <==> log[i].clears && !Covered(config, log, i, key))
      && ((forall i, j | 0 <= i < j < |log| && GatedFor(log[i], key) && GatedFor(log[j], key) ::
             !(log[i].calls && log[j].calls))
          <==> forall i, j | 0 <= i < j < |log| && GatedFor(log[i], key) && GatedFor(log[j], key)
                             && log[i].clears && log[j].clears ::
                 Covered(config, log, j, key))
  {
    HistHolds(config, labels);
    var s := Run(config, labels).value;
    forall i | 0 <= i < |s.log| && GatedFor(s.log[i], key)
      ensures s.log[i].calls <==> s.log[i].clears && !Covered(config, s.log, i, key)
    {
      assert HistOk(config, s, i);
    }
  }

  /** No two executions return one and the same connector call. */
  lemma OneReturnPerCall(config: Config, s: System, i: nat, j: nat)
    requires Inv(config, s) && Hist(config, s) && i < j < |s.log| && s.log[i].Executed? && s.log[j].Executed?
    ensures s.log[i].gated != s.log[j].gated
  {
    assert HistOk(config, s, i) && HistOk(config, s, j);
    assert EventOk(config, s, j);
    if s.log[i].gated == s.log[j].gated { assert Executes(s.log[i], s.log[j].g, s.log[j].record.idempotencyKey); }
  }

  ghost predicate ExecutesKey(e: Event, key: string) { e.Executed? && e.record.idempotencyKey == key }

  ghost predicate ExecutedTwice(log: seq<Event>, key: string, i: int, j: int) {
    0 <= i < j < |log| && ExecutesKey(log[i], key) && ExecutesKey(log[j], key)
  }

  /** Two commits of the key cleared their checks, looked up before every put of it, and had their connector return. */
  ghost predicate ClearedTwice(config: Config, log: seq<Event>, key: string, c: int, d: int) {
    0 <= c < d < |log| && ClearedFirst(config, log, key, c) && ClearedFirst(config, log, key, d)
  }

  ghost predicate ClearedFirst(config: Config, log: seq<Event>, key: string, c: int) {
    0 <= c < |log| && GatedFor(log[c], key) && log[c].clears && !Covered(config, log, c, key) && Returned(log, c)
  }

  /**
   A key is executed more than once if and only if two commits cleared their own
   checks, looked it up before every put, and both connector calls came back.
   */
  lemma {:induction false} ExecutedTwiceExactlyWhen(config: Config, labels: seq<Label>, key: string)
    requires Run(config, labels).Some?
    ensures
      var log := Run(config, labels).value.log;
      (exists i, j :: ExecutedTwice(log, key, i, j)) <==> exists c, d :: ClearedTwice(config, log, key, c, d)
  {
    HistHolds(config, labels);
    var s := Run(config, labels).value;
    if c, d :| ClearedTwice(config, s.log, key, c, d) {
      var i, j := ClearedTwiceExecutes(config, s, key, c, d);
    }
    if i: nat, j: nat :| ExecutedTwice(s.log, key, i, j) {
      var c, d := ExecutedTwiceCleared(config, s, key, i, j);
    }
  }

  lemma ClearedTwiceExecutes(config: Config, s: System, key: string, c: int, d: int) returns (i: nat, j: nat)
    requires Hist(config, s) && ClearedTwice(config, s.log, key, c, d)
    ensures ExecutedTwice(s.log, key, i, j)
  {
    i := ReturnOf(config, s, key, c);
    j := ReturnOf(config, s, key, d);
    if j < i { i, j := j, i; }
  }

  lemma ExecutedTwiceCleared(config: Config, s: System, key: string, i: nat, j: nat) returns (c: nat, d: nat)
    requires Inv(config, s) && Hist(config, s) && ExecutedTwice(s.log, key, i, j)
    ensures ClearedTwice(config, s.log, key, c, d)
  {
    OneReturnPerCall(config, s, i, j);
    ExecutionWasCleared(config, s, i);
    ExecutionWasCleared(config, s, j);
    c, d := s.log[i].gated, s.log[j].gated;
    if d < c { c, d := d, c; }
  }

  lemma ReturnOf(config: Config, s: System, key: string, c: int) returns (i: nat)
    requires Hist(config, s) && ClearedFirst(config, s.log, key, c)
    ensures i < |s.log| && ExecutesKey(s.log[i], key) && s.log[i].gated == c
  {
    i :| i < |s.log| && s.log[i].Executed? && s.log[i].gated == c;
    assert HistOk(config, s, i);
  }

  lemma ExecutionWasCleared(config: Config, s: System, i: nat)
    requires Hist(config, s) && i < |s.log| && s.log[i].Executed?
    ensures
      var c, key := s.log[i].gated, s.log[i].record.idempotencyKey;
      ClearedFirst(config, s.log, key, c)
  {
    assert HistOk(config, s, i);
    assert HistOk(config, s, s.log[i].gated);
  }

  // ---------------------------------------------------------------------
  // What every decision stands on
  // ---------------------------------------------------------------------

  ghost predicate CommitStands(row: Record, g: nat, e: Event) {
    && e.Executed? && e.g == g && CommittedAs(row, e)
    && e.env.expiryCheckedAt < row.expiry
    && (exists v | v in row.evidence :: e.env.resolve(v) == Some(true))
    && (row.reversibility == IRREVERSIBLE || row.approvalClass == ALWAYS_HUMAN || row.effectType in e.env.tripped
        || (row.approvalClass == SAMPLED && e.env.sampled) ==>
          && row.decisionActor.Some? && row.decisionActor.value.Human?
          && exists a | a in e.seen ::
            A.Authorises(a, row.decisionActor.value.approverId, A.COMMIT_EFFECT, DraftRef(row.id)))
  }

  ghost predicate DiscardStands(row: Record, g: nat, e: Event) {
    e.DiscardedRow? && e.g == g && e.row == row && DiscardAuthorised(row, e.approvals)
  }

  /**
   Every committed row comes from one logged execution, which was unexpired and
   evidenced at its checks and, where policy, the tripped QA breaker or the
   sampler asked for one, carries a human named by a non-empty approver of an
   approved record for `commit_effect` and, when its params name one, that draft.
   Every discarded row has a reason, and a human of the same kind where due.
   */
  lemma {:induction false} EveryDecisionStands(config: Config, labels: seq<Label>, g: nat, row: Record)
    requires Run(config, labels).Some?
    requires g < |Run(config, labels).value.gateways| && row in Run(config, labels).value.gateways[g].rows
    ensures row.status.Committed? ==>
      exists i :: 0 <= i < |Run(config, labels).value.log| && CommitStands(row, g, Run(config, labels).value.log[i])
    ensures row.status.Discarded? ==>
      exists i :: 0 <= i < |Run(config, labels).value.log| && DiscardStands(row, g, Run(config, labels).value.log[i])
  {
    Reachable(config, labels);
    var s := Run(config, labels).value;
    assert RowLogged(s.log, g, row);
    if row.status.Committed? {
      var i :| 0 <= i < |s.log| && s.log[i].Executed? && s.log[i].g == g && CommittedAs(row, s.log[i]);
      assert EventOk(config, s, i);
      assert CommitStands(row, g, s.log[i]);
    }
    if row.status.Discarded? {
      var i :| 0 <= i < |s.log| && s.log[i].DiscardedRow? && s.log[i].g == g && s.log[i].row == row;
      assert EventOk(config, s, i);
      assert DiscardStands(row, g, s.log[i]);
    }
  }

  // ---------------------------------------------------------------------
  // The QA breaker
  // ---------------------------------------------------------------------

  ghost predicate HumanDecided(row: Record, seen: seq<A.Approval>) {
    && row.decisionActor.Some? && row.decisionActor.value.Human?
    && exists a | a in seen :: A.Authorises(a, row.decisionActor.value.approverId, A.COMMIT_EFFECT, DraftRef(row.id))
  }

  /**
   Every commit whose gate ran while its type was tripped -- some verdict recorded
   on that gateway had brought the windowed disagreement rate to the threshold, and
   no reset had come since -- names a human authorised for it.
   */
  lemma {:induction false} TrippedCommitsAreHuman(config: Config, labels: seq<Label>, g: nat, row: Record)
      returns (i: nat)
    requires Run(config, labels).Some?
    requires g < |Run(config, labels).value.gateways| && row in Run(config, labels).value.gateways[g].rows
      && row.status.Committed?
    ensures
      var log := Run(config, labels).value.log;
      && i < |log| && CommitStands(row, g, log[i]) && log[i].gated < i && log[log[i].gated].Gated?
      && (Qa.TrippedSinceReset(config.qaPolicies, QaEvents(log[..log[i].gated], g), row.effectType) ==>
            HumanDecided(row, log[i].seen))
  {
    HistHolds(config, labels);
    EveryDecisionStands(config, labels, g, row);
    var s := Run(config, labels).value;
    i :| i < |s.log| && CommitStands(row, g, s.log[i]);
    assert HistOk(config, s, i);
    assert HistOk(config, s, s.log[i].gated);
    Qa.TrippedExactly(config.qaPolicies, QaEvents(s.log[..s.log[i].gated], g), row.effectType);
  }

  // ---------------------------------------------------------------------
  // How often a key is executed
  // ---------------------------------------------------------------------

  /** The gateways that executed the key to a return. */
  ghost function Executors(log: seq<Event>, key: string): set<nat> {
    set i | 0 <= i < |log| && ExecutesKey(log[i], key) :: log[i].g
  }

  function Executions(log: seq<Event>, key: string): nat
    decreases |log|
  {
    if log == [] then 0
    else
      var e := log[|log|-1];
      Executions(log[..|log|-1], key) + (if e.Executed? && e.record.idempotencyKey == key then 1 else 0)
  }

  lemma ExecutorAt(log: seq<Event>, g: nat, key: string) returns (i: nat)
    requires g in Executors(log, key)
    ensures i < |log| && Executes(log[i], g, key)
  {
    i :| i < |log| && ExecutesKey(log[i], key) && log[i].g == g;
  }

  lemma ExecutorsSnoc(log: seq<Event>, e: Event, key: string)
    ensures Executors(log + [e], key) == Executors(log, key) + (if ExecutesKey(e, key) then {e.g} else {})
  {
    var all := log + [e];
    forall g | g in Executors(log, key) ensures g in Executors(all, key) {
      var i :| 0 <= i < |log| && ExecutesKey(log[i], key) && log[i].g == g;
      assert all[i] == log[i];
    }
    if ExecutesKey(e, key) { assert all[|log|] == e; }
  }

  ghost predicate OncePerExecutor(log: seq<Event>, key: string) {
    forall i, j | 0 <= i < j < |log| && log[i].Executed? ::
      !(Executes(log[i], log[i].g, key) && Executes(log[j], log[i].g, key))
  }

  lemma {:induction false} ExecutionsAreExecutors(log: seq<Event>, key: string)
    requires OncePerExecutor(log, key)
    ensures Executions(log, key) == |Executors(log, key)|
    decreases |log|
  {
    if log == [] {
      assert Executors(log, key) == {};
    } else {
      var before, last := log[..|log|-1], log[|log|-1];
      assert OncePerExecutor(before, key);
      ExecutionsAreExecutors(before, key);
      assert log == before + [last];
      ExecutorsSnoc(before, last, key);
      if ExecutesKey(last, key) { LastIsNewExecutor(log, key); }
    }
  }

  lemma LastIsNewExecutor(log: seq<Event>, key: string)
    requires OncePerExecutor(log, key) && log != [] && ExecutesKey(log[|log|-1], key)
    ensures log[|log|-1].g !in Executors(log[..|log|-1], key)
  {
    var last := |log| - 1;
    assert forall i | 0 <= i < last :: log[..last][i] == log[i] && !Executes(log[i], log[last].g, key);
  }

  lemma {:induction false} BelowIsSmall(s: set<nat>, n: nat)
    requires forall x | x in s :: x < n
    ensures |s| <= n
    decreases n
  {
    if n > 0 {
      BelowIsSmall(s - {n - 1}, n - 1);
      if n - 1 in s { assert s == s - {n - 1} + {n - 1}; } else { assert s == s - {n - 1}; }
    } else {
      assert s == {};
    }
  }

  /** Gateway `g` was lost after the connector returned for the key and before any put of it. */
  ghost predicate LostUnput(config: Config, log: seq<Event>, g: nat, key: string) {
    exists i, k :: 0 <= i < k < |log| && Executes(log[i], g, key) && log[k] == Lost(g) && !Covered(config, log, k, key)
  }

  ghost function CutShort(config: Config, s: System, key: string): set<nat> {
    set g | 0 <= g < |s.gateways| && LostUnput(config, s.log, g, key)
  }

  /** Of one replica's gateways that executed the key, all but the last were cut short. */
  lemma EarlierExecutorCutShort(config: Config, s: System, g: nat, h: nat, key: string)
    requires Inv(config, s) && Hist(config, s) && g < h < |s.gateways| && s.gateways[g].home == s.gateways[h].home
    requires g in Executors(s.log, key) && h in Executors(s.log, key)
    ensures g in CutShort(config, s, key)
  {
    var i := ExecutorAt(s.log, g, key);
    var k := LostBeforeSuccessor(config, s, g, h, key);
    assert HistOk(config, s, i);
    assert LostUnput(config, s.log, g, key);
  }

  /** A gateway that executes the key began after its predecessor was lost, and nothing had been put before. */
  lemma LostBeforeSuccessor(config: Config, s: System, g: nat, h: nat, key: string) returns (k: nat)
    requires Inv(config, s) && Hist(config, s) && g < h < |s.gateways| && s.gateways[g].home == s.gateways[h].home
    requires h in Executors(s.log, key)
    ensures k < |s.log| && s.log[k] == Lost(g) && !Covered(config, s.log, k, key)
  {
    var j := ExecutorAt(s.log, h, key);
    assert EventOk(config, s, j);
    assert HistOk(config, s, s.log[j].begun);
    k :| k < s.log[j].begun && s.log[k] == Lost(g);
  }

  lemma {:induction false} OnePerHome(gateways: seq<Gateway>, s: set<nat>, n: nat)
    requires forall g | g in s :: g < |gateways| && gateways[g].home < n
    requires forall g, h | g in s && h in s && g < h :: gateways[g].home != gateways[h].home
    ensures |s| <= n
    decreases n
  {
    if n == 0 {
      assert s == {};
    } else if g :| g in s && gateways[g].home == n - 1 {
      OnePerHome(gateways, s - {g}, n - 1);
    } else {
      OnePerHome(gateways, s, n - 1);
    }
  }

  lemma ExecutionsAreCounted(config: Config, s: System, key: string)
    requires Inv(config, s)
    ensures Executions(s.log, key) == |Executors(s.log, key)|
  {
    forall i, j | 0 <= i < j < |s.log| && s.log[i].Executed?
      ensures !(Executes(s.log[i], s.log[i].g, key) && Executes(s.log[j], s.log[i].g, key))
    {
      assert EventOk(config, s, j);
    }
    ExecutionsAreExecutors(s.log, key);
  }

  lemma ExecutorsAreGateways(config: Config, s: System, key: string)
    requires Inv(config, s)
    ensures forall g | g in Executors(s.log, key) :: g < |s.gateways|
  {
    forall i | 0 <= i < |s.log| && s.log[i].Executed? ensures s.log[i].g < |s.gateways| {
      assert EventOk(config, s, i);
    }
  }

  /**
   However calls interleave over `n` replicas, a key is executed to a return at
   most `n` times and once more for every gateway that lost its memory between that
   return and the first put of the key -- which, with durable stores, is none.
   */
  lemma {:induction false} ExecutionsBounded(config: Config, labels: seq<Label>, key: string)
    requires Run(config, labels).Some?
    ensures
      var s := Run(config, labels).value;
      && Executions(s.log, key) <= s.replicas + |CutShort(config, s, key)|
      && (config.durableStores ==> CutShort(config, s, key) == {})
  {
    HistHolds(config, labels);
    var s := Run(config, labels).value;
    ExecutionsAreCounted(config, s, key);
    UncutAreOnePerHome(config, s, key);
    WithoutPlus(Executors(s.log, key), CutShort(config, s, key));
    if config.durableStores { DurableAreNeverCut(config, s, key); }
  }

  lemma UncutHomesDiffer(config: Config, s: System, key: string, g: nat, h: nat)
    requires Inv(config, s) && Hist(config, s) && g != h
    requires g in Executors(s.log, key) - CutShort(config, s, key)
      && h in Executors(s.log, key) - CutShort(config, s, key)
    requires g < |s.gateways| && h < |s.gateways|
    ensures s.gateways[g].home != s.gateways[h].home
  {
    if s.gateways[g].home == s.gateways[h].home {
      EarlierExecutorCutShort(config, s, if g < h then g else h, if g < h then h else g, key);
    }
  }

  lemma UncutAreOnePerHome(config: Config, s: System, key: string)
    requires Inv(config, s) && Hist(config, s)
    ensures |Executors(s.log, key) - CutShort(config, s, key)| <= s.replicas
  {
    var uncut := Executors(s.log, key) - CutShort(config, s, key);
    ExecutorsAreGateways(config, s, key);
    forall g | g in uncut ensures s.gateways[g].home < s.replicas { assert LifeOk(config, s, g); }
    forall g, h | g in uncut && h in uncut && g < h ensures s.gateways[g].home != s.gateways[h].home {
      UncutHomesDiffer(config, s, key, g, h);
    }
    OnePerHome(s.gateways, uncut, s.replicas);
  }

  lemma DurableAreNeverCut(config: Config, s: System, key: string)
    requires Hist(config, s) && config.durableStores
    ensures CutShort(config, s, key) == {}
  {
    forall k | 0 <= k < |s.log| ensures !s.log[k].Lost? { assert HistOk(config, s, k); }
  }

  lemma WithoutPlus(a: set<nat>, b: set<nat>)
    ensures |a| <= |a - b| + |b|
  {
    assert a == (a - b) + (a * b);
    SubsetIsSmaller(a * b, b);
  }

  lemma {:induction false} SubsetIsSmaller(a: set<nat>, b: set<nat>)
    requires a <= b
    ensures |a| <= |b|
    decreases |a|
  {
    if a != {} {
      var x :| x in a;
      SubsetIsSmaller(a - {x}, b - {x});
    }
  }

  ghost function OfReplica(s: System, gs: set<nat>, home: nat): set<nat> {
    set g | g in gs && g < |s.gateways| && s.gateways[g].home == home
  }

  /**
   One replica executes a key to a return at most once, and once more for every one
   of its gateways lost between that return and the first put. With durable stores
   it is at most once, whatever restarts.
   */
  lemma {:induction false} OncePerReplica(config: Config, labels: seq<Label>, home: nat, key: string)
    requires Run(config, labels).Some?
    ensures
      var s := Run(config, labels).value;
      && |OfReplica(s, Executors(s.log, key), home)| <= 1 + |OfReplica(s, CutShort(config, s, key), home)|
      && (config.durableStores ==> |OfReplica(s, Executors(s.log, key), home)| <= 1)
      && forall g, i, j | 0 <= i < j < |s.log| && Executes(s.log[i], g, key) :: !Executes(s.log[j], g, key)
  {
    HistHolds(config, labels);
    var s := Run(config, labels).value;
    OfReplicaBounded(config, s, home, key);
    if config.durableStores { DurableAreNeverCut(config, s, key); }
    forall g, i, j | 0 <= i < j < |s.log| && Executes(s.log[i], g, key) ensures !Executes(s.log[j], g, key) {
      assert EventOk(config, s, j);
    }
  }

  lemma OfReplicaBounded(config: Config, s: System, home: nat, key: string)
    requires Inv(config, s) && Hist(config, s)
    ensures |OfReplica(s, Executors(s.log, key), home)| <= 1 + |OfReplica(s, CutShort(config, s, key), home)|
  {
    var all, cut := OfReplica(s, Executors(s.log, key), home), OfReplica(s, CutShort(config, s, key), home);
    forall g, h | g in all - cut && h in all - cut ensures g == h {
      if g != h { UncutHomesDiffer(config, s, key, g, h); }
    }
    AtMostOneIn(all - cut);
    WithoutPlus(all, cut);
  }

  lemma AtMostOneIn(s: set<nat>)
    requires forall g, h | g in s && h in s :: g == h
    ensures |s| <= 1
  {
    if g :| g in s { assert s == {g}; }
  }
}
