/**
 The bound on executions is met: for every number of replicas and of crashes at the
 wrong moment there is a run with exactly that many executions of one key. A replica
 drafts, submits and begins a commit, looks the key up before anyone has put it, and
 its connector returns; then the next replica joins and does the same, or the first
 loses its memory before its own put and starts over. Nothing is ever put, so nothing
 is ever found: each of these commits clears its checks, and each call comes back. A
 commit that clears every check is a premise, and one is exhibited at the end.
 */
module CommitWitness {
  import opened Prelude
  import opened EffectStore
  import opened CommitRecords
  import opened EffectGateway
  import opened CommitProtocol
  import opened CommitHistory
  import A = Approvals
  import Qa = SamplingQa

  /** A commit of `p` by `caller` clears every check. */
  ghost predicate Able(config: Config, p: DraftParams, caller: Caller, env: Env) {
    && config.hasCommitRecords && ValidDraft(config, p, 0) && p.expiry.None?
    && VerifiedCaller(config, Some(caller)).Known? && p.targetSystem in config.connectors
    && p.reversibility != IRREVERSIBLE && config.effectTypes[p.effectType].approvalClass !in {ALWAYS_HUMAN, SAMPLED}
    && |p.evidence| > 0 && env.resolve(p.evidence[0]) == Some(true) && env.expiryCheckedAt == 0
  }

  const DRAFT_ID := "1"

  ghost function CallOf(caller: Caller): Call { Call(DraftRef(DRAFT_ID), Some(caller), None) }

  /** Draft, submit, begin, look up, and the connector returns. */
  ghost function Execution(g: nat, p: DraftParams, caller: Caller, env: Env): seq<Label> {
    [DraftStep(g, p, Some(caller), DRAFT_ID, 0)] + [Submit(g, CommitOf(CallOf(caller)))] + [Start(g, env, 0)]
    + [LookedUp(g, env)] + [ConnectorReturned(g, "", env, 0)]
  }

  /** What an execution on an empty gateway `g` leaves behind. */
  ghost predicate ExecutedOn(s: System, s': System, g: nat, key: string)
    requires g < |s.gateways|
  {
    && |s'.gateways| == |s.gateways| && s'.gateways == s.gateways[g := s'.gateways[g]]
    && s'.gateways[g].alive && s'.gateways[g].home == s.gateways[g].home
    && s'.replicas == s.replicas && s'.durable == s.durable && Executions(s'.log, key) == Executions(s.log, key) + 1
  }

  lemma BeginsOn(config: Config, s: System, g: nat, p: DraftParams, caller: Caller, env: Env)
    requires Able(config, p, caller, env) && g < |s.gateways| && s.gateways[g] == EmptyGateway(s.gateways[g].home)
    ensures Enabled(config, s, DraftStep(g, p, Some(caller), DRAFT_ID, 0))
    ensures
      var s1 := Apply(config, s, DraftStep(g, p, Some(caller), DRAFT_ID, 0));
      var s2 := Apply(config, s1, Submit(g, CommitOf(CallOf(caller))));
      var r := NewDraft(config, p, Some(caller), DRAFT_ID, 0);
      && Enabled(config, s1, Submit(g, CommitOf(CallOf(caller)))) && Enabled(config, s2, Start(g, env, 0))
      && Apply(config, s2, Start(g, env, 0))
         == With(s, g, s.gateways[g].(rows := [r],
           phase := LookingUp(CallOf(caller), r, VerifiedCaller(config, Some(caller)).identity, |s.log|)),
                 [Began(g, CallOf(caller))])
  {
    var r := NewDraft(config, p, Some(caller), DRAFT_ID, 0);
    var s1 := Apply(config, s, DraftStep(g, p, Some(caller), DRAFT_ID, 0));
    assert s1.gateways[g].rows == [r];
    UndecidedProceeds(config, [r], 0, CallOf(caller));
    var s2 := Apply(config, s1, Submit(g, CommitOf(CallOf(caller))));
    assert s2.gateways[g].waiting == [CommitOf(CallOf(caller))];
    assert s2.gateways[g].waiting[1..] == [];
    assert s2.log == s.log;
  }

  /** The gate of such a commit calls the connector when the key has no record. */
  lemma GateLets(config: Config, p: DraftParams, caller: Caller, env: Env)
    requires Able(config, p, caller, env) && env.tripped == {}
    ensures
      var r := NewDraft(config, p, Some(caller), DRAFT_ID, 0);
      var identity := VerifiedCaller(config, Some(caller)).identity;
      Gate(config, [], r, identity, ApprovalIdOf(CallOf(caller)), None, env) == ([], Execute(Agent(identity), None))
  {
    assert p.evidence[0] in p.evidence;
  }

  lemma ReturnsOn(config: Config, s: System, s3: System, g: nat, p: DraftParams, caller: Caller, env: Env)
    requires Able(config, p, caller, env) && g < |s.gateways| && p.idempotencyKey !in s.durable
    requires s.gateways[g] == EmptyGateway(s.gateways[g].home)
    requires
      var r := NewDraft(config, p, Some(caller), DRAFT_ID, 0);
      s3 == With(s, g, s.gateways[g].(rows := [r],
        phase := LookingUp(CallOf(caller), r, VerifiedCaller(config, Some(caller)).identity, |s.log|)),
                 [Began(g, CallOf(caller))])
    ensures Enabled(config, s3, LookedUp(g, env))
    ensures
      var s4 := Apply(config, s3, LookedUp(g, env));
      Enabled(config, s4, ConnectorReturned(g, "", env, 0))
      && ExecutedOn(s, Apply(config, s4, ConnectorReturned(g, "", env, 0)), g, p.idempotencyKey)
  {
    var now := env.(tripped := {});
    var r := NewDraft(config, p, Some(caller), DRAFT_ID, 0);
    GateLets(config, p, caller, now);
    var s4 := Apply(config, s3, LookedUp(g, env));
    assert s4.gateways[g].phase.Executing? && s4.gateways[g].rows == [r];
    UndecidedIsWritten([r], 0, s4.gateways[g].phase.actor, "", 0);
    var s5 := Apply(config, s4, ConnectorReturned(g, "", env, 0));
    var e := s5.log[|s5.log|-1];
    assert s5.log == s.log + [Began(g, CallOf(caller))] + [s4.log[|s.log| + 1]] + [e];
    CountsOne(s.log, Began(g, CallOf(caller)), s4.log[|s.log| + 1], e, p.idempotencyKey);
  }

  lemma CountsOne(log: seq<Event>, a: Event, b: Event, e: Event, key: string)
    requires !a.Executed? && !b.Executed? && ExecutesKey(e, key)
    ensures Executions(log + [a] + [b] + [e], key) == Executions(log, key) + 1
  {
    OneMore(log, a, key);
    OneMore(log + [a], b, key);
    OneMore(log + [a] + [b], e, key);
  }

  lemma OneMore(log: seq<Event>, e: Event, key: string)
    ensures Executions(log + [e], key) == Executions(log, key) + (if ExecutesKey(e, key) then 1 else 0)
  {
    assert (log + [e])[..|log|] == log;
  }

  lemma {:induction false} ThreeSteps(config: Config, labels: seq<Label>, s: System, a: Label, b: Label, c: Label)
    requires Run(config, labels) == Some(s) && Enabled(config, s, a) && Enabled(config, Apply(config, s, a), b)
    requires Enabled(config, Apply(config, Apply(config, s, a), b), c)
    ensures Run(config, labels + [a] + [b] + [c]) == Some(Apply(config, Apply(config, Apply(config, s, a), b), c))
  {
    RunStep(config, labels, s, a);
    RunStep(config, labels + [a], Apply(config, s, a), b);
    RunStep(config, labels + [a] + [b], Apply(config, Apply(config, s, a), b), c);
  }

  lemma {:induction false} TwoSteps(config: Config, labels: seq<Label>, s: System, a: Label, b: Label)
    requires Run(config, labels) == Some(s) && Enabled(config, s, a) && Enabled(config, Apply(config, s, a), b)
    ensures Run(config, labels + [a] + [b]) == Some(Apply(config, Apply(config, s, a), b))
  {
    RunStep(config, labels, s, a);
    RunStep(config, labels + [a], Apply(config, s, a), b);
  }

  lemma {:induction false} InOneGo(labels: seq<Label>, a: Label, b: Label, c: Label, d: Label, e: Label)
    ensures labels + ([a] + [b] + [c] + [d] + [e]) == labels + [a] + [b] + [c] + [d] + [e]
  {}

  lemma {:induction false} RunsExecution(config: Config, labels: seq<Label>, s: System, g: nat, p: DraftParams,
      caller: Caller, env: Env)
    returns (s': System)
    requires Run(config, labels) == Some(s) && Able(config, p, caller, env) && p.idempotencyKey !in s.durable
    requires g < |s.gateways| && s.gateways[g] == EmptyGateway(s.gateways[g].home)
    ensures Run(config, labels + Execution(g, p, caller, env)) == Some(s') && ExecutedOn(s, s', g, p.idempotencyKey)
  {
    var l1, l2, l3 := DraftStep(g, p, Some(caller), DRAFT_ID, 0), Submit(g, CommitOf(CallOf(caller))), Start(g, env, 0);
    var l4, l5 := LookedUp(g, env), ConnectorReturned(g, "", env, 0);
    InOneGo(labels, l1, l2, l3, l4, l5);
    var s3 := BeginsRun(config, labels, s, g, p, caller, env);
    ReturnsOn(config, s, s3, g, p, caller, env);
    TwoSteps(config, labels + [l1] + [l2] + [l3], s3, l4, l5);
    s' := Apply(config, Apply(config, s3, l4), l5);
  }

  lemma {:induction false} BeginsRun(config: Config, labels: seq<Label>, s: System, g: nat, p: DraftParams,
      caller: Caller, env: Env)
    returns (s3: System)
    requires Run(config, labels) == Some(s) && Able(config, p, caller, env)
    requires g < |s.gateways| && s.gateways[g] == EmptyGateway(s.gateways[g].home)
    ensures
      var r := NewDraft(config, p, Some(caller), DRAFT_ID, 0);
      s3 == With(s, g, s.gateways[g].(rows := [r],
        phase := LookingUp(CallOf(caller), r, VerifiedCaller(config, Some(caller)).identity, |s.log|)),
                 [Began(g, CallOf(caller))])
    ensures
      Run(config, labels + [DraftStep(g, p, Some(caller), DRAFT_ID, 0)] + [Submit(g, CommitOf(CallOf(caller)))]
        + [Start(g, env, 0)])
        == Some(s3)
  {
    BeginsOn(config, s, g, p, caller, env);
    var l1, l2, l3 := DraftStep(g, p, Some(caller), DRAFT_ID, 0), Submit(g, CommitOf(CallOf(caller))), Start(g, env, 0);
    ThreeSteps(config, labels, s, l1, l2, l3);
    s3 := Apply(config, Apply(config, Apply(config, s, l1), l2), l3);
  }

  /** `n` replicas, `c` of the first one's gateways lost, nothing put, everything executed. */
  ghost predicate Stage(s: System, n: nat, c: nat, key: string) {
    && s.replicas == n && |s.gateways| == n + c && s.durable == map[] && Executions(s.log, key) == n + c
    && forall g | c <= g < |s.gateways| :: s.gateways[g].alive
  }

  /** One more replica joins and executes the key. */
  lemma {:induction false} JoinsAndExecutes(config: Config, labels: seq<Label>, s: System, n: nat, c: nat,
      p: DraftParams, caller: Caller, env: Env)
    returns (more: seq<Label>, s': System)
    requires Run(config, labels) == Some(s) && Able(config, p, caller, env) && Stage(s, n, c, p.idempotencyKey)
    ensures Run(config, more) == Some(s') && Stage(s', n + 1, c, p.idempotencyKey)
  {
    RunStep(config, labels, s, Join);
    var joined := Apply(config, s, Join);
    s' := RunsExecution(config, labels + [Join], joined, n + c, p, caller, env);
    more := labels + [Join] + Execution(n + c, p, caller, env);
  }

  /** The only replica loses its gateway after the return and before the put, and executes the key again. */
  lemma {:induction false} CrashesAndExecutes(config: Config, labels: seq<Label>, s: System, c: nat, p: DraftParams,
      caller: Caller, env: Env)
    returns (more: seq<Label>, s': System)
    requires Run(config, labels) == Some(s) && Able(config, p, caller, env) && Stage(s, 1, c, p.idempotencyKey)
    requires !config.durableStores
    ensures Run(config, more) == Some(s') && Stage(s', 1, c + 1, p.idempotencyKey)
  {
    RunStep(config, labels, s, Restart(c));
    var lost := Apply(config, s, Restart(c));
    assert lost.log == s.log + [Lost(c)] && (s.log + [Lost(c)])[..|s.log|] == s.log;
    s' := RunsExecution(config, labels + [Restart(c)], lost, c + 1, p, caller, env);
    more := labels + [Restart(c)] + Execution(c + 1, p, caller, env);
  }

  lemma {:induction false} CrashRun(config: Config, c: nat, p: DraftParams, caller: Caller, env: Env)
    returns (labels: seq<Label>, s: System)
    requires Able(config, p, caller, env) && (c > 0 ==> !config.durableStores)
    ensures Run(config, labels) == Some(s) && Stage(s, 1, c, p.idempotencyKey)
    decreases c
  {
    if c == 0 {
      labels, s := JoinsAndExecutes(config, [], Run(config, []).value, 0, 0, p, caller, env);
    } else {
      labels, s := CrashRun(config, c - 1, p, caller, env);
      labels, s := CrashesAndExecutes(config, labels, s, c - 1, p, caller, env);
    }
  }

  lemma {:induction false} StageRun(config: Config, n: nat, c: nat, p: DraftParams, caller: Caller, env: Env)
    returns (labels: seq<Label>, s: System)
    requires Able(config, p, caller, env) && n > 0 && (c > 0 ==> !config.durableStores)
    ensures Run(config, labels) == Some(s) && Stage(s, n, c, p.idempotencyKey)
    decreases n
  {
    if n == 1 {
      labels, s := CrashRun(config, c, p, caller, env);
    } else {
      labels, s := StageRun(config, n - 1, c, p, caller, env);
      labels, s := JoinsAndExecutes(config, labels, s, n - 1, c, p, caller, env);
    }
  }

  /**
   For every `n` and `c` there is a run of `n` replicas sharing the commit records in
   which exactly `c` gateways are lost between return and put and one key is executed
   `n + c` times: no smaller bound holds. With durable stores `c` is 0 and the key is
   still executed once by every replica.
   */
  lemma BoundIsMet(config: Config, n: nat, c: nat, p: DraftParams, caller: Caller, env: Env)
    returns (labels: seq<Label>, s: System)
    requires Able(config, p, caller, env) && n > 0 && (c > 0 ==> !config.durableStores)
    ensures Run(config, labels) == Some(s) && s.replicas == n
    ensures |CutShort(config, s, p.idempotencyKey)| == c && Executions(s.log, p.idempotencyKey) == n + c
  {
    labels, s := StageRun(config, n, c, p, caller, env);
    HistHolds(config, labels);
    ExecutionsBounded(config, labels, p.idempotencyKey);
    var cut := CutShort(config, s, p.idempotencyKey);
    forall g | g in cut ensures g < c {
      var k: nat :| k < |s.log| && s.log[k] == Lost(g);
      assert HistOk(config, s, k);
    }
    BelowIsSmall(cut, c);
  }

  /** Such commits exist: a reversible effect type committed automatically. */
  lemma SomeoneIsAble(durableStores: bool) returns (config: Config, p: DraftParams, caller: Caller, env: Env)
    ensures Able(config, p, caller, env) && config.durableStores == durableStores
  {
    config := Config("secret", (token: string) => Some(Identity("agent", "scope")),
                     map["note" := Policy("reversible", "auto")], {"notes"}, false, 0, true,
                     (ref: string, correlation: string) => ref, (ref: string, correlation: string) => ref,
                     map[], durableStores);
    p := DraftParams("note", "notes", "{}", ["verify://1/verify"], "reversible", "key", None);
    caller := Caller(None, Some("token"), None, None, None);
    env := Env(0, 0, 0, (ref: string) => Some(true), {}, false, "fresh", false);
  }
}
