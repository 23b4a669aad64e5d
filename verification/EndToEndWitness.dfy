/**
 The end-to-end bound is met: whatever the stores, any number of replicas can each
 carry a duplicate of one item to a connector call that returns. One after another
 they join, fetch a duplicate of the item, find no outcome of its key, draft, submit
 and commit as far as the connector's return; none of them gets to its put, so no
 durable record and no outcome ever stops the next. This is the same schedule as in
 the protocol alone, carried through the queue, the outcome store and the pipeline of
 each replica, and it holds with every kind of store.
 */
module EndToEndWitness {
  import opened Prelude
  import opened WorkQueue
  import opened Processor
  import opened EndToEnd
  import G = EffectGateway
  import C = CommitProtocol
  import H = CommitHistory
  import W = CommitWitness

  /** A step in which a gateway takes part. */
  lemma {:induction false} RunWith(
      effects: G.Config, config: Config, labels: seq<Label>, s: System, l: Label, step: C.Label)
    requires Run(effects, config, labels) == Some(s) && Ready(config, s, l) && CommitStep(s, l) == Some(step)
    requires C.Enabled(effects, s.commits, step)
    ensures Run(effects, config, labels + [l])
         == Some(MoveOn(effects.durableStores, config, s, l, C.Apply(effects, s.commits, step)))
  {
    RunNext(effects, config, labels, s, l);
  }

  /** `n` replicas, each of which has executed the key; nothing is waiting, recorded or put. */
  ghost predicate Stage(s: System, n: nat, key: string) {
    && |s.replicas| == n && s.commits.replicas == n && |s.commits.gateways| == n && s.commits.durable == map[]
    && H.Executions(s.commits.log, key) == n
    && s.books.q.available == [] && !s.books.q.closed && s.table == map[]
  }

  /** The item, its draft, and a commit that clears every check. */
  ghost predicate Item(effects: G.Config, config: Config, body: Raw, p: G.DraftParams, caller: G.Caller, env: G.Env) {
    && W.Able(effects, p, caller, env) && ParseWorkItem(body).Some? && config.pipelineMax > 1
    && ParseWorkItem(body).value.itemType in config.pipelines
      && ParseWorkItem(body).value.idempotencyKey == p.idempotencyKey
  }

  /** There is such an item, with stores of either kind. */
  lemma SomeItem(durableStores: bool, firstWriterWins: bool)
      returns (effects: G.Config, config: Config, body: Raw, p: G.DraftParams, caller: G.Caller, env: G.Env)
    ensures Item(effects, config, body, p, caller, env)
    ensures effects.durableStores == durableStores && config.firstWriterWins == firstWriterWins
  {
    effects, p, caller, env := W.SomeoneIsAble(durableStores);
    config := Config({"item"}, 2, 2, firstWriterWins);
    body := Object(Some(Text("item")), Some(Text("")), Some(Text(p.idempotencyKey)), Some(Text("item")));
  }

  /** Replica `n` has joined with an empty gateway and is running the item. */
  ghost predicate Runs(s: System, s': System, n: nat, body: Raw) {
    && |s'.replicas| == n + 1 && s'.replicas[n].g == n && s'.table == s.table
    && s'.replicas[n].phase.Running? && s'.replicas[n].phase.m.body == body
    && Some(s'.replicas[n].phase.item) == ParseWorkItem(body)
    && s'.commits == s.commits.(gateways := s.commits.gateways + [C.EmptyGateway(n)], replicas := n + 1)
    && s'.books.q.available == [] && !s'.books.q.closed
  }

  lemma JoinsAndRuns(
      effects: G.Config, config: Config, labels: seq<Label>, s: System, n: nat, body: Raw, p: G.DraftParams,
        caller: G.Caller,
      env: G.Env) returns (more: seq<Label>, s': System)
    requires Run(effects, config, labels) == Some(s) && Stage(s, n, p.idempotencyKey)
    requires Item(effects, config, body, p, caller, env)
    ensures Run(effects, config, more) == Some(s') && Runs(s, s', n, body)
  {
    var durable := effects.durableStores;
    RunWith(effects, config, labels, s, Join, C.Join);
    var c := C.Apply(effects, s.commits, C.Join);
    more, s' := labels + [Join], MoveOn(durable, config, s, Join, c);
    RunLocal(effects, config, more, s', Produce(body));
    more, s' := more + [Produce(body)], MoveOn(durable, config, s', Produce(body), c);
    assert s'.books.q.available == [Message(s.books.q.sequence + 1, body, 0)];
    RunLocal(effects, config, more, s', Fetch(n));
    more, s' := more + [Fetch(n)], MoveOn(durable, config, s', Fetch(n), c);
    RunLocal(effects, config, more, s', LookedUp(n));
    more, s' := more + [LookedUp(n)], MoveOn(durable, config, s', LookedUp(n), c);
  }

  /** Replica `n` drafts, submits and commits up to the connector's return. */
  lemma CarriesItOut(
      effects: G.Config, config: Config, labels: seq<Label>, s: System, n: nat, body: Raw, p: G.DraftParams,
        caller: G.Caller,
      env: G.Env, s0: System) returns (more: seq<Label>, s': System)
    requires Run(effects, config, labels) == Some(s) && Stage(s0, n, p.idempotencyKey) && Runs(s0, s, n, body)
    requires Item(effects, config, body, p, caller, env)
    ensures Run(effects, config, more) == Some(s') && Stage(s', n + 1, p.idempotencyKey)
  {
    var durable, c, call := effects.durableStores, s.commits, W.CallOf(caller);
    var drafts, submits := DraftsEffect(n, p, Some(caller), W.DRAFT_ID, 0), SubmitsCommit(n, call);
    var draft, submit := C.DraftStep(n, p, Some(caller), W.DRAFT_ID, 0), C.Submit(n, C.CommitOf(call));
    W.BeginsOn(effects, c, n, p, caller, env);
    RunWith(effects, config, labels, s, drafts, draft);
    var c1 := C.Apply(effects, c, draft);
    more, s' := labels + [drafts], MoveOn(durable, config, s, drafts, c1);
    RunWith(effects, config, more, s', submits, submit);
    var c2 := C.Apply(effects, c1, submit);
    more, s' := more + [submits], MoveOn(durable, config, s', submits, c2);
    more, s' := TakesStep(effects, config, more, s', C.Start(n, env, 0));
    W.ReturnsOn(effects, c, s'.commits, n, p, caller, env);
    more, s' := TakesStep(effects, config, more, s', C.LookedUp(n, env));
    more, s' := TakesStep(effects, config, more, s', C.ConnectorReturned(n, "", env, 0));
  }

  lemma TakesStep(effects: G.Config, config: Config, labels: seq<Label>, s: System, step: C.Label)
      returns (more: seq<Label>, s': System)
    requires Run(effects, config, labels) == Some(s) && !step.Join? && !step.Restart?
      && C.Enabled(effects, s.commits, step)
    ensures Run(effects, config, more) == Some(s') && s' == s.(commits := C.Apply(effects, s.commits, step))
  {
    RunWith(effects, config, labels, s, GatewayStep(step), step);
    more := labels + [GatewayStep(step)];
    s' := MoveOn(effects.durableStores, config, s, GatewayStep(step), C.Apply(effects, s.commits, step));
  }

  /**
   For every `n` there is a run in which `n` replicas each carry a duplicate of one
   item to a connector call that returns -- with durable draft stores, shared commit
   records and the shared outcome table as much as without. So `AtMostOnce` over all
   replicas is met.
   */
  lemma {:induction false} EveryReplicaExecutes(
      effects: G.Config, config: Config, n: nat, body: Raw, p: G.DraftParams, caller: G.Caller, env: G.Env)
      returns (labels: seq<Label>, s: System)
    requires Item(effects, config, body, p, caller, env)
    ensures Run(effects, config, labels) == Some(s) && |s.replicas| == n
      && H.Executions(s.commits.log, p.idempotencyKey) == n
    ensures Stage(s, n, p.idempotencyKey)
    decreases n
  {
    if n == 0 {
      labels, s := [], Run(effects, config, []).value;
    } else {
      var s0;
      labels, s0 := EveryReplicaExecutes(effects, config, n - 1, body, p, caller, env);
      labels, s := JoinsAndRuns(effects, config, labels, s0, n - 1, body, p, caller, env);
      labels, s := CarriesItOut(effects, config, labels, s, n - 1, body, p, caller, env, s0);
    }
  }
}
