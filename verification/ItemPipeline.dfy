/**
 One work item through its pipeline: classify, then act and verify until the
 chain passes or the attempts run out, then commit or escalate, under the item's
 cost ledger. Model calls, reads, the gateway and the bridge answer from outside.
 */
module ItemPipeline {
  import opened Prelude
  import opened CostControl
  import opened V = Verification

  /** A model call comes back with its price, or throws and is not priced. */
  datatype ModelCall = CallThrew | CallReturned(usd: real)

  function Price(call: ModelCall): real { if call.CallThrew? then 0.0 else call.usd }

  function Spend(calls: seq<ModelCall>): real {
    if calls == [] then 0.0 else Spend(calls[..|calls|-1]) + Price(calls[|calls|-1])
  }

  /** What had been spent when call `k` was made. */
  function SpentBefore(calls: seq<ModelCall>, k: nat): real
    requires k <= |calls|
  {
    Spend(calls[..k])
  }

  datatype PipelineConfig = PipelineConfig(
    maxAttempts: nat, escalateOnFailure: bool, maxCostUsd: Option<real>, warnAtPct: Option<real>,
    classifies: bool, verify: VerifyConfig, emitterArmed: bool)

  datatype CommitAnswer = CommitThrew | CommitAnswered(committed: bool, refused: Option<string>)
  datatype EscalateAnswer = EscalateThrew | Resolution(resolved: bool)

  /** Everything the run asks for, by attempt. */
  datatype Env = Env(
    classify: ModelCall, act: nat -> ModelCall, judge: nat -> ModelCall,
    isObject: nat -> bool, schemaErrors: nat -> seq<Finding>, answers: nat -> (nat -> Read),
    random: nat -> real, verdict: nat -> Option<JudgeVerdict>,
    clock: nat -> int, commit: CommitAnswer, escalate: EscalateAnswer)

  datatype AttemptRecord = AttemptRecord(attempt: nat, at: int, verification: Result)
  datatype Cause = Complexity | RetryExceeded
  datatype Reason = BudgetExceeded | VerificationFailed(attempts: nat) | CommitRefused(why: string)

  datatype Outcome =
    | Committed(attempts: nat, results: seq<Result>)
    | DeadLettered(attempts: nat, results: seq<Result>, reason: Reason)
    | Escalated(attempts: nat, results: seq<Result>, reason: Reason)
    | Bridged(attempts: nat, results: seq<Result>, cause: Cause, resolved: bool)

  datatype Exit = Returned(outcome: Outcome) | Rethrown

  /**
   What a run did: model calls made, feedback given to each act, chains verified, history
   kept, commits asked, envelopes sent.
   */
  datatype Trace = Trace(
    calls: seq<ModelCall>, feedbacks: seq<Option<seq<string>>>, verified: seq<Chain>,
    history: seq<AttemptRecord>, commits: nat, sent: seq<seq<AttemptRecord>>)

  const NOTHING := Trace([], [], [], [], 0, [])

  // ---------------------------------------------------------------------
  // The run as it would be
  // ---------------------------------------------------------------------

  function JudgeSampled(config: PipelineConfig, env: Env, a: nat): bool {
    config.verify.samplePercent.Some? && env.random(a) < config.verify.samplePercent.value / 100.0
  }

  function VerdictAt(config: PipelineConfig, env: Env, a: nat): Option<JudgeVerdict> {
    if !JudgeSampled(config, env, a) then None
    else if env.verdict(a).Some? then env.verdict(a) else Some(InvalidVerdict())
  }

  ghost function ChainAt(config: PipelineConfig, env: Env, a: nat): Chain {
    ChainOf(config.verify, env.schemaErrors(a), env.answers(a), VerdictAt(config, env, a))
  }

  function AttemptPlan(config: PipelineConfig, env: Env, a: nat): seq<ModelCall> {
    [env.act(a)] + if JudgeSampled(config, env, a) then [env.judge(a)] else []
  }

  /** Every model call of a run of `n` attempts, in order. */
  function Plan(config: PipelineConfig, env: Env, n: nat): seq<ModelCall> {
    if n == 0 then if config.classifies then [env.classify] else []
    else Plan(config, env, n - 1) + AttemptPlan(config, env, n)
  }

  function Render(findings: seq<Finding>): seq<string> {
    if findings == [] then []
    else Render(findings[..|findings|-1]) + [findings[|findings|-1].id + ": " + findings[|findings|-1].message]
  }

  /** What attempt `i + 1` is told: nothing first, then the errors of the attempt before it. */
  ghost function FeedbackFor(verified: seq<Chain>, i: nat): Option<seq<string>>
    requires i <= |verified|
  {
    if i == 0 then None else Some(Render(ErrorFindings(verified[i-1].results)))
  }

  /** No call starts once what is spent has reached the cap. */
  ghost predicate StopsAtCap(config: PipelineConfig, calls: seq<ModelCall>) {
    forall k | 0 <= k < |calls| :: !Reached(config.maxCostUsd, SpentBefore(calls, k))
  }

  /**
   Attempt by attempt, what was verified is the chain `chains` gives, what was fed
   back and remembered follows from it, and nothing was tried after a pass.
   */
  ghost predicate FaithfulTo(chains: nat -> Chain, clock: nat -> int, t: Trace) {
    && |t.verified| <= |t.feedbacks| <= |t.verified| + 1
    && (forall i | 0 <= i < |t.verified| :: t.verified[i] == chains(i + 1))
    && (forall i | 0 <= i < |t.feedbacks| :: t.feedbacks[i] == FeedbackFor(t.verified, i))
    && |t.history| == |t.verified|
    && (forall i | 0 <= i < |t.history| ::
          t.history[i] == AttemptRecord(i + 1, clock(i + 1), t.verified[i].composite))
    && (forall i | 0 <= i < |t.verified| - 1 :: !t.verified[i].passed)
  }

  /** The same for the calls of one attempt, after `spent`. */
  ghost predicate StopsAfter(config: PipelineConfig, spent: real, made: seq<ModelCall>) {
    forall k | 0 <= k < |made| :: !Reached(config.maxCostUsd, spent + SpentBefore(made, k))
  }

  ghost predicate Faithful(config: PipelineConfig, env: Env, t: Trace) {
    FaithfulTo((a: nat) => ChainAt(config, env, a), env.clock, t)
  }

  ghost predicate Books(config: PipelineConfig, env: Env, t: Trace, spent: real) {
    && spent == Spend(t.calls) && StopsAtCap(config, t.calls)
    && t.calls <= Plan(config, env, config.maxAttempts)
  }

  function LastResults(verified: seq<Chain>): seq<Result> {
    if verified == [] then [] else verified[|verified|-1].results
  }

  // ---------------------------------------------------------------------
  // Model calls
  // ---------------------------------------------------------------------

  datatype Called = Answered | Failed | Halted

  method RunModelCall(call: ModelCall, ledger: ItemCostLedger) returns (r: Called)
    modifies ledger`spent
    ensures ledger.spent == old(ledger.spent) + Price(call)
    ensures r.Failed? <==> call.CallThrew?
    ensures !r.Failed? ==> (r.Halted? <==> Reached(ledger.cap, ledger.spent))
  {
    if call.CallThrew? {
      return Failed;
    }
    var charged := ledger.Record(call.usd);
    if ledger.IsExhausted() {
      return Halted;
    }
    r := Answered;
  }

  // ---------------------------------------------------------------------
  // One attempt
  // ---------------------------------------------------------------------

  datatype Attempted = Verified(chain: Chain) | AttemptThrew | AttemptHalted

  /** Act, then the chain; `made` are the calls this attempt got to. */
  method RunAttempt(config: PipelineConfig, env: Env, a: nat, ledger: ItemCostLedger)
    returns (r: Attempted, made: seq<ModelCall>)
    requires ledger.cap == config.maxCostUsd && !Reached(ledger.cap, ledger.spent)
    modifies ledger`spent
    ensures made <= AttemptPlan(config, env, a) && made != []
    ensures ledger.spent == old(ledger.spent) + Spend(made)
    ensures StopsAfter(config, old(ledger.spent), made)
    ensures r.AttemptHalted? <==> Reached(ledger.cap, ledger.spent)
    ensures r.Verified? ==> made == AttemptPlan(config, env, a) && r.chain == ChainAt(config, env, a)
  {
    made := [env.act(a)];
    SpendOne(env.act(a));
    var acted := RunModelCall(env.act(a), ledger);
    if acted.Failed? {
      return AttemptThrew, made;
    }
    if acted.Halted? {
      return AttemptHalted, made;
    }
    var results, failed := RunVerifiers(config, env, a);
    if failed {
      return AttemptThrew, made;
    }
    if JudgeSampled(config, env, a) {
      SpendTwo(env.act(a), env.judge(a));
      made := [env.act(a), env.judge(a)];
      var judged := RunModelCall(env.judge(a), ledger);
      if judged.Failed? {
        return AttemptThrew, made;
      }
      if judged.Halted? {
        return AttemptHalted, made;
      }
      results := results + [JudgeResult(config.verify, VerdictAt(config, env, a).value)];
    }
    JudgedLast(config, env, a);
    var composite := Composite(config.verify, results);
    r := Verified(Chain(results + [composite], composite, composite.passed));
  }

  /** The verifiers that make no model call. */
  method RunVerifiers(config: PipelineConfig, env: Env, a: nat) returns (results: seq<Result>, failed: bool)
    ensures failed <==> exists i: nat :: i < |config.verify.checks| && env.answers(a)(i).ReadThrew?
    ensures !failed ==> results == VerifierResults(config.verify, env.schemaErrors(a), env.answers(a), None)
  {
    results, failed := [], false;
    if config.verify.schema {
      results := results + [SchemaResult(config.verify, env.schemaErrors(a))];
    }
    var reconciled := RunReconcileVerifier(config.verify, env.answers(a));
    if reconciled.Threw? {
      failed := true;
      return;
    }
    if reconciled.Reconciled? {
      results := results + [reconciled.result];
    }
  }

  lemma JudgedLast(config: PipelineConfig, env: Env, a: nat)
    ensures
      var verdict := VerdictAt(config, env, a);
      VerifierResults(config.verify, env.schemaErrors(a), env.answers(a), verdict)
        == VerifierResults(config.verify, env.schemaErrors(a), env.answers(a), None)
           + (if verdict.Some? then [JudgeResult(config.verify, verdict.value)] else [])
  {}

  lemma SpendOne(a: ModelCall)
    ensures Spend([a]) == Price(a) && SpentBefore([a], 0) == 0.0
  {}

  lemma SpendTwo(a: ModelCall, b: ModelCall)
    ensures Spend([a, b]) == Price(a) + Price(b)
    ensures SpentBefore([a, b], 0) == 0.0 && SpentBefore([a, b], 1) == Price(a)
  {
    assert [a, b][..1] == [a];
    SpendOne(a);
  }

  // ---------------------------------------------------------------------
  // Books of a run
  // ---------------------------------------------------------------------

  lemma {:induction false} SpendAppend(a: seq<ModelCall>, b: seq<ModelCall>)
    ensures Spend(a + b) == Spend(a) + Spend(b)
    decreases |b|
  {
    if b == [] {
      assert a + b == a;
    } else {
      SpendAppend(a, b[..|b|-1]);
      assert (a + b)[..|a + b|-1] == a + b[..|b|-1];
    }
  }

  lemma {:induction false} PlanGrows(config: PipelineConfig, env: Env, m: nat, n: nat)
    requires m <= n
    ensures Plan(config, env, m) <= Plan(config, env, n)
    decreases n
  {
    if m < n { PlanGrows(config, env, m, n - 1); }
  }

  lemma StopsAppend(config: PipelineConfig, calls: seq<ModelCall>, made: seq<ModelCall>)
    requires StopsAtCap(config, calls) && StopsAfter(config, Spend(calls), made)
    ensures StopsAtCap(config, calls + made)
  {
    var all := calls + made;
    forall k | 0 <= k < |all| ensures !Reached(config.maxCostUsd, SpentBefore(all, k)) {
      if k < |calls| {
        assert all[..k] == calls[..k];
        assert SpentBefore(all, k) == SpentBefore(calls, k);
      } else {
        assert all[..k] == calls + made[..k - |calls|];
        SpendAppend(calls, made[..k - |calls|]);
        assert SpentBefore(all, k) == Spend(calls) + SpentBefore(made, k - |calls|);
      }
    }
  }

  lemma PrefixOfLonger(a: seq<ModelCall>, b: seq<ModelCall>, c: seq<ModelCall>, d: seq<ModelCall>)
    requires b <= c && a + c <= d
    ensures a + b <= d
  {}

  /** The calls of one more attempt, stopped wherever it stopped. */
  lemma AttemptKeepsBooks(config: PipelineConfig, env: Env, a: nat, calls: seq<ModelCall>, made: seq<ModelCall>,
      t: Trace)
    requires 1 <= a <= config.maxAttempts && calls == Plan(config, env, a - 1) && made <= AttemptPlan(config, env, a)
    requires StopsAtCap(config, calls) && StopsAfter(config, Spend(calls), made) && t.calls == calls + made
    ensures Books(config, env, t, Spend(calls) + Spend(made))
  {
    SpendAppend(calls, made);
    StopsAppend(config, calls, made);
    PlanGrows(config, env, a, config.maxAttempts);
    PrefixOfLonger(calls, made, AttemptPlan(config, env, a), Plan(config, env, config.maxAttempts));
  }

  /** How a run may end, and what it then has done. */
  ghost predicate ExitOk(config: PipelineConfig, env: Env, t: Trace, exit: Exit) {
    var n := |t.verified|;
    var passed := n > 0 && t.verified[n-1].passed;
    && t.commits <= 1 && (t.commits == 1 ==> passed) && |t.sent| <= 1
      && (|t.sent| == 1 ==> config.emitterArmed && t.sent[0] == t.history)
    && (Reached(config.maxCostUsd, Spend(t.calls)) <==>
          exit.Returned? && exit.outcome.DeadLettered? && exit.outcome.reason.BudgetExceeded?)
    && (exit.Returned? ==>
          match exit.outcome
          case Committed(attempts, results) =>
            && passed && attempts == n && results == t.verified[n-1].results && t.sent == []
            && t.commits == 1 && env.commit.CommitAnswered? && env.commit.committed
          case DeadLettered(attempts, results, reason) =>
            && results == LastResults(t.verified) && !passed && t.sent == []
            && (reason.BudgetExceeded? ==> attempts == |t.feedbacks|)
            && (!reason.BudgetExceeded? ==>
                  reason == VerificationFailed(config.maxAttempts) && attempts == n == config.maxAttempts
                    && !config.escalateOnFailure)
          case Escalated(attempts, results, reason) =>
            && !config.emitterArmed && t.sent == [] && attempts == n && results == LastResults(t.verified)
            && (if passed then reason.CommitRefused?
                else
                  && reason == VerificationFailed(config.maxAttempts)
                  && n == config.maxAttempts && config.escalateOnFailure)
          case Bridged(attempts, results, cause, resolved) =>
            && t.sent == [t.history] && attempts == n && results == LastResults(t.verified)
            && env.escalate == Resolution(resolved) && (cause.Complexity? <==> passed)
            && (!passed ==> n == config.maxAttempts && config.escalateOnFailure))
  }

  // ---------------------------------------------------------------------
  // The run
  // ---------------------------------------------------------------------

  method EscalateItem(config: PipelineConfig, env: Env, cause: Cause, attempts: nat, results: seq<Result>,
      reason: Reason)
    returns (exit: Exit, sends: bool)
    ensures sends == config.emitterArmed
    ensures !sends ==> exit == Returned(Escalated(attempts, results, reason))
    ensures sends ==> exit == if env.escalate.EscalateThrew? then Rethrown
                              else Returned(Bridged(attempts, results, cause, env.escalate.resolved))
  {
    if !config.emitterArmed {
      return Returned(Escalated(attempts, results, reason)), false;
    }
    sends := true;
    if env.escalate.EscalateThrew? {
      exit := Rethrown;
    } else {
      exit := Returned(Bridged(attempts, results, cause, env.escalate.resolved));
    }
  }

  /** Commit what passed; whatever is not committed escalates. */
  method CommitOrEscalate(config: PipelineConfig, env: Env, a: nat, before: Trace) returns (exit: Exit, t: Trace)
    requires a == |before.verified| > 0 && before.verified[a-1].passed && before.commits == 0 && before.sent == []
    requires !Reached(config.maxCostUsd, Spend(before.calls))
    ensures t == before.(commits := t.commits, sent := t.sent)
    ensures ExitOk(config, env, t, exit)
  {
    t := before;
    var results := LastResults(before.verified);
    var refused := "act output is not a JSON object";
    if env.isObject(a) {
      t := t.(commits := 1);
      if env.commit.CommitThrew? {
        return Rethrown, t;
      }
      if env.commit.committed {
        return Returned(Committed(a, results)), t;
      }
      refused := if env.commit.refused.Some? then env.commit.refused.value else "commit refused";
    }
    var sends;
    exit, sends := EscalateItem(config, env, Complexity, a, results, CommitRefused(refused));
    if sends {
      t := t.(sent := [t.history]);
    }
  }

  /** No attempt passed. */
  method GiveUp(config: PipelineConfig, env: Env, before: Trace) returns (exit: Exit, t: Trace)
    requires |before.verified| == config.maxAttempts && before.commits == 0 && before.sent == []
    requires config.maxAttempts > 0 ==> !before.verified[config.maxAttempts-1].passed
    requires !Reached(config.maxCostUsd, Spend(before.calls))
    ensures t == before.(sent := t.sent)
    ensures ExitOk(config, env, t, exit)
  {
    t := before;
    var reason := VerificationFailed(config.maxAttempts);
    if !config.escalateOnFailure {
      return Returned(DeadLettered(config.maxAttempts, LastResults(t.verified), reason)), t;
    }
    var sends;
    exit, sends := EscalateItem(config, env, RetryExceeded, config.maxAttempts, LastResults(t.verified), reason);
    if sends {
      t := t.(sent := [t.history]);
    }
  }

  lemma AttemptStarted(chains: nat -> Chain, clock: nat -> int, t: Trace, made: seq<ModelCall>,
      feedback: Option<seq<string>>)
    requires FaithfulTo(chains, clock, t) && |t.verified| == |t.feedbacks|
      && feedback == FeedbackFor(t.verified, |t.verified|)
    ensures FaithfulTo(chains, clock, t.(calls := t.calls + made, feedbacks := t.feedbacks + [feedback]))
  {}

  lemma AttemptVerified(chains: nat -> Chain, clock: nat -> int, t: Trace, chain: Chain)
    requires FaithfulTo(chains, clock, t) && |t.feedbacks| == |t.verified| + 1
    requires chain == chains(|t.verified| + 1)
    requires t.verified != [] ==> !t.verified[|t.verified|-1].passed
    ensures
      var a := |t.verified| + 1;
      FaithfulTo(chains, clock,
        t.(verified := t.verified + [chain], history := t.history + [AttemptRecord(a, clock(a), chain.composite)]))
  {}

  /** Faithfulness is not about the bridge or the gateway. */
  lemma FaithfulElsewhere(chains: nat -> Chain, clock: nat -> int, t: Trace, commits: nat,
      sent: seq<seq<AttemptRecord>>)
    requires FaithfulTo(chains, clock, t)
    ensures FaithfulTo(chains, clock, t.(commits := commits, sent := sent))
  {}

  /** Between attempts: `a` of them verified and none passed, all planned calls made and the cap not reached. */
  ghost predicate Going(config: PipelineConfig, env: Env, chains: nat -> Chain, t: Trace, a: nat, spent: real,
      feedback: Option<seq<string>>)
  {
    && |t.verified| == |t.feedbacks| == a <= config.maxAttempts
    && t.calls == Plan(config, env, a) && spent == Spend(t.calls)
    && StopsAtCap(config, t.calls) && !Reached(config.maxCostUsd, spent)
    && FaithfulTo(chains, env.clock, t) && (a > 0 ==> !t.verified[a-1].passed)
    && feedback == FeedbackFor(t.verified, a) && t.commits == 0 && t.sent == []
  }

  ghost predicate Ended(config: PipelineConfig, env: Env, chains: nat -> Chain, t: Trace, spent: real, exit: Exit) {
    Books(config, env, t, spent) && FaithfulTo(chains, env.clock, t) && ExitOk(config, env, t, exit)
  }

  lemma StillBooks(config: PipelineConfig, env: Env, t: Trace, t': Trace, spent: real)
    requires Books(config, env, t, spent) && t'.calls == t.calls
    ensures Books(config, env, t', spent)
  {}

  method Classify(config: PipelineConfig, env: Env, ledger: ItemCostLedger, ghost chains: nat -> Chain)
    returns (done: bool, exit: Exit, t: Trace)
    requires ledger.cap == config.maxCostUsd && ledger.spent == 0.0
    requires config.maxCostUsd.Some? ==> config.maxCostUsd.value > 0.0
    modifies ledger`spent
    ensures if done then Ended(config, env, chains, t, ledger.spent, exit)
      else Going(config, env, chains, t, 0, ledger.spent, None)
  {
    done, exit, t := false, Rethrown, NOTHING;
    PlanGrows(config, env, 0, config.maxAttempts);
    if config.classifies {
      t := t.(calls := [env.classify]);
      SpendOne(env.classify);
      var classified := RunModelCall(env.classify, ledger);
      if classified.Failed? {
        return true, Rethrown, t;
      }
      if classified.Halted? {
        return true, Returned(DeadLettered(0, [], BudgetExceeded)), t;
      }
    }
  }

  /** Takes in one attempt: end the run, or go on to the next. */
  method AfterAttempt(config: PipelineConfig, env: Env, a: nat, before: Trace, attempted: Attempted,
      made: seq<ModelCall>,
                      feedback: Option<seq<string>>, ghost spent: real, ghost chains: nat -> Chain)
    returns (done: bool, exit: Exit, t: Trace, next: Option<seq<string>>)
    requires a < config.maxAttempts && Going(config, env, chains, before, a, Spend(before.calls), feedback)
    requires made <= AttemptPlan(config, env, a + 1) && StopsAfter(config, Spend(before.calls), made)
    requires spent == Spend(before.calls) + Spend(made)
    requires attempted.AttemptHalted? <==> Reached(config.maxCostUsd, spent)
    requires attempted.Verified? ==> made == AttemptPlan(config, env, a + 1) && attempted.chain == chains(a + 1)
    ensures if done then Ended(config, env, chains, t, spent, exit)
      else Going(config, env, chains, t, a + 1, spent, next)
  {
    AttemptStarted(chains, env.clock, before, made, feedback);
    t := before.(calls := before.calls + made, feedbacks := before.feedbacks + [feedback]);
    AttemptKeepsBooks(config, env, a + 1, before.calls, made, t);
    if attempted.AttemptThrew? {
      ThrewOk(config, env, t);
      return true, Rethrown, t, None;
    }
    if attempted.AttemptHalted? {
      HaltedOk(config, env, t);
      return true, Returned(DeadLettered(a + 1, LastResults(t.verified), BudgetExceeded)), t, None;
    }
    done, exit, t, next := AfterChain(config, env, a, t, attempted.chain, spent, chains);
  }

  method NextAttempt(config: PipelineConfig, env: Env, a: nat, ledger: ItemCostLedger, before: Trace,
                     feedback: Option<seq<string>>, ghost chains: nat -> Chain)
    returns (done: bool, exit: Exit, t: Trace, next: Option<seq<string>>)
    requires ledger.cap == config.maxCostUsd && a < config.maxAttempts
    requires Going(config, env, chains, before, a, ledger.spent, feedback)
      && chains(a + 1) == ChainAt(config, env, a + 1)
    modifies ledger`spent
    ensures if done then Ended(config, env, chains, t, ledger.spent, exit)
      else Going(config, env, chains, t, a + 1, ledger.spent, next)
  {
    var attempted, made := RunAttempt(config, env, a + 1, ledger);
    done, exit, t, next := AfterAttempt(config, env, a, before, attempted, made, feedback, ledger.spent, chains);
  }

  /** Either commit or go on. */
  method AfterChain(config: PipelineConfig, env: Env, a: nat, before: Trace, chain: Chain, ghost spent: real,
      ghost chains: nat -> Chain)
    returns (done: bool, exit: Exit, t: Trace, next: Option<seq<string>>)
    requires a < config.maxAttempts && |before.verified| == a && |before.feedbacks| == a + 1
    requires FaithfulTo(chains, env.clock, before) && (a > 0 ==> !before.verified[a-1].passed) && chain == chains(a + 1)
    requires before.calls == Plan(config, env, a + 1) && Books(config, env, before, spent)
      && !Reached(config.maxCostUsd, spent)
    requires before.commits == 0 && before.sent == []
    ensures if done then Ended(config, env, chains, t, spent, exit)
      else Going(config, env, chains, t, a + 1, spent, next)
  {
    exit := Rethrown;
    done, next, t := VerifiedNext(config, env, before, chain, chains);
    if done {
      ghost var verified := t;
      exit, t := CommitOrEscalate(config, env, a + 1, t);
      FaithfulElsewhere(chains, env.clock, verified, t.commits, t.sent);
      StillBooks(config, env, before, t, spent);
    }
  }

  lemma ThrewOk(config: PipelineConfig, env: Env, t: Trace)
    requires t.commits == 0 && t.sent == [] && !Reached(config.maxCostUsd, Spend(t.calls))
    ensures ExitOk(config, env, t, Rethrown)
  {}

  lemma HaltedOk(config: PipelineConfig, env: Env, t: Trace)
    requires t.commits == 0 && t.sent == [] && Reached(config.maxCostUsd, Spend(t.calls))
    requires t.verified != [] ==> !t.verified[|t.verified|-1].passed
    ensures ExitOk(config, env, t, Returned(DeadLettered(|t.feedbacks|, LastResults(t.verified), BudgetExceeded)))
  {}

  /** Remembers a verified attempt; `next` is what the following one is told. */
  method VerifiedNext(config: PipelineConfig, env: Env, before: Trace, chain: Chain, ghost chains: nat -> Chain)
    returns (passed: bool, next: Option<seq<string>>, t: Trace)
    requires FaithfulTo(chains, env.clock, before) && |before.feedbacks| == |before.verified| + 1
    requires chain == chains(|before.verified| + 1)
    requires before.verified != [] ==> !before.verified[|before.verified|-1].passed
    ensures passed == chain.passed && t == before.(verified := before.verified + [chain], history := t.history)
    ensures FaithfulTo(chains, env.clock, t)
    ensures next == FeedbackFor(t.verified, |t.verified|)
  {
    AttemptVerified(chains, env.clock, before, chain);
    var a := |before.verified| + 1;
    t := before.(verified := before.verified + [chain],
      history := before.history + [AttemptRecord(a, env.clock(a), chain.composite)]);
    passed := chain.passed;
    var findings := CollectErrorFindings(chain.results);
    next := Some(Render(findings));
  }

  method RunWithAccount(config: PipelineConfig, env: Env, ledger: ItemCostLedger) returns (exit: Exit, t: Trace)
    requires ledger.cap == config.maxCostUsd && ledger.spent == 0.0
    requires config.maxCostUsd.Some? ==> config.maxCostUsd.value > 0.0
    modifies ledger`spent
    ensures Books(config, env, t, ledger.spent) && Faithful(config, env, t) && ExitOk(config, env, t, exit)
  {
    ghost var chains: nat -> Chain := (a: nat) => ChainAt(config, env, a);
    var done;
    done, exit, t := Classify(config, env, ledger, chains);
    if done {
      return;
    }
    var feedback: Option<seq<string>> := None;
    var a := 0;
    while a < config.maxAttempts
      invariant 0 <= a <= config.maxAttempts
      invariant Going(config, env, chains, t, a, ledger.spent, feedback)
    {
      done, exit, t, feedback := NextAttempt(config, env, a, ledger, t, feedback, chains);
      if done {
        return;
      }
      a := a + 1;
    }
    ghost var before := t;
    exit, t := GiveUp(config, env, t);
    FaithfulElsewhere(chains, env.clock, before, t.commits, t.sent);
  }

  /**
   The whole run. Whatever the models, reads, gateway and bridge answer: the calls
   made are an initial piece of the plan, none of them started once the cap was
   reached; attempts are verified, remembered and fed back as they were; the run
   ends as `ExitOk` says; and on every exit, a rethrow included, the daily budget
   is charged exactly once, with the sum of all priced calls.
   */
  method RunItemPipeline(config: PipelineConfig, env: Env) returns (exit: Exit, t: Trace, charged: seq<real>)
    requires config.maxCostUsd.Some? ==> config.maxCostUsd.value > 0.0
    ensures charged == [Spend(t.calls)]
    ensures t.calls <= Plan(config, env, config.maxAttempts) && StopsAtCap(config, t.calls)
    ensures Faithful(config, env, t) && ExitOk(config, env, t, exit)
  {
    var ledger := new ItemCostLedger(config.maxCostUsd, config.warnAtPct);
    exit, t := RunWithAccount(config, env, ledger);
    charged := [ledger.spent];
  }

  // ---------------------------------------------------------------------
  // What follows
  // ---------------------------------------------------------------------

  /** A run that answers committed was verified through and through in its last attempt. */
  lemma CommittedMeansVerified(config: PipelineConfig, env: Env, t: Trace, exit: Exit)
    requires Faithful(config, env, t) && ExitOk(config, env, t, exit) && exit.Returned? && exit.outcome.Committed?
    ensures
      var a := exit.outcome.attempts;
      && 1 <= a == |t.verified| && AllPassed(exit.outcome.results)
      && (config.verify.schema ==> env.schemaErrors(a) == [])
      && (forall i: nat | i < |config.verify.checks| :: env.answers(a)(i).Matches?)
      && (JudgeSampled(config, env, a) ==> env.verdict(a).Some? && env.verdict(a).value.passed)
  {
    var a := |t.verified|;
    assert t.verified[a-1] == ChainAt(config, env, a);
    ChainPassesExactly(config.verify, env.schemaErrors(a), env.answers(a), VerdictAt(config, env, a));
  }

  lemma {:induction false} PlanIsShort(config: PipelineConfig, env: Env, n: nat)
    ensures |Plan(config, env, n)| <= 1 + 2 * n
  {
    if n > 0 { PlanIsShort(config, env, n - 1); }
  }

  lemma {:induction false} SpendIsPaid(calls: seq<ModelCall>)
    requires forall i | 0 <= i < |calls| :: Price(calls[i]) >= 0.0
    ensures Spend(calls) >= 0.0
    decreases |calls|
  {
    if calls != [] { SpendIsPaid(calls[..|calls|-1]); }
  }

  /** A capped item spends less than its cap plus one call. */
  lemma ItemSpendIsBounded(config: PipelineConfig, calls: seq<ModelCall>, most: real)
    requires StopsAtCap(config, calls) && config.maxCostUsd.Some? && config.maxCostUsd.value > 0.0
    requires forall i | 0 <= i < |calls| :: 0.0 <= Price(calls[i]) <= most
    requires most >= 0.0
    ensures 0.0 <= Spend(calls) < config.maxCostUsd.value + most
  {
    SpendIsPaid(calls);
    if calls != [] { assert !Reached(config.maxCostUsd, SpentBefore(calls, |calls| - 1)); }
  }

  /**
   The bounds compose: if every charge of the day is the spend of a run that
   stopped at a cap of at most `itemCap`, on calls of at most `most` each, a day's
   recorded spend stays below the day cap plus the item cap plus one call.
   */
  lemma DaySpendComposes(dayCap: real, startedAt: int, turns: seq<Turn>, itemCap: real, most: real, day: int,
                         configs: seq<PipelineConfig>, runs: seq<seq<ModelCall>>)
    requires |configs| == |turns| == |runs| && most >= 0.0
    requires forall i | 0 <= i < |turns| && turns[i].charge.Some? ::
      && turns[i].charge.value.cost == Spend(runs[i]) && StopsAtCap(configs[i], runs[i])
      && configs[i].maxCostUsd.Some? && 0.0 < configs[i].maxCostUsd.value <= itemCap
      && forall k | 0 <= k < |runs[i]| :: 0.0 <= Price(runs[i][k]) <= most
    requires InTime(startedAt, turns)
    ensures
      var spent := SpentOn(dayCap, startedAt, turns, day);
      spent == 0.0 || 0.0 <= spent < dayCap + itemCap + most
  {
    forall i | 0 <= i < |turns| && turns[i].charge.Some? ensures 0.0 <= turns[i].charge.value.cost <= itemCap + most {
      ItemSpendIsBounded(configs[i], runs[i], most);
    }
    IsOrderly(startedAt, turns, itemCap + most);
    DaySpendIsBounded(dayCap, startedAt, turns, itemCap + most);
    assert DayOk(dayCap, itemCap + most, SpentOn(dayCap, startedAt, turns, day));
  }

  /** The clock does not run backwards. */
  ghost predicate InTime(startedAt: int, turns: seq<Turn>)
    decreases |turns|
  {
    turns == [] ||
    (var t := turns[|turns|-1];
     && InTime(startedAt, turns[..|turns|-1])
     && LastRead(startedAt, turns[..|turns|-1]) <= t.polledAt
     && (t.charge.Some? ==> t.polledAt <= t.charge.value.at))
  }

  lemma {:induction false} IsOrderly(startedAt: int, turns: seq<Turn>, most: real)
    requires InTime(startedAt, turns)
    requires forall i | 0 <= i < |turns| && turns[i].charge.Some? :: 0.0 <= turns[i].charge.value.cost <= most
    ensures Orderly(startedAt, turns, most)
    decreases |turns|
  {
    if turns != [] { IsOrderly(startedAt, turns[..|turns|-1], most); }
  }
}
