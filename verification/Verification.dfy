/**
 The verification chain of one attempt -- schema, reconcile, judge, and their
 composite -- and the findings a retry is told about. Schema validation, the
 reconcile comparisons and the judge's verdict are answers from outside.
 */
module Verification {
  import opened Prelude

  datatype Severity = Error | Warning | Info
  datatype Finding = Finding(id: string, message: string, severity: Severity)
  datatype Result = Result(passed: bool, verifier: string, findings: seq<Finding>, checksRun: nat, costUsd: real)

  datatype Check = Check(serverAlias: string, toolName: string, readField: string, outputField: string)
  datatype Read = ReadThrew | ReadFailed(error: string) | Matches(value: string)
    | Differs(value: string, expected: string)

  datatype JudgeVerdict = JudgeVerdict(passed: bool, findings: Option<seq<Finding>>)

  /** `schema` is false only when the recipe turns it off. The judge runs on `samplePercent` of attempts. */
  datatype VerifyConfig = VerifyConfig(verifier: string, item: string, minionType: string, schema: bool,
    checks: seq<Check>, samplePercent: Option<real>)

  datatype Chain = Chain(results: seq<Result>, composite: Result, passed: bool)

  // ---------------------------------------------------------------------
  // The verifiers
  // ---------------------------------------------------------------------

  /** `errors` are the schema errors with the finding ids made from their paths. */
  function SchemaResult(config: VerifyConfig, errors: seq<Finding>): Result {
    if errors == [] then
      Result(true, "schema:" + config.minionType,
        [Finding("schema.valid", "output conforms to its declared JSON Schema", Info)], 1, 0.0)
    else Result(false, "schema:" + config.minionType, errors, 1, 0.0)
  }

  /** A read that throws ends the whole run, so nobody looks at its finding. */
  function CheckFinding(c: Check, r: Read): Finding {
    var name := "reconcile." + c.serverAlias + "." + c.toolName;
    match r
    case Matches(value) => Finding(name + ".match", c.readField + " matches output (" + value + ")", Info)
    case Differs(value, expected) =>
      Finding(name + ".mismatch", c.readField + " is " + value + " but output." + c.outputField + " is " + expected,
        Error)
    case ReadFailed(error) => Finding(name + ".read_failed", "failed: " + error, Error)
    case ReadThrew => Finding(name + ".read_failed", "failed", Error)
  }

  /** What reconciling amounts to when every read is answered: one finding per check, passed when all match. */
  ghost function ReconcileResult(config: VerifyConfig, answers: nat -> Read): Result {
    Result(forall i: nat | i < |config.checks| :: answers(i).Matches?, "reconcile:" + config.item,
           seq(|config.checks|, i requires 0 <= i < |config.checks| => CheckFinding(config.checks[i], answers(i))),
           |config.checks|, 0.0)
  }

  datatype Reconciled = NoChecks | Threw | Reconciled(result: Result)

  method RunReconcileVerifier(config: VerifyConfig, answers: nat -> Read) returns (r: Reconciled)
    ensures r.NoChecks? <==> config.checks == []
    ensures r.Threw? <==> exists i: nat :: i < |config.checks| && answers(i).ReadThrew?
    ensures r.Reconciled? ==> r.result == ReconcileResult(config, answers)
  {
    if config.checks == [] {
      return NoChecks;
    }
    var findings: seq<Finding> := [];
    var passed := true;
    for i := 0 to |config.checks|
      invariant forall k: nat | k < i :: !answers(k).ReadThrew?
      invariant passed <==> forall k: nat | k < i :: answers(k).Matches?
      invariant |findings| == i && forall k: nat | k < i :: findings[k] == CheckFinding(config.checks[k], answers(k))
    {
      var read := answers(i);
      if read.ReadThrew? {
        return Threw;
      }
      findings := findings + [CheckFinding(config.checks[i], read)];
      if read.ReadFailed? {
        passed := false;
        continue;
      }
      if read.Differs? {
        passed := false;
      }
    }
    assert findings == ReconcileResult(config, answers).findings;
    r := Reconciled(Result(passed, "reconcile:" + config.item, findings, |config.checks|, 0.0));
  }

  function JudgeResult(config: VerifyConfig, v: JudgeVerdict): Result {
    var given := if v.findings.Some? then v.findings.value else [];
    Result(v.passed, "judge:" + config.item,
           if v.passed || given != [] then given
             else [Finding("judge.failed", "judge rejected the output", Error)], 0, 0.0001)
  }

  /** An output that is no verdict is a failing one. */
  function InvalidVerdict(): JudgeVerdict {
    JudgeVerdict(false, Some([Finding("judge.invalid_output", "judge returned invalid output", Error)]))
  }

  // ---------------------------------------------------------------------
  // The composite
  // ---------------------------------------------------------------------

  function AllFindings(results: seq<Result>): seq<Finding> {
    if results == [] then [] else AllFindings(results[..|results|-1]) + results[|results|-1].findings
  }

  function TotalCost(results: seq<Result>): real {
    if results == [] then 0.0 else TotalCost(results[..|results|-1]) + results[|results|-1].costUsd
  }

  predicate AllPassed(results: seq<Result>) { forall i | 0 <= i < |results| :: results[i].passed }

  function Composite(config: VerifyConfig, results: seq<Result>): Result {
    Result(AllPassed(results), config.verifier, AllFindings(results), |results|, TotalCost(results))
  }

  ghost function VerifierResults(config: VerifyConfig, errors: seq<Finding>, answers: nat -> Read,
      verdict: Option<JudgeVerdict>): seq<Result>
  {
    (if config.schema then [SchemaResult(config, errors)] else [])
    + (if config.checks != [] then [ReconcileResult(config, answers)] else [])
    + (if verdict.Some? then [JudgeResult(config, verdict.value)] else [])
  }

  /** The chain's outcome when nothing throws. `verdict` is the judge's, when it was sampled. */
  ghost function ChainOf(config: VerifyConfig, errors: seq<Finding>, answers: nat -> Read,
      verdict: Option<JudgeVerdict>): Chain
  {
    var results := VerifierResults(config, errors, answers, verdict);
    var composite := Composite(config, results);
    Chain(results + [composite], composite, composite.passed)
  }

  /**
   The chain passes exactly when every verifier that ran does: no schema error, every
   read a match, an approving judge.
   */
  lemma ChainPassesExactly(config: VerifyConfig, errors: seq<Finding>, answers: nat -> Read,
      verdict: Option<JudgeVerdict>)
    ensures
      ChainOf(config, errors, answers, verdict).passed <==>
        && (config.schema ==> errors == [])
        && (forall i: nat | i < |config.checks| :: answers(i).Matches?)
        && (verdict.Some? ==> verdict.value.passed)
    ensures
      var chain := ChainOf(config, errors, answers, verdict);
      chain.passed <==> AllPassed(chain.results)
  {
    var first := if config.schema then [SchemaResult(config, errors)] else [];
    var second := if config.checks != [] then [ReconcileResult(config, answers)] else [];
    var third := if verdict.Some? then [JudgeResult(config, verdict.value)] else [];
    assert AllPassed(first) <==> (config.schema ==> errors == []) by {
      if config.schema { OnePassed(SchemaResult(config, errors)); }
    }
    assert AllPassed(second) <==> forall i: nat | i < |config.checks| :: answers(i).Matches? by {
      if config.checks != [] { OnePassed(ReconcileResult(config, answers)); }
    }
    assert AllPassed(third) <==> (verdict.Some? ==> verdict.value.passed) by {
      if verdict.Some? { OnePassed(JudgeResult(config, verdict.value)); }
    }
    PassedTogether(first, second);
    PassedTogether(first + second, third);
    CompositePasses(config, first + second + third);
  }

  lemma CompositePasses(config: VerifyConfig, results: seq<Result>)
    ensures AllPassed(results + [Composite(config, results)]) <==> AllPassed(results)
  {
    PassedTogether(results, [Composite(config, results)]);
    OnePassed(Composite(config, results));
  }

  lemma OnePassed(r: Result)
    ensures AllPassed([r]) <==> r.passed
  {
    if AllPassed([r]) { assert [r][0].passed; }
  }

  lemma PassedTogether(a: seq<Result>, b: seq<Result>)
    ensures AllPassed(a + b) <==> AllPassed(a) && AllPassed(b)
  {
    if AllPassed(a + b) {
      assert forall i | 0 <= i < |a| :: a[i] == (a + b)[i];
      assert forall i | 0 <= i < |b| :: b[i] == (a + b)[|a| + i];
    }
  }

  // ---------------------------------------------------------------------
  // Feedback
  // ---------------------------------------------------------------------

  function Errors(findings: seq<Finding>): seq<Finding> {
    if findings == [] then []
    else
      var last := findings[|findings|-1];
      Errors(findings[..|findings|-1]) + (if last.severity.Error? then [last] else [])
  }

  predicate HasId(findings: seq<Finding>, id: string) { exists i :: 0 <= i < |findings| && findings[i].id == id }

  /** Of findings with the same id, the first. */
  function FirstById(findings: seq<Finding>): seq<Finding> {
    if findings == [] then []
    else
      var before, last := FirstById(findings[..|findings|-1]), findings[|findings|-1];
      if HasId(before, last.id) then before else before + [last]
  }

  function ErrorFindings(results: seq<Result>): seq<Finding> { FirstById(Errors(AllFindings(results))) }

  /** The loop so far: what is kept of `all`, and the ids kept. */
  ghost predicate Collected(seen: set<string>, findings: seq<Finding>, all: seq<Finding>) {
    findings == FirstById(Errors(all)) && forall id :: id in seen <==> HasId(findings, id)
  }

  method CollectErrorFindings(results: seq<Result>) returns (findings: seq<Finding>)
    ensures findings == ErrorFindings(results)
  {
    var seen: set<string> := {};
    findings := [];
    ghost var all: seq<Finding> := [];
    for i := 0 to |results|
      invariant all == AllFindings(results[..i]) && Collected(seen, findings, all)
    {
      var result := results[i];
      ghost var before := all;
      for j := 0 to |result.findings|
        invariant all == before + result.findings[..j] && Collected(seen, findings, all)
      {
        var finding := result.findings[j];
        CollectsNext(seen, findings, all, finding);
        Extend(before, result.findings, j);
        all := all + [finding];
        if finding.severity.Error? && finding.id !in seen {
          seen := seen + {finding.id};
          findings := findings + [finding];
        }
      }
      FindingsOfNext(results, i);
      Whole(result.findings);
    }
    Whole(results);
  }

  lemma Whole<T>(s: seq<T>)
    ensures s[..|s|] == s
  {}

  lemma Extend(before: seq<Finding>, s: seq<Finding>, j: nat)
    requires j < |s|
    ensures before + s[..j] + [s[j]] == before + s[..j+1]
  {}

  lemma FindingsOfNext(results: seq<Result>, i: nat)
    requires i < |results|
    ensures AllFindings(results[..i+1]) == AllFindings(results[..i]) + results[i].findings
  {
    assert results[..i+1][..i] == results[..i];
  }

  lemma CollectsNext(seen: set<string>, findings: seq<Finding>, all: seq<Finding>, f: Finding)
    requires Collected(seen, findings, all)
    ensures
      if f.severity.Error? && f.id !in seen then Collected(seen + {f.id}, findings + [f], all + [f])
      else Collected(seen, findings, all + [f])
  {
    OneMoreFinding(all, f);
    SeenGrows(findings, f);
  }

  lemma OneMoreFinding(all: seq<Finding>, f: Finding)
    ensures
      var kept := FirstById(Errors(all));
      FirstById(Errors(all + [f])) == if f.severity.Error? && !HasId(kept, f.id) then kept + [f] else kept
  {
    assert (all + [f])[..|all|] == all;
    if f.severity.Error? {
      assert (Errors(all) + [f])[..|Errors(all)|] == Errors(all);
    } else {
      assert Errors(all) + [] == Errors(all);
    }
  }

  lemma SeenGrows(findings: seq<Finding>, f: Finding)
    ensures forall id :: HasId(findings + [f], id) <==> HasId(findings, id) || id == f.id
  {
    forall id ensures HasId(findings + [f], id) <==> HasId(findings, id) || id == f.id {
      if HasId(findings, id) {
        var i :| 0 <= i < |findings| && findings[i].id == id;
        assert (findings + [f])[i].id == id;
      }
      if id == f.id { assert (findings + [f])[|findings|].id == id; }
    }
  }

  ghost predicate DistinctFindings(findings: seq<Finding>) {
    forall i, j | 0 <= i < j < |findings| :: findings[i].id != findings[j].id
  }

  lemma DistinctGrows(findings: seq<Finding>, f: Finding)
    requires DistinctFindings(findings) && !HasId(findings, f.id)
    ensures DistinctFindings(findings + [f])
  {}

  lemma {:induction false} FirstByIdKeeps(findings: seq<Finding>)
    ensures
      var first := FirstById(findings);
      && (forall f | f in first :: f in findings)
      && (forall id :: HasId(findings, id) ==> HasId(first, id))
      && DistinctFindings(first)
    decreases |findings|
  {
    if findings != [] {
      var before, last := findings[..|findings|-1], findings[|findings|-1];
      FirstByIdKeeps(before);
      var kept := FirstById(before);
      assert findings == before + [last];
      SeenGrows(before, last);
      SeenGrows(kept, last);
      if !HasId(kept, last.id) { DistinctGrows(kept, last); }
    }
  }

  lemma {:induction false} ErrorsAre(findings: seq<Finding>, f: Finding)
    ensures f in Errors(findings) <==> f in findings && f.severity.Error?
    decreases |findings|
  {
    if findings != [] {
      var before, last := findings[..|findings|-1], findings[|findings|-1];
      ErrorsAre(before, f);
      assert findings == before + [last];
    }
  }

  /**
   The feedback is made of error findings only, no id twice, and every error
   finding of the chain is in it under its id.
   */
  lemma FeedbackIsExact(results: seq<Result>, f: Finding)
    ensures
      var feedback := ErrorFindings(results);
      && (f in feedback ==> f in AllFindings(results) && f.severity.Error?)
      && (f in AllFindings(results) && f.severity.Error? ==> HasId(feedback, f.id))
      && DistinctFindings(feedback)
  {
    var errors := Errors(AllFindings(results));
    FirstByIdKeeps(errors);
    ErrorsAre(AllFindings(results), f);
    if f in errors {
      var i :| 0 <= i < |errors| && errors[i] == f;
      assert HasId(errors, f.id);
    }
  }

  lemma {:induction false} ErrorsAppend(a: seq<Finding>, b: seq<Finding>)
    ensures Errors(a + b) == Errors(a) + Errors(b)
    decreases |b|
  {
    if b == [] {
      assert a + b == a;
    } else {
      var before, last := b[..|b|-1], b[|b|-1];
      ErrorsAppend(a, before);
      assert (a + b)[..|a + b|-1] == a + before && (a + b)[|a + b|-1] == last;
      var more := if last.severity.Error? then [last] else [];
      assert Errors(a) + (Errors(before) + more) == (Errors(a) + Errors(before)) + more;
    }
  }

  /** Findings already reported under their ids add nothing. */
  lemma {:induction false} KnownAddNothing(a: seq<Finding>, b: seq<Finding>)
    requires forall i | 0 <= i < |b| :: HasId(a, b[i].id)
    ensures FirstById(a + b) == FirstById(a)
    decreases |b|
  {
    if b == [] {
      assert a + b == a;
    } else {
      var before := b[..|b|-1];
      KnownAddNothing(a, before);
      assert (a + b)[..|a + b|-1] == a + before;
      FirstByIdKeeps(a);
    }
  }

  /** The composite repeats every finding, and the feedback is the same as without it. */
  lemma CompositeAddsNothing(config: VerifyConfig, results: seq<Result>)
    ensures ErrorFindings(results + [Composite(config, results)]) == ErrorFindings(results)
  {
    var all := AllFindings(results);
    var errors := Errors(all);
    assert (results + [Composite(config, results)])[..|results|] == results;
    ErrorsAppend(all, all);
    forall i | 0 <= i < |errors| ensures HasId(errors, errors[i].id) {}
    KnownAddNothing(errors, errors);
  }
}
