/**
 Post-hoc sampling QA: reviewers' verdicts, the disagreement rate over the last
 verdicts of a type, and the breaker it trips.
 */
module SamplingQa {
  datatype Verdict = Verdict(effectType: string, correlationId: string, draftRef: string, disagreed: bool,
    reviewedAt: int)

  /** `windowSize` is at least 1 and `threshold` between 0 and 1 where policies are made. */
  datatype Policy = Policy(threshold: real, windowSize: nat)
  datatype Stat = Stat(reviewed: nat, disagreed: nat, rate: real, tripped: bool)
  datatype Store = Store(verdicts: seq<Verdict>, tripped: set<string>)

  type Policies = map<string, Policy>

  function OfType(verdicts: seq<Verdict>, effectType: string): seq<Verdict> {
    if verdicts == [] then []
    else OfType(verdicts[..|verdicts|-1], effectType)
         + (if verdicts[|verdicts|-1].effectType == effectType then [verdicts[|verdicts|-1]] else [])
  }

  function Without(verdicts: seq<Verdict>, effectType: string): seq<Verdict> {
    if verdicts == [] then []
    else (if verdicts[0].effectType == effectType then [] else [verdicts[0]]) + Without(verdicts[1..], effectType)
  }

  function Last<T>(s: seq<T>, n: nat): seq<T> { if n < |s| then s[|s|-n..] else s }

  function Disagreed(verdicts: seq<Verdict>): (n: nat)
    ensures n <= |verdicts|
  {
    if verdicts == [] then 0
    else Disagreed(verdicts[..|verdicts|-1]) + (if verdicts[|verdicts|-1].disagreed then 1 else 0)
  }

  function Rate(window: seq<Verdict>): (r: real)
    ensures 0.0 <= r <= 1.0
  {
    if window == [] then 0.0 else Disagreed(window) as real / |window| as real
  }

  function StatOf(policies: Policies, s: Store, effectType: string): Stat {
    var window := if effectType in policies && policies[effectType].windowSize > 0
                  then Last(OfType(s.verdicts, effectType), policies[effectType].windowSize) else [];
    Stat(|window|, Disagreed(window), Rate(window), effectType in s.tripped)
  }

  function Record(policies: Policies, s: Store, v: Verdict): Store {
    var s' := s.(verdicts := s.verdicts + [v]);
    var stat := StatOf(policies, s', v.effectType);
    if v.effectType in policies && stat.reviewed > 0 && stat.rate >= policies[v.effectType].threshold
    then s'.(tripped := s.tripped + {v.effectType}) else s'
  }

  function Reset(s: Store, effectType: string): Store {
    Store(Without(s.verdicts, effectType), s.tripped - {effectType})
  }

  class MemorySamplingQaStore {
    var verdicts: seq<Verdict>
    var tripped: set<string>

    function State(): Store
      reads this
    {
      Store(verdicts, tripped)
    }

    constructor ()
      ensures State() == Store([], {})
    {
      verdicts, tripped := [], {};
    }

    method RecordVerdict(v: Verdict)
      modifies this
      ensures State() == old(State()).(verdicts := old(verdicts) + [v])
    {
      verdicts := verdicts + [v];
    }

    method ListVerdicts(effectType: string) returns (r: seq<Verdict>)
      ensures r == OfType(verdicts, effectType)
    {
      r := OfType(verdicts, effectType);
    }

    method SetTripped(effectType: string, isTripped: bool)
      modifies this
      ensures State() == old(State()).(tripped := if isTripped then old(tripped) + {effectType}
        else old(tripped) - {effectType})
    {
      if isTripped {
        tripped := tripped + {effectType};
      } else {
        tripped := tripped - {effectType};
      }
    }

    /** Splices the type's verdicts out from the back. */
    method ResetType(effectType: string)
      modifies this
      ensures State() == Reset(old(State()), effectType)
    {
      ghost var before := verdicts;
      var i := |verdicts| - 1;
      assert before[i + 1..] == [];
      while i >= 0
        invariant -1 <= i < |before| && verdicts == before[..i + 1] + Without(before[i + 1..], effectType)
        invariant tripped == old(tripped)
      {
        assert before[i..] == [before[i]] + before[i + 1..];
        assert before[..i + 1] == before[..i] + [before[i]];
        if verdicts[i].effectType == effectType {
          verdicts := verdicts[..i] + verdicts[i + 1..];
        }
        i := i - 1;
      }
      assert before[0..] == before;
      tripped := tripped - {effectType};
    }
  }

  class SamplingQaController {
    const policies: Policies
    const store: MemorySamplingQaStore

    constructor (policies: Policies, store: MemorySamplingQaStore)
      ensures this.policies == policies && this.store == store
    {
      this.policies, this.store := policies, store;
    }

    method StatFor(effectType: string) returns (stat: Stat)
      ensures stat == StatOf(policies, store.State(), effectType)
    {
      var window: seq<Verdict> := [];
      if effectType in policies && policies[effectType].windowSize > 0 {
        var all := store.ListVerdicts(effectType);
        window := Last(all, policies[effectType].windowSize);
      }
      stat := Stat(|window|, Disagreed(window), Rate(window), effectType in store.tripped);
    }

    method RecordVerdict(v: Verdict) returns (stat: Stat)
      modifies store
      ensures store.State() == Record(policies, old(store.State()), v)
      ensures stat == StatOf(policies, store.State(), v.effectType)
    {
      store.RecordVerdict(v);
      stat := StatFor(v.effectType);
      if v.effectType in policies && stat.reviewed > 0 && stat.rate >= policies[v.effectType].threshold {
        store.SetTripped(v.effectType, true);
      }
      stat := StatFor(v.effectType);
    }

    method ResetType(effectType: string)
      modifies store
      ensures store.State() == Reset(old(store.State()), effectType)
    {
      store.ResetType(effectType);
    }
  }

  // ---------------------------------------------------------------------
  // When a type is tripped
  // ---------------------------------------------------------------------

  datatype Event = Reviewed(v: Verdict) | WasReset(effectType: string)

  function Run(policies: Policies, events: seq<Event>): Store
    decreases |events|
  {
    if events == [] then Store([], {})
    else
      var before := Run(policies, events[..|events|-1]);
      match events[|events|-1]
      case Reviewed(v) => Record(policies, before, v)
      case WasReset(effectType) => Reset(before, effectType)
  }

  /** The verdicts on a type since it was last reset, read off the events alone. */
  function SinceReset(events: seq<Event>, effectType: string): seq<Verdict>
    decreases |events|
  {
    if events == [] then []
    else
      var before := SinceReset(events[..|events|-1], effectType);
      match events[|events|-1]
      case Reviewed(v) => if v.effectType == effectType then before + [v] else before
      case WasReset(t) => if t == effectType then [] else before
  }

  lemma {:induction false} OfTypeAppend(a: seq<Verdict>, b: seq<Verdict>, effectType: string)
    ensures OfType(a + b, effectType) == OfType(a, effectType) + OfType(b, effectType)
    decreases |b|
  {
    if b == [] {
      assert a + b == a;
    } else {
      OfTypeAppend(a, b[..|b|-1], effectType);
      assert (a + b)[..|a + b|-1] == a + b[..|b|-1];
    }
  }

  lemma {:induction false} WithoutKeepsOthers(verdicts: seq<Verdict>, gone: string, effectType: string)
    ensures OfType(Without(verdicts, gone), effectType) == if effectType == gone then []
      else OfType(verdicts, effectType)
    decreases |verdicts|
  {
    if verdicts != [] {
      var head, tail := verdicts[..1], verdicts[1..];
      WithoutKeepsOthers(tail, gone, effectType);
      assert verdicts == head + tail;
      OfTypeAppend(head, tail, effectType);
      OfTypeAppend(if head[0].effectType == gone then [] else [head[0]], Without(tail, gone), effectType);
      assert head[..0] == [] && [head[0]] == head;
    }
  }

  lemma {:induction false} StoreHoldsSinceReset(policies: Policies, events: seq<Event>, effectType: string)
    ensures OfType(Run(policies, events).verdicts, effectType) == SinceReset(events, effectType)
    decreases |events|
  {
    if events != [] {
      var before := events[..|events|-1];
      StoreHoldsSinceReset(policies, before, effectType);
      var s := Run(policies, before);
      match events[|events|-1]
      case Reviewed(v) =>
        OfTypeAppend(s.verdicts, [v], effectType);
        assert [v][..0] == [];
      case WasReset(t) => WithoutKeepsOthers(s.verdicts, t, effectType);
    }
  }

  /** At event `k` a verdict on the type left the rate over its last window at or over the threshold. */
  ghost predicate Trips(policies: Policies, events: seq<Event>, effectType: string, k: int) {
    && 0 <= k < |events| && events[k].Reviewed? && events[k].v.effectType == effectType
    && effectType in policies && policies[effectType].windowSize > 0
    && Rate(Last(SinceReset(events[..k+1], effectType),
      policies[effectType].windowSize)) >= policies[effectType].threshold
  }

  ghost predicate NotResetSince(events: seq<Event>, effectType: string, k: int) {
    forall j: nat | k < j < |events| :: events[j] != WasReset(effectType)
  }

  ghost predicate TrippedSinceReset(policies: Policies, events: seq<Event>, effectType: string) {
    exists k :: Trips(policies, events, effectType, k) && NotResetSince(events, effectType, k)
  }

  lemma EarlierTrip(policies: Policies, events: seq<Event>, e: Event, effectType: string, k: int)
    requires 0 <= k < |events|
    ensures Trips(policies, events + [e], effectType, k) <==> Trips(policies, events, effectType, k)
    ensures NotResetSince(events + [e], effectType, k)
      <==> NotResetSince(events, effectType, k) && e != WasReset(effectType)
  {
    var more := events + [e];
    assert more[..k+1] == events[..k+1];
    assert more[|events|] == e && forall j | 0 <= j < |events| :: more[j] == events[j];
  }

  lemma TripsNow(policies: Policies, events: seq<Event>, v: Verdict)
    ensures
      var more := events + [Reviewed(v)];
      Trips(policies, more, v.effectType, |events|) <==>
        v.effectType in Record(policies, Run(policies, events).(tripped := {}), v).tripped
  {
    var s := Run(policies, events);
    var more := events + [Reviewed(v)];
    assert more[..|events|+1] == more && more[..|events|] == events;
    StoreHoldsSinceReset(policies, more, v.effectType);
    StoreHoldsSinceReset(policies, events, v.effectType);
    OfTypeAppend(s.verdicts, [v], v.effectType);
    assert [v][..0] == [];
  }

  lemma TrippedStep(policies: Policies, events: seq<Event>, e: Event, effectType: string)
    ensures
      TrippedSinceReset(policies, events + [e], effectType) <==>
        || Trips(policies, events + [e], effectType, |events|)
        || (TrippedSinceReset(policies, events, effectType) && e != WasReset(effectType))
  {
    var more := events + [e];
    if TrippedSinceReset(policies, more, effectType) {
      var k :| Trips(policies, more, effectType, k) && NotResetSince(more, effectType, k);
      if k < |events| { EarlierTrip(policies, events, e, effectType, k); }
    }
    if TrippedSinceReset(policies, events, effectType) && e != WasReset(effectType) {
      var k :| Trips(policies, events, effectType, k) && NotResetSince(events, effectType, k);
      EarlierTrip(policies, events, e, effectType, k);
    }
    if Trips(policies, more, effectType, |events|) {
      assert NotResetSince(more, effectType, |events|);
    }
  }

  /**
   A type is tripped exactly when, since its last reset, some recorded verdict
   left the disagreement rate over the type's last `windowSize` verdicts at or
   over its threshold. Verdicts on and resets of other types change nothing.
   */
  lemma {:induction false} TrippedExactly(policies: Policies, events: seq<Event>, effectType: string)
    ensures effectType in Run(policies, events).tripped <==> TrippedSinceReset(policies, events, effectType)
    decreases |events|
  {
    if events != [] {
      var before, e := events[..|events|-1], events[|events|-1];
      assert events == before + [e];
      TrippedExactly(policies, before, effectType);
      TrippedStep(policies, before, e, effectType);
      if e.Reviewed? { TripsNow(policies, before, e.v); }
    }
  }
}
