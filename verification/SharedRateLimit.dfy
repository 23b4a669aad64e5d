/**
 The rate limit when many replicas share one bucket row: the grants of any run
 of the read-modify-write protocol, whatever the replicas' clocks show.
 */
module SharedRateLimit {
  import opened Prelude
  import opened SharedTable
  import opened RowCreation
  import opened TokenBucket

  /** The operation is the time the caller captured before its retry loop. */
  function TakeShared(limit: Limit): (real, Option<Bucket>) -> Computed<Bucket, Verdict> {
    (now: real, current: Option<Bucket>) =>
      var (next, verdict) := TakeToken(current, limit, now);
      Computed(Some(next), verdict)
  }

  type Log = seq<Event<real, Verdict>>

  function Grants(log: Log): nat
    decreases |log|
  {
    if log == [] then 0
    else Grants(log[..|log|-1])
         + (if log[|log|-1].Committed? && log[|log|-1].result.Allowed? then 1 else 0)
  }

  ghost predicate Within(log: Log, earliest: real, latest: real) {
    forall i | 0 <= i < |log| && log[i].Committed? :: earliest <= log[i].op <= latest
  }

  ghost predicate Sequential(limit: Limit, log: Log) {
    forall i | 0 <= i < |log| :: Explained(TakeShared(limit), log, i)
  }

  /** What one bucket lifetime can grant at most. */
  function PerCreation(limit: Limit, earliest: real, latest: real): real {
    limit.burst + Refill(limit, latest - earliest)
  }

  /** `creations` lifetimes of `each` grants. */
  function Charge(creations: real, each: real): real { creations * each }

  lemma PrefixSequential(limit: Limit, log: Log)
    requires log != [] && Sequential(limit, log)
    ensures Sequential(limit, log[..|log|-1])
  {
    var prefix := log[..|log|-1];
    forall i | 0 <= i < |prefix| ensures Explained(TakeShared(limit), prefix, i) {
      ExplainedBefore(TakeShared(limit), log, |log| - 1, i);
    }
  }

  /** What may still be granted: all creations but the last are charged in full. */
  ghost predicate Budget(limit: Limit, grants: real, k: real, stored: Option<Bucket>, earliest: real, c: real) {
    && grants <= Charge(k, c)
    && (stored.Some? ==>
         grants + stored.value.tokens <= Charge(k - 1.0, c) + limit.burst
           + Refill(limit, stored.value.lastRefill - earliest))
  }

  /** One committed request keeps the budget. */
  lemma BudgetStep(limit: Limit, grants: real, k: real, stored: Option<Bucket>, now: real, fromAbsent: bool,
                   earliest: real, latest: real)
    requires limit.requestsPerMinute >= 0.0 && limit.burst >= 1.0 && earliest <= now <= latest
    requires !fromAbsent ==> stored.Some?
    requires Budget(limit, grants, k, stored, earliest, PerCreation(limit, earliest, latest))
    ensures
      var (next, verdict) := TakeToken(if fromAbsent then None else stored, limit, now);
      Budget(limit, grants + (if verdict.Allowed? then 1.0 else 0.0), k + (if fromAbsent then 1.0 else 0.0),
             Some(next), earliest, PerCreation(limit, earliest, latest))
  {
    var c := PerCreation(limit, earliest, latest);
    RefillNonNegative(limit, now - earliest);
    RefillNonNegative(limit, latest - now);
    RefillSplits(limit, latest - now, now - earliest);
    Distribute(k, c);
    if !fromAbsent {
      RefillSplits(limit, now - stored.value.lastRefill, stored.value.lastRefill - earliest);
    }
  }

  lemma Distribute(k: real, c: real)
    ensures Charge(k + 1.0, c) == Charge(k, c) + c && Charge(k - 1.0, c) == Charge(k, c) - c
  {}

  lemma {:induction false} BudgetHolds(limit: Limit, log: Log, earliest: real, latest: real)
    requires limit.requestsPerMinute >= 0.0 && limit.burst >= 1.0 && earliest <= latest
    requires Sequential(limit, log) && Within(log, earliest, latest)
    ensures Budget(limit, Grants(log) as real, Creations(log) as real, Fold(TakeShared(limit), log), earliest,
                   PerCreation(limit, earliest, latest))
    decreases |log|
  {
    if log != [] {
      var prefix := log[..|log|-1];
      var e := log[|log|-1];
      PrefixSequential(limit, log);
      assert Within(prefix, earliest, latest);
      BudgetHolds(limit, prefix, earliest, latest);
      if e.Committed? {
        assert Explained(TakeShared(limit), log, |log|-1);
        BudgetStep(limit, Grants(prefix) as real, Creations(prefix) as real, Fold(TakeShared(limit), prefix),
                   e.op, e.fromAbsent, earliest, latest);
      }
    }
  }

  lemma {:induction false} SmallBurstGrantsNothing(limit: Limit, log: Log)
    requires limit.burst < 1.0
    requires Sequential(limit, log)
    ensures Grants(log) == 0
    decreases |log|
  {
    if log != [] {
      PrefixSequential(limit, log);
      SmallBurstGrantsNothing(limit, log[..|log|-1]);
      assert Explained(TakeShared(limit), log, |log|-1);
    }
  }

  lemma LogBound(limit: Limit, log: Log, earliest: real, latest: real)
    requires limit.requestsPerMinute >= 0.0 && earliest <= latest
    requires Sequential(limit, log) && Within(log, earliest, latest)
    ensures Grants(log) == 0 || Grants(log) as real
      <= Charge(Creations(log) as real, PerCreation(limit, earliest, latest))
  {
    if limit.burst < 1.0 {
      SmallBurstGrantsNothing(limit, log);
    } else {
      BudgetHolds(limit, log, earliest, latest);
    }
  }

  /**
   In every run by any number of replicas, with stale and out-of-order times
   committed, the grants are at most one burst plus one refill of the whole
   time span for each time the bucket was created from nothing.
   */
  lemma CrossReplicaBound(
      limit: Limit, labels: seq<Label<real>>, s: System<real, Bucket, Verdict>, earliest: real, latest: real)
    requires limit.requestsPerMinute >= 0.0 && earliest <= latest
    requires Run(TakeShared(limit), labels) == Some(s)
    requires Within(s.log, earliest, latest)
    ensures Grants(s.log) == 0
         || Grants(s.log) as real <= Charge(Creations(s.log) as real, PerCreation(limit, earliest, latest))
  {
    Linearizable(TakeShared(limit), labels, s);
    LogBound(limit, s.log, earliest, latest);
  }

  /**
   Where one call has created the row before any other began, the replicas share one
   bucket: at most one burst plus one refill. (`RowCreation.NeverOverwritesExactlyWhen`
   is the condition from any state.)
   */
  lemma {:induction false} OneBucketOnceCreated(
      limit: Limit, c: nat, first: real, more: seq<Label<real>>, s: System<real, Bucket, Verdict>, earliest: real,
        latest: real)
    requires limit.requestsPerMinute >= 0.0 && earliest <= latest
    requires Run(TakeShared(limit), Alone(c, first) + more) == Some(s) && Within(s.log, earliest, latest)
    ensures Creations(s.log) == 1
    ensures Grants(s.log) == 0 || Grants(s.log) as real <= PerCreation(limit, earliest, latest)
  {
    CreatedOnce(TakeShared(limit), c, first, more, s);
    CrossReplicaBound(limit, Alone(c, first) + more, s, earliest, latest);
  }

  // ---------------------------------------------------------------------
  // The factor is needed
  // ---------------------------------------------------------------------

  /** A bucket of `b` tokens that never refills. */
  function Fixed(b: nat): Limit { Limit(0.0, b as real) }

  type State = System<real, Bucket, Verdict>

  lemma TakesFirst(b: nat)
    requires b > 0
    ensures TakeToken(None, Fixed(b), 0.0) == (Bucket(b as real - 1.0, 0.0), Allowed)
  {}

  lemma TakesNext(b: nat, t: real)
    requires 1.0 <= t <= b as real
    ensures TakeToken(Some(Bucket(t, 0.0)), Fixed(b), 0.0) == (Bucket(t - 1.0, 0.0), Allowed)
  {}

  /** Calls `j` to `k - 1` have found no row and are about to write. */
  function Racers(j: nat, k: nat): (calls: map<nat, Phase<real, Bucket>>)
    ensures forall c :: c in calls <==> j <= c < k
    ensures forall c | c in calls :: calls[c] == Writing(0.0, 0, 0, None, 0)
    decreases k
  {
    if k <= j then map[] else Racers(j, k - 1)[k - 1 := Writing(0.0, 0, 0, None, 0)]
  }

  lemma {:induction false} RacersRead(b: nat, k: nat) returns (labels: seq<Label<real>>)
    ensures RunFrom(TakeShared(Fixed(b)), Init(), labels) == Some(System(None, 0, Racers(0, k), []))
    decreases k
  {
    if k == 0 {
      labels := [];
      assert Racers(0, 0) == map[];
    } else {
      labels := RacersRead(b, k - 1);
      var take, s: State := TakeShared(Fixed(b)), System(None, 0, Racers(0, k - 1), []);
      RunFromSnoc(take, Init(), labels, s, Begin(k - 1, 0.0));
      var s1 := Apply(take, s, Begin(k - 1, 0.0));
      RunFromSnoc(take, Init(), labels + [Begin(k - 1, 0.0)], s1, Read(k - 1));
      labels := labels + [Begin(k - 1, 0.0)] + [Read(k - 1)];
      assert Apply(take, s1, Read(k - 1)).calls == Racers(0, k);
    }
  }

  /** The bucket holds `t` tokens, and `granted` have been given from `created` buckets. */
  ghost predicate Stage(s: State, j: nat, k: nat, t: real, granted: nat, created: nat) {
    && s.calls == Racers(j, k) && Grants(s.log) == granted && Creations(s.log) == created
    && (created > 0 ==> s.row.Some? && s.row.value.value == Bucket(t, 0.0))
    && (forall i | 0 <= i < |s.log| :: s.log[i].Committed? && s.log[i].op == 0.0)
  }

  lemma GrantsSnoc(log: Log, e: Event<real, Verdict>)
    ensures Grants(log + [e]) == Grants(log) + (if e.Committed? && e.result.Allowed? then 1 else 0)
  {
    assert (log + [e])[..|log|] == log;
  }

  /** Racer `j` replaces whatever is stored by a full bucket less its own token. */
  lemma RacerWrites(b: nat, labels: seq<Label<real>>, s: State, j: nat, k: nat, t: real, granted: nat)
      returns (s': State)
    requires b > 0 && j < k && RunFrom(TakeShared(Fixed(b)), Init(), labels) == Some(s) && Stage(s, j, k, t, granted, j)
    ensures RunFrom(TakeShared(Fixed(b)), Init(), labels + [Write(j)]) == Some(s')
    ensures Stage(s', j + 1, k, b as real - 1.0, granted + 1, j + 1)
  {
    var take := TakeShared(Fixed(b));
    RunFromSnoc(take, Init(), labels, s, Write(j));
    TakesFirst(b);
    s' := Apply(take, s, Write(j));
    var e := Committed(j, 0.0, true, Allowed);
    assert s'.log == s.log + [e] && s'.calls == Racers(j + 1, k);
    GrantsSnoc(s.log, e);
    CreationsSnoc(s.log, e);
  }

  /** A new call takes one of the tokens left. */
  lemma TakesOne(b: nat, labels: seq<Label<real>>, s: State, j: nat, k: nat, t: real, granted: nat)
      returns (more: seq<Label<real>>, s': State)
    requires 1.0 <= t <= b as real && j > 0
    requires RunFrom(TakeShared(Fixed(b)), Init(), labels) == Some(s) && Stage(s, j, k, t, granted, j)
    ensures RunFrom(TakeShared(Fixed(b)), Init(), more) == Some(s') && Stage(s', j, k, t - 1.0, granted + 1, j)
  {
    var take := TakeShared(Fixed(b));
    var c, s2 := NewCallReads(take, Init(), labels, s, 0.0);
    var read := labels + [Begin(c, 0.0)] + [Read(c)];
    RunFromSnoc(take, Init(), read, s2, Write(c));
    TakesNext(b, t);
    more, s' := read + [Write(c)], Apply(take, s2, Write(c));
    var e := Committed(c, 0.0, false, Allowed);
    assert s'.log == s.log + [e] && s'.calls == s.calls;
    GrantsSnoc(s.log, e);
    CreationsSnoc(s.log, e);
  }

  lemma {:induction false} TakesAll(b: nat, n: nat, labels: seq<Label<real>>, s: State, j: nat, k: nat, granted: nat)
      returns (more: seq<Label<real>>, s': State)
    requires n <= b && j > 0
    requires RunFrom(TakeShared(Fixed(b)), Init(), labels) == Some(s) && Stage(s, j, k, n as real, granted, j)
    ensures RunFrom(TakeShared(Fixed(b)), Init(), more) == Some(s') && Stage(s', j, k, 0.0, granted + n, j)
    decreases n
  {
    if n == 0 {
      more, s' := labels, s;
    } else {
      more, s' := TakesOne(b, labels, s, j, k, n as real, granted);
      more, s' := TakesAll(b, n - 1, more, s', j, k, granted + 1);
    }
  }

  lemma OneMoreBurst(j: nat, b: nat)
    requires j > 0
    ensures (j - 1) * b + b == j * b
  {}

  /** After `j` of the `k` racers have created their buckets and each has been emptied. */
  lemma {:induction false} RaceStage(b: nat, k: nat, j: nat) returns (labels: seq<Label<real>>, s: State)
    requires b > 0 && j <= k
    ensures RunFrom(TakeShared(Fixed(b)), Init(), labels) == Some(s) && Stage(s, j, k, 0.0, j * b, j)
    decreases j
  {
    if j == 0 {
      labels := RacersRead(b, k);
      s := System(None, 0, Racers(0, k), []);
    } else {
      labels, s := RaceStage(b, k, j - 1);
      var granted := (j - 1) * b;
      s := RacerWrites(b, labels, s, j - 1, k, 0.0, granted);
      labels, s := TakesAll(b, b - 1, labels + [Write(j - 1)], s, j, k, granted + 1);
      OneMoreBurst(j, b);
    }
  }

  /**
   The factor is needed for every number of creations and every burst: `k` replicas
   that all find the row absent are granted `k` bursts, at one moment, of a bucket that
   grants one burst and never refills. No smaller bound than `CrossReplicaBound` holds.
   */
  lemma CreationRace(k: nat, b: nat) returns (labels: seq<Label<real>>, s: State)
    requires b > 0
    ensures Run(TakeShared(Fixed(b)), labels) == Some(s) && Within(s.log, 0.0, 0.0)
    ensures Creations(s.log) == k && Grants(s.log) == k * b
    ensures PerCreation(Fixed(b), 0.0, 0.0) == b as real
  {
    labels, s := RaceStage(b, k, k);
    RunGoesOn(TakeShared(Fixed(b)), [], labels, Init());
    assert [] + labels == labels;
  }
}
