/**
 The circuit breaker twice over: the in-process class, whose fields change in
 place (even in its `state` getter), and the pure transitions that replicas run
 on a shared table row. The clock is a parameter of every call.
 */
module CircuitBreaker {
  import opened Prelude
  import opened SharedTable
  import opened RowCreation

  datatype Config = Config(failureThreshold: int, successThreshold: int, timeoutSecs: real, halfOpenMaxRequests: int)
  datatype State = Closed | Open | HalfOpen
  datatype Record = Record(state: State, failures: int, successes: int, openedAt: real, halfOpenRequests: int)

  datatype Op = CanExecute | Success | Failure | RetryAfter
  datatype Call = Call(op: Op, now: real)
  datatype Answer = Permit(allowed: bool) | Noted | Wait(seconds: int)

  const FRESH := Record(Closed, 0, 0, 0.0, 0)

  predicate TimedOut(config: Config, openedAt: real, now: real) { (now - openedAt) / 1000.0 >= config.timeoutSecs }

  // ---------------------------------------------------------------------
  // The in-process class
  // ---------------------------------------------------------------------

  /** The class as a transition on its fields. */
  function ClassStep(config: Config, r: Record, call: Call): (Record, Answer) {
    match call.op
    case CanExecute =>
      var moved := ClassState(config, r, call.now);
      if moved.state.Open? then (moved, Permit(false))
      else if moved.state.Closed? then (moved, Permit(true))
      else if moved.halfOpenRequests >= config.halfOpenMaxRequests then (moved, Permit(false))
      else (moved.(halfOpenRequests := moved.halfOpenRequests + 1), Permit(true))
    case Success =>
      if !r.state.HalfOpen? then (r.(failures := 0), Noted)
      else if r.successes + 1 >= config.successThreshold
        then (r.(state := Closed, failures := 0, successes := 0), Noted)
      else (r.(successes := r.successes + 1), Noted)
    case Failure =>
      if r.state.HalfOpen? || r.failures + 1 >= config.failureThreshold then (Record(Open, 0, 0, call.now, 0), Noted)
      else (r.(failures := r.failures + 1), Noted)
    case RetryAfter =>
      (r, Wait(if r.state.Open? then RetryAfterOpen(config, r.openedAt, call.now) else 0))
  }

  function ClassState(config: Config, r: Record, now: real): Record {
    if r.state.Open? && TimedOut(config, r.openedAt, now)
      then r.(state := HalfOpen, halfOpenRequests := 0, successes := 0)
    else r
  }

  function RetryAfterOpen(config: Config, openedAt: real, now: real): int {
    MaxInt(0, Ceil(config.timeoutSecs - (now - openedAt) / 1000.0))
  }

  class CircuitBreaker {
    const config: Config
    var state_: State
    var failures: int
    var successes: int
    var openedAt: real
    var halfOpenRequests: int

    function View(): Record reads this { Record(state_, failures, successes, openedAt, halfOpenRequests) }

    constructor (config: Config)
      ensures this.config == config && View() == FRESH
    {
      this.config := config;
      state_, failures, successes, openedAt, halfOpenRequests := Closed, 0, 0, 0.0, 0;
    }

    method GetState(now: real) returns (state: State)
      modifies this
      ensures View() == ClassState(config, old(View()), now) && state == state_
    {
      if state_ == Open && TimedOut(config, openedAt, now) {
        state_ := HalfOpen;
        halfOpenRequests := 0;
        successes := 0;
      }
      state := state_;
    }

    method RetryAfterSeconds(now: real) returns (seconds: int)
      ensures (View(), Wait(seconds)) == ClassStep(config, View(), Call(RetryAfter, now))
    {
      if state_ != Open {
        return 0;
      }
      var elapsed := (now - openedAt) / 1000.0;
      seconds := MaxInt(0, Ceil(config.timeoutSecs - elapsed));
    }

    method CanExecute(now: real) returns (allowed: bool)
      modifies this
      ensures (View(), Permit(allowed)) == ClassStep(config, old(View()), Call(Op.CanExecute, now))
    {
      var current := GetState(now);
      if current == Open {
        return false;
      }
      if current == HalfOpen && halfOpenRequests >= config.halfOpenMaxRequests {
        return false;
      }
      if current == HalfOpen {
        halfOpenRequests := halfOpenRequests + 1;
      }
      allowed := true;
    }

    method RecordSuccess(ghost now: real)
      modifies this
      ensures View() == ClassStep(config, old(View()), Call(Success, now)).0
    {
      if state_ == HalfOpen {
        successes := successes + 1;
        if successes >= config.successThreshold {
          state_ := Closed;
          failures := 0;
          successes := 0;
        }
      } else {
        failures := 0;
      }
    }

    method RecordFailure(now: real)
      modifies this
      ensures View() == ClassStep(config, old(View()), Call(Failure, now)).0
    {
      if state_ == HalfOpen {
        Trip(now);
        return;
      }
      failures := failures + 1;
      if failures >= config.failureThreshold {
        Trip(now);
      }
    }

    method Trip(now: real)
      modifies this
      ensures View() == Record(Open, 0, 0, now, 0)
    {
      state_ := Open;
      openedAt := now;
      failures := 0;
      successes := 0;
      halfOpenRequests := 0;
    }
  }

  // ---------------------------------------------------------------------
  // The shared pure transitions
  // ---------------------------------------------------------------------

  function ResolveState(record: Record, now: real, config: Config): Record {
    if record.state.Open? && (now - record.openedAt) / 1000.0 >= config.timeoutSecs
    then record.(state := HalfOpen, halfOpenRequests := 0, successes := 0)
    else record
  }

  function RecordSuccess(record: Record, config: Config): Record {
    if record.state.HalfOpen? then
      var successes := record.successes + 1;
      if successes >= config.successThreshold then Record(Closed, 0, 0, record.openedAt, record.halfOpenRequests)
      else record.(successes := successes)
    else record.(failures := 0)
  }

  function RecordFailure(record: Record, now: real, config: Config): Record {
    if record.state.HalfOpen? then Record(Open, 0, 0, now, 0)
    else
      var failures := record.failures + 1;
      if failures >= config.failureThreshold then Record(Open, 0, 0, now, 0)
      else record.(failures := failures)
  }

  function RetryAfterSeconds(record: Record, now: real, config: Config): int {
    if !record.state.Open? then 0
    else
      var elapsed := (now - record.openedAt) / 1000.0;
      MaxInt(0, Ceil(config.timeoutSecs - elapsed))
  }

  function RecordFromEntity(entity: Option<Record>): Record { if entity.Some? then entity.value else FRESH }

  /** One breaker method of the shared store, on the row it read. */
  function SharedMethod(config: Config, call: Call, current: Option<Record>): Computed<Record, Answer> {
    var record := RecordFromEntity(current);
    match call.op
    case CanExecute =>
      var resolved := ResolveState(record, call.now, config);
      if resolved.state.Open? then Computed(None, Permit(false))
      else if resolved.state.HalfOpen? && resolved.halfOpenRequests >= config.halfOpenMaxRequests
      then Computed(None, Permit(false))
      else Computed(Some(resolved.(halfOpenRequests := resolved.halfOpenRequests + 1)), Permit(true))
    case Success => Computed(Some(RecordSuccess(record, config)), Noted)
    case Failure => Computed(Some(RecordFailure(record, call.now, config)), Noted)
    case RetryAfter => Computed(None, Wait(RetryAfterSeconds(record, call.now, config)))
  }

  /** ... as the `compute` argument of the read-modify-write loop. */
  function ComputeShared(config: Config): (Call, Option<Record>) -> Computed<Record, Answer> {
    (call: Call, current: Option<Record>) => SharedMethod(config, call, current)
  }

  function SharedStep(config: Config, row: Option<Record>, call: Call): (Option<Record>, Answer) {
    var computed := SharedMethod(config, call, row);
    (if computed.write.Some? then computed.write else row, computed.result)
  }

  // ---------------------------------------------------------------------
  // Refinement
  // ---------------------------------------------------------------------

  function ClassAfter(config: Config, r: Record, calls: seq<Call>): Record
    decreases |calls|
  {
    if calls == [] then r else ClassStep(config, ClassAfter(config, r, calls[..|calls|-1]), calls[|calls|-1]).0
  }

  function SharedAfter(config: Config, row: Option<Record>, calls: seq<Call>): Option<Record>
    decreases |calls|
  {
    if calls == [] then row else SharedStep(config, SharedAfter(config, row, calls[..|calls|-1]), calls[|calls|-1]).0
  }

  /** The answer to `call` when it follows `calls` on a new breaker. */
  function ClassAnswer(config: Config, calls: seq<Call>, call: Call): Answer {
    ClassStep(config, ClassAfter(config, FRESH, calls), call).1
  }

  function SharedAnswer(config: Config, calls: seq<Call>, call: Call): Answer {
    SharedStep(config, SharedAfter(config, None, calls), call).1
  }

  /** `halfOpenRequests` is only compared where it is read. */
  ghost predicate Related(r: Record, row: Option<Record>) {
    var s := RecordFromEntity(row);
    && r.state == s.state && r.failures == s.failures && r.successes == s.successes && r.openedAt == s.openedAt
    && (r.state.HalfOpen? ==> r.halfOpenRequests == s.halfOpenRequests)
  }

  lemma StepRefines(config: Config, r: Record, row: Option<Record>, call: Call)
    requires config.halfOpenMaxRequests >= 1 && Related(r, row)
    ensures Related(ClassStep(config, r, call).0, SharedStep(config, row, call).0)
    ensures ClassStep(config, r, call).1 == SharedStep(config, row, call).1
  {}

  lemma {:induction false} AfterRefines(config: Config, calls: seq<Call>)
    requires config.halfOpenMaxRequests >= 1
    ensures Related(ClassAfter(config, FRESH, calls), SharedAfter(config, None, calls))
    decreases |calls|
  {
    if calls != [] {
      AfterRefines(config, calls[..|calls|-1]);
      StepRefines(config, ClassAfter(config, FRESH, calls[..|calls|-1]), SharedAfter(config, None, calls[..|calls|-1]),
                  calls[|calls|-1]);
    }
  }

  function Repeat(call: Call, n: nat): (calls: seq<Call>)
    ensures |calls| == n && forall c | c in calls :: c == call
  {
    if n == 0 then [] else Repeat(call, n - 1) + [call]
  }

  lemma AfterSnoc(config: Config, calls: seq<Call>, call: Call)
    ensures ClassAfter(config, FRESH, calls + [call]) == ClassStep(config, ClassAfter(config, FRESH, calls), call).0
    ensures SharedAfter(config, None, calls + [call]) == SharedStep(config, SharedAfter(config, None, calls), call).0
  {
    assert (calls + [call])[..|calls|] == calls;
  }

  lemma FailureBoth(config: Config, r: Record, row: Option<Record>)
    requires r.state.Closed? && RecordFromEntity(row) == r
    ensures
      var r' := if r.failures + 1 >= config.failureThreshold then Record(Open, 0, 0, 0.0, 0)
        else r.(failures := r.failures + 1);
      && ClassStep(config, r, Call(Failure, 0.0)).0 == r'
      && RecordFromEntity(SharedStep(config, row, Call(Failure, 0.0)).0) == r'
  {}

  lemma {:induction false} TripBoth(config: Config, n: nat)
    requires n <= MaxInt(1, config.failureThreshold)
    ensures
      var calls := Repeat(Call(Failure, 0.0), n);
      var r := if n == MaxInt(1, config.failureThreshold) then Record(Open, 0, 0, 0.0, 0) else FRESH.(failures := n);
      && ClassAfter(config, FRESH, calls) == r
      && RecordFromEntity(SharedAfter(config, None, calls)) == r
    decreases n
  {
    if n > 0 {
      var fewer := Repeat(Call(Failure, 0.0), n - 1);
      TripBoth(config, n - 1);
      AfterSnoc(config, fewer, Call(Failure, 0.0));
      FailureBoth(config, ClassAfter(config, FRESH, fewer), SharedAfter(config, None, fewer));
    }
  }

  lemma SuccessOnClass(config: Config, r: Record, now: real)
    requires r.state.HalfOpen?
    ensures
      var r' := ClassStep(config, r, Call(Success, now)).0;
      if r.successes + 1 >= config.successThreshold then r'.state.Closed?
      else r'.state.HalfOpen? && r'.successes == r.successes + 1
  {}

  lemma SuccessOnShared(config: Config, row: Option<Record>, now: real)
    requires row.Some? && row.value.state.Open? && row.value.failures == 0
    ensures SharedStep(config, row, Call(Success, now)).0 == row
  {}

  /** Successes close a half-open breaker ... */
  lemma {:induction false} SuccessesOnClass(config: Config, r: Record, now: real, n: nat)
    requires r.state.HalfOpen? && r.successes == 0 && n <= MaxInt(1, config.successThreshold)
    ensures
      var r' := ClassAfter(config, r, Repeat(Call(Success, now), n));
      if n == MaxInt(1, config.successThreshold) then r'.state.Closed? else r'.state.HalfOpen? && r'.successes == n
    decreases n
  {
    if n > 0 {
      var fewer := Repeat(Call(Success, now), n - 1);
      SuccessesOnClass(config, r, now, n - 1);
      SuccessOnClass(config, ClassAfter(config, r, fewer), now);
      assert Repeat(Call(Success, now), n)[..n-1] == fewer;
    }
  }

  /** ... and leave a tripped row as it is. */
  lemma {:induction false} SuccessesOnShared(config: Config, row: Option<Record>, now: real, n: nat)
    requires row.Some? && row.value.state.Open? && row.value.failures == 0
    ensures SharedAfter(config, row, Repeat(Call(Success, now), n)) == row
    decreases n
  {
    if n > 0 {
      SuccessesOnShared(config, row, now, n - 1);
      SuccessOnShared(config, row, now);
      assert Repeat(Call(Success, now), n)[..n-1] == Repeat(Call(Success, now), n - 1);
    }
  }

  lemma {:induction false} AfterAppend(config: Config, a: seq<Call>, b: seq<Call>)
    ensures ClassAfter(config, FRESH, a + b) == ClassAfter(config, ClassAfter(config, FRESH, a), b)
    ensures SharedAfter(config, None, a + b) == SharedAfter(config, SharedAfter(config, None, a), b)
    decreases |b|
  {
    if b == [] {
      assert a + b == a;
    } else {
      AfterAppend(config, a, b[..|b|-1]);
      assert (a + b)[..|a + b|-1] == a + b[..|b|-1];
    }
  }

  /** When no probe is ever let through, the getter's side effect tells the two apart. */
  lemma Distinguished(config: Config) returns (calls: seq<Call>, call: Call)
    requires config.halfOpenMaxRequests < 1
    ensures ClassAnswer(config, calls, call) != SharedAnswer(config, calls, call)
  {
    var t := MaxReal(0.0, config.timeoutSecs * 1000.0);
    var trip := Repeat(Call(Failure, 0.0), MaxInt(1, config.failureThreshold));
    TripBoth(config, |trip|);
    var before := trip + [Call(CanExecute, t)];
    AfterSnoc(config, trip, Call(CanExecute, t));
    assert TimedOut(config, 0.0, t);
    SharedRowExists(config, trip);
    var n := MaxInt(1, config.successThreshold);
    SuccessesOnClass(config, ClassAfter(config, FRESH, before), t, n);
    SuccessesOnShared(config, SharedAfter(config, None, before), t, n);
    AfterAppend(config, before, Repeat(Call(Success, t), n));
    calls := before + Repeat(Call(Success, t), n);
    call := Call(CanExecute, t);
  }

  lemma SharedRowExists(config: Config, calls: seq<Call>)
    requires calls != [] && calls[|calls|-1].op.Failure?
    ensures SharedAfter(config, None, calls).Some?
  {}

  /**
   The pure breaker answers every call of every sequence exactly as the class
   does, if and only if at least one half-open probe is allowed.
   */
  lemma RefinesExactlyWhenProbing(config: Config)
    ensures (forall calls, call :: ClassAnswer(config, calls, call) == SharedAnswer(config, calls, call))
       <==> config.halfOpenMaxRequests >= 1
  {
    if config.halfOpenMaxRequests >= 1 {
      forall calls, call ensures ClassAnswer(config, calls, call) == SharedAnswer(config, calls, call) {
        AfterRefines(config, calls);
        StepRefines(config, ClassAfter(config, FRESH, calls), SharedAfter(config, None, calls), call);
      }
    } else {
      var calls, call := Distinguished(config);
    }
  }

  // ---------------------------------------------------------------------
  // Replicas sharing one breaker
  // ---------------------------------------------------------------------

  function CommittedCalls(log: seq<Event<Call, Answer>>): seq<Call>
    decreases |log|
  {
    if log == [] then []
    else CommittedCalls(log[..|log|-1]) + (if log[|log|-1].Committed? then [log[|log|-1].op] else [])
  }

  /** The calls committed since the row was last created, the creating one included. */
  function CurrentCalls(log: seq<Event<Call, Answer>>): seq<Call>
    decreases |log|
  {
    if log == [] then []
    else
      match log[|log|-1]
      case Committed(_, op, fromAbsent, _) => (if fromAbsent then [] else CurrentCalls(log[..|log|-1])) + [op]
      case _ => CurrentCalls(log[..|log|-1])
  }

  lemma {:induction false} FoldIsSharedRun(config: Config, log: seq<Event<Call, Answer>>, n: nat)
    requires n <= |log| && forall i | 0 <= i < |log| :: Explained(ComputeShared(config), log, i)
    ensures Fold(ComputeShared(config), log[..n]) == SharedAfter(config, None, CurrentCalls(log[..n]))
    decreases n
  {
    if n > 0 {
      FoldIsSharedRun(config, log, n - 1);
      assert log[..n][..n-1] == log[..n-1];
      assert Explained(ComputeShared(config), log, n - 1);
      var calls := CurrentCalls(log[..n]);
      if log[n-1].Committed? {
        var before := if log[n-1].fromAbsent then [] else CurrentCalls(log[..n-1]);
        assert calls == before + [log[n-1].op] && calls[..|calls|-1] == before;
      } else {
        assert calls == CurrentCalls(log[..n-1]);
      }
    }
  }

  /**
   Any number of replicas sharing the row are one breaker that starts over whenever
   the row is created: every answer that reached a caller is the answer a single
   in-process breaker gives after the calls committed since the last creation before
   it -- before the commit for a call that wrote, before the read, made after the call
   began, for one that did not. A call that found no row is answered by a new breaker.
   */
  lemma {:induction false} ReplicasAreOneBreaker(
      config: Config, labels: seq<Label<Call>>, s: System<Call, Record, Answer>, i: nat)
    requires config.halfOpenMaxRequests >= 1
    requires Run(ComputeShared(config), labels) == Some(s)
    requires i < |s.log|
    ensures s.log[i].Committed? ==>
      s.log[i].result
      == ClassAnswer(config, if s.log[i].fromAbsent then [] else CurrentCalls(s.log[..i]), s.log[i].op)
    ensures s.log[i].ReturnedUnwritten? ==>
      && s.log[i].startedAt <= s.log[i].readAt <= i
      && s.log[i].result == ClassAnswer(config, CurrentCalls(s.log[..s.log[i].readAt]), s.log[i].op)
  {
    Linearizable(ComputeShared(config), labels, s);
    assert Explained(ComputeShared(config), s.log, i);
    if s.log[i].Committed? || s.log[i].ReturnedUnwritten? {
      var n := if s.log[i].Committed? then i else s.log[i].readAt;
      FoldIsSharedRun(config, s.log, n);
      RefinesExactlyWhenProbing(config);
      var calls := if s.log[i].Committed? && s.log[i].fromAbsent then [] else CurrentCalls(s.log[..n]);
      assert ClassAnswer(config, calls, s.log[i].op) == SharedAnswer(config, calls, s.log[i].op);
    }
  }

  /** Any failure or success creates the row where there is none. */
  lemma FailureCreates(config: Config, now: real)
    ensures Creates(ComputeShared(config), Call(Failure, now))
  {}

  /**
   When the shared breaker can start over: from any state some continuation makes it,
   unless the row is stored and no call in progress is about to create it.
   */
  lemma StartsOverExactlyWhen(config: Config, s: System<Call, Record, Answer>)
    ensures NeverOverwrites(ComputeShared(config), s) <==> Settled(ComputeShared(config), s)
  {
    FailureCreates(config, 0.0);
    NeverOverwritesExactlyWhen(ComputeShared(config), s, Call(Failure, 0.0));
  }

  /** With one creation in the whole log, at its start, all committed calls are current. */
  lemma {:induction false} CurrentAreCommitted(log: seq<Event<Call, Answer>>, n: nat)
    requires n <= |log| && Creations(log) == 1 && log[0].Committed? && log[0].fromAbsent
    ensures CurrentCalls(log[..n]) == CommittedCalls(log[..n])
    decreases n
  {
    if n > 0 {
      CurrentAreCommitted(log, n - 1);
      assert log[..n][..n-1] == log[..n-1];
      if n > 1 { NoSecondCreation(log, n - 1); }
    }
  }

  lemma NoSecondCreation(log: seq<Event<Call, Answer>>, i: nat)
    requires 0 < i < |log| && Creations(log) == 1 && log[0].Committed? && log[0].fromAbsent
    ensures !(log[i].Committed? && log[i].fromAbsent)
  {
    CreationsOfPrefix(log, i + 1);
    CreationsOfPrefix(log[..i], 1);
    assert log[..i+1] == log[..i] + [log[i]] && log[..i][..1] == [] + [log[0]];
    CreationsSnoc(log[..i], log[i]);
    CreationsSnoc([], log[0]);
  }

  /**
   Where one call has created the row before any other began, the replicas are one
   breaker for ever: every answer is the one after all calls committed before it.
   */
  lemma {:induction false} OneBreakerOnceCreated(
      config: Config, c: nat, first: Call, more: seq<Label<Call>>, s: System<Call, Record, Answer>, i: nat)
    requires config.halfOpenMaxRequests >= 1 && Creates(ComputeShared(config), first)
    requires Run(ComputeShared(config), Alone(c, first) + more) == Some(s) && i < |s.log|
    ensures Creations(s.log) == 1
    ensures s.log[i].Committed? ==> s.log[i].result == ClassAnswer(config, CommittedCalls(s.log[..i]), s.log[i].op)
    ensures s.log[i].ReturnedUnwritten? ==>
      && s.log[i].startedAt <= s.log[i].readAt <= i
      && s.log[i].result == ClassAnswer(config, CommittedCalls(s.log[..s.log[i].readAt]), s.log[i].op)
  {
    CreatedOnce(ComputeShared(config), c, first, more, s);
    ReplicasAreOneBreaker(config, Alone(c, first) + more, s, i);
    if i > 0 { NoSecondCreation(s.log, i); }
    if s.log[i].Committed? { CurrentAreCommitted(s.log, i); }
    if s.log[i].ReturnedUnwritten? { CurrentAreCommitted(s.log, s.log[i].readAt); }
  }

  // ---------------------------------------------------------------------
  // Open and half-open episodes
  // ---------------------------------------------------------------------

  /** Calls let through when `calls` are made of a breaker in state `r`. */
  function Grants(config: Config, r: Record, calls: seq<Call>): nat
    decreases |calls|
  {
    if calls == [] then 0
    else
      var (next, answer) := ClassStep(config, r, calls[0]);
      (if answer == Permit(true) then 1 else 0) + Grants(config, next, calls[1..])
  }

  /** Every call comes before the timeout of whatever trip is then the latest. */
  ghost predicate BeforeTimeout(config: Config, r: Record, calls: seq<Call>)
    decreases |calls|
  {
    calls == [] ||
    (!TimedOut(config, r.openedAt, calls[0].now) && BeforeTimeout(config, ClassStep(config, r, calls[0]).0, calls[1..]))
  }

  lemma {:induction false} OpenGrantsNothing(config: Config, r: Record, calls: seq<Call>)
    requires r.state.Open? && BeforeTimeout(config, r, calls)
    ensures Grants(config, r, calls) == 0
    decreases |calls|
  {
    if calls != [] { OpenGrantsNothing(config, ClassStep(config, r, calls[0]).0, calls[1..]); }
  }

  /** The breaker is half-open after each of the calls. */
  ghost predicate Episode(config: Config, r: Record, calls: seq<Call>)
    decreases |calls|
  {
    calls == [] ||
    (ClassStep(config, r, calls[0]).0.state.HalfOpen? && Episode(config, ClassStep(config, r, calls[0]).0, calls[1..]))
  }

  lemma {:induction false} EpisodeRemainder(config: Config, r: Record, calls: seq<Call>)
    requires r.state.HalfOpen? && Episode(config, r, calls)
    ensures Grants(config, r, calls) <= MaxInt(0, config.halfOpenMaxRequests - r.halfOpenRequests)
    decreases |calls|
  {
    if calls != [] { EpisodeRemainder(config, ClassStep(config, r, calls[0]).0, calls[1..]); }
  }

  /** From the call that finds the timeout elapsed, an episode lets at most the probe budget through. */
  lemma EpisodeBudget(config: Config, r: Record, calls: seq<Call>)
    requires r.state.Open? && Episode(config, r, calls)
    ensures Grants(config, r, calls) <= MaxInt(0, config.halfOpenMaxRequests)
  {
    if calls != [] { EpisodeRemainder(config, ClassStep(config, r, calls[0]).0, calls[1..]); }
  }

  /** Every success reported belongs to an earlier grant not yet reported on; no failure is reported. */
  ghost predicate Matched(config: Config, r: Record, calls: seq<Call>, outstanding: nat)
    decreases |calls|
  {
    calls == [] ||
    (var (next, answer) := ClassStep(config, r, calls[0]);
     match calls[0].op
     case Failure => false
     case Success => outstanding > 0 && Matched(config, next, calls[1..], outstanding - 1)
     case _ => Matched(config, next, calls[1..], outstanding + (if answer == Permit(true) then 1 else 0)))
  }

  /** The calls, all of whose probes succeed, bring a breaker that has just tripped back to closed. */
  ghost predicate Recovers(config: Config, calls: seq<Call>) {
    var tripped := Record(Open, 0, 0, 0.0, 0);
    Matched(config, tripped, calls, 0) && ClosesDuring(config, tripped, calls)
  }

  ghost predicate ClosesDuring(config: Config, r: Record, calls: seq<Call>)
    decreases |calls|
  {
    r.state.Closed? || (calls != [] && ClosesDuring(config, ClassStep(config, r, calls[0]).0, calls[1..]))
  }

  /** With more successes required than probes allowed, all-success traffic wedges the breaker half-open. */
  lemma {:induction false} Wedged(config: Config, r: Record, calls: seq<Call>, outstanding: nat)
    requires config.successThreshold > config.halfOpenMaxRequests || config.halfOpenMaxRequests < 1
    requires !r.state.Closed?
    requires r.state.Open? ==> outstanding == 0
    requires r.state.HalfOpen? ==>
      0 <= r.successes && r.successes + outstanding <= r.halfOpenRequests <= MaxInt(0, config.halfOpenMaxRequests)
    requires Matched(config, r, calls, outstanding)
    ensures !ClosesDuring(config, r, calls)
    ensures Grants(config, r, calls)
         <= MaxInt(0, config.halfOpenMaxRequests) - (if r.state.HalfOpen? then r.halfOpenRequests else 0)
    decreases |calls|
  {
    if calls != [] {
      var (next, answer) := ClassStep(config, r, calls[0]);
      var rest := calls[1..];
      if calls[0].op.Success? {
        Wedged(config, next, rest, outstanding - 1);
      } else {
        Wedged(config, next, rest, outstanding + (if answer == Permit(true) then 1 else 0));
      }
    }
  }

  /** One probe and its success, over and over, until the breaker closes. */
  function Probes(now: real, n: nat): seq<Call> {
    if n == 0 then [] else [Call(CanExecute, now), Call(Success, now)] + Probes(now, n - 1)
  }

  lemma {:induction false} ProbesClose(config: Config, r: Record, now: real, n: nat)
    requires r.state.HalfOpen? && r.successes >= 0 && n >= 1
    requires r.successes + n == MaxInt(1, config.successThreshold)
    requires r.halfOpenRequests + n <= config.halfOpenMaxRequests
    ensures Matched(config, r, Probes(now, n), 0) && ClosesDuring(config, r, Probes(now, n))
    decreases n
  {
    var calls := Probes(now, n);
    var r1 := ClassStep(config, r, calls[0]).0;
    var r2 := ClassStep(config, r1, calls[1]).0;
    assert calls[1..][0] == calls[1] && calls[1..][1..] == Probes(now, n - 1);
    if n > 1 {
      ProbesClose(config, r2, now, n - 1);
    } else {
      assert r2.state.Closed?;
      assert ClosesDuring(config, r2, calls[1..][1..]);
    }
    assert ClosesDuring(config, r1, calls[1..]);
    assert Matched(config, r1, calls[1..], 1);
  }

  /**
   A tripped breaker whose every probe succeeds can close if and only if the
   successes it asks for fit in the probes one episode allows.
   */
  lemma RecoversExactlyWhen(config: Config)
    ensures (exists calls :: Recovers(config, calls))
       <==> 1 <= config.halfOpenMaxRequests && config.successThreshold <= config.halfOpenMaxRequests
  {
    var tripped := Record(Open, 0, 0, 0.0, 0);
    if 1 <= config.halfOpenMaxRequests && config.successThreshold <= config.halfOpenMaxRequests {
      var now := MaxReal(0.0, config.timeoutSecs * 1000.0);
      assert TimedOut(config, 0.0, now);
      var n := MaxInt(1, config.successThreshold);
      var halfOpen := Record(HalfOpen, 0, 0, 0.0, 0);
      ProbesClose(config, halfOpen, now, n);
      var calls := Probes(now, n);
      assert ClassStep(config, tripped, calls[0]) == ClassStep(config, halfOpen, calls[0]);
      assert Recovers(config, calls);
    } else {
      forall calls ensures !Recovers(config, calls) {
        if Matched(config, tripped, calls, 0) { Wedged(config, tripped, calls, 0); }
      }
    }
  }

  const DEFAULT_CONFIG := Config(5, 3, 30.0, 1)

  /** The toolshed's default asks for three successes of one probe: it never recovers on success alone. */
  lemma DefaultNeverRecovers(calls: seq<Call>)
    requires Matched(DEFAULT_CONFIG, Record(Open, 0, 0, 0.0, 0), calls, 0)
    ensures !ClosesDuring(DEFAULT_CONFIG, Record(Open, 0, 0, 0.0, 0), calls)
    ensures Grants(DEFAULT_CONFIG, Record(Open, 0, 0, 0.0, 0), calls) <= 1
  {
    Wedged(DEFAULT_CONFIG, Record(Open, 0, 0, 0.0, 0), calls, 0);
  }
}
