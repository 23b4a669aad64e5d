/**
 Cost control: the per-item ledger, the daily budget, and the consume loop that
 the budget pauses. Dollars are reals; days are UTC day numbers.
 */
module CostControl {
  import opened Prelude

  // ---------------------------------------------------------------------
  // The item ledger
  // ---------------------------------------------------------------------

  datatype Charged = Fine | Warning | Exceeded

  /** A missing cap is unbounded. */
  predicate Reached(cap: Option<real>, spent: real) { cap.Some? && spent >= cap.value }

  class ItemCostLedger {
    const cap: Option<real>
    const warnAt: Option<real>
    var spent: real

    constructor (maxCostUsd: Option<real>, warnAtPct: Option<real>)
      ensures cap == maxCostUsd && spent == 0.0
      ensures warnAt == if maxCostUsd.Some? && warnAtPct.Some? then Some(warnAtPct.value / 100.0 * maxCostUsd.value)
        else None
    {
      cap := maxCostUsd;
      warnAt := if maxCostUsd.Some? && warnAtPct.Some? then Some(warnAtPct.value / 100.0 * maxCostUsd.value) else None;
      spent := 0.0;
    }

    predicate IsExhausted()
      reads this
    {
      Reached(cap, spent)
    }

    method Record(cost: real) returns (r: Charged)
      modifies this`spent
      ensures spent == old(spent) + cost
      ensures r.Exceeded? <==> Reached(cap, spent)
      ensures r.Warning? <==> !Reached(cap, spent) && warnAt.Some? && spent >= warnAt.value
    {
      spent := spent + cost;
      if IsExhausted() {
        return Exceeded;
      }
      if warnAt.Some? && spent >= warnAt.value {
        return Warning;
      }
      r := Fine;
    }
  }

  // ---------------------------------------------------------------------
  // The daily budget
  // ---------------------------------------------------------------------

  const MS_PER_DAY := 24 * 60 * 60 * 1000

  /** The UTC day of a time in milliseconds. */
  function DayOf(ms: int): int { ms / MS_PER_DAY }

  lemma DaysFollowTime(a: int, b: int)
    requires a <= b
    ensures DayOf(a) <= DayOf(b)
  {}

  datatype Day = Day(key: int, spent: real)

  function Rollover(d: Day, now: int): Day { if DayOf(now) != d.key then Day(DayOf(now), 0.0) else d }

  class DailyBudget {
    const maxCostUsd: real
    var dayKey: int
    var spent: real

    function State(): Day
      reads this
    {
      Day(dayKey, spent)
    }

    constructor (maxCostUsd: real, now: int)
      ensures this.maxCostUsd == maxCostUsd && State() == Day(DayOf(now), 0.0)
    {
      this.maxCostUsd, dayKey, spent := maxCostUsd, DayOf(now), 0.0;
    }

    method RollOver(now: int)
      modifies this
      ensures State() == Rollover(old(State()), now)
    {
      var key := DayOf(now);
      if key != dayKey {
        dayKey := key;
        spent := 0.0;
      }
    }

    method IsExhausted(now: int) returns (exhausted: bool)
      modifies this
      ensures State() == Rollover(old(State()), now)
      ensures exhausted <==> State().spent >= maxCostUsd
    {
      RollOver(now);
      exhausted := spent >= maxCostUsd;
    }

    method Record(cost: real, now: int)
      modifies this
      ensures State() == Rollover(old(State()), now).(spent := Rollover(old(State()), now).spent + cost)
    {
      RollOver(now);
      spent := spent + cost;
    }
  }

  // ---------------------------------------------------------------------
  // The consume loop
  // ---------------------------------------------------------------------

  datatype Status = Exhausted | Resumed

  /** The audit entry's id is its day and status. */
  datatype Entry = Entry(day: int, status: Status, spent: real)

  datatype Charge = Charge(at: int, cost: real)

  /**
   One turn of the loop: when the budget is polled, and the message processed, if one is
   there, with what it charges.
   */
  datatype Turn = Turn(polledAt: int, received: bool, charge: Option<Charge>)

  datatype Consumer = Consumer(budget: Day, exhausted: bool, processed: nat, audit: seq<Entry>)

  function TakeTurn(cap: real, c: Consumer, t: Turn): Consumer {
    var budget := Rollover(c.budget, t.polledAt);
    var exhausted := budget.spent >= cap;
    var audit := if exhausted != c.exhausted
                 then c.audit + [Entry(budget.key, if exhausted then Exhausted else Resumed, budget.spent)]
                   else c.audit;
    if exhausted || !t.received then Consumer(budget, exhausted, c.processed, audit)
    else if t.charge.None? then Consumer(budget, exhausted, c.processed + 1, audit)
    else
      var charged := Rollover(budget, t.charge.value.at);
      Consumer(charged.(spent := charged.spent + t.charge.value.cost), exhausted, c.processed + 1, audit)
  }

  function Consume(cap: real, startedAt: int, turns: seq<Turn>): Consumer
    decreases |turns|
  {
    if turns == [] then Consumer(Day(DayOf(startedAt), 0.0), false, 0, [])
    else TakeTurn(cap, Consume(cap, startedAt, turns[..|turns|-1]), turns[|turns|-1])
  }

  /** Runs until the abort signal, here after `turns`. */
  method ConsumeQueue(budget: DailyBudget, startedAt: int, turns: seq<Turn>) returns (processed: nat, audit: seq<Entry>)
    requires budget.State() == Day(DayOf(startedAt), 0.0)
    modifies budget
    ensures
      var c := Consume(budget.maxCostUsd, startedAt, turns);
      budget.State() == c.budget && processed == c.processed && audit == c.audit
  {
    processed, audit := 0, [];
    var budgetExhausted := false;
    var i := 0;
    while i < |turns|
      invariant 0 <= i <= |turns|
      invariant Consumer(budget.State(), budgetExhausted, processed, audit)
        == Consume(budget.maxCostUsd, startedAt, turns[..i])
    {
      var t := turns[i];
      assert turns[..i+1][..i] == turns[..i];
      i := i + 1;
      var exhausted := budget.IsExhausted(t.polledAt);
      if exhausted != budgetExhausted {
        budgetExhausted := exhausted;
        audit := audit + [Entry(budget.dayKey, if exhausted then Exhausted else Resumed, budget.spent)];
      }
      if exhausted {
        continue;
      }
      if !t.received {
        continue;
      }
      if t.charge.Some? {
        budget.Record(t.charge.value.cost, t.charge.value.at);
      }
      processed := processed + 1;
    }
    assert turns[..|turns|] == turns;
  }

  // ---------------------------------------------------------------------
  // What a day can cost
  // ---------------------------------------------------------------------

  /** The last time the loop has read the clock. */
  function LastRead(startedAt: int, turns: seq<Turn>): int {
    if turns == [] then startedAt
    else
      var t := turns[|turns|-1];
      if t.charge.Some? then t.charge.value.at else t.polledAt
  }

  /** The clock does not run backwards, no item refunds, and none costs more than `most`. */
  ghost predicate Orderly(startedAt: int, turns: seq<Turn>, most: real)
    decreases |turns|
  {
    turns == [] ||
    (var t := turns[|turns|-1];
     && Orderly(startedAt, turns[..|turns|-1], most)
     && LastRead(startedAt, turns[..|turns|-1]) <= t.polledAt
     && (t.charge.Some? ==> t.polledAt <= t.charge.value.at && 0.0 <= t.charge.value.cost <= most))
  }

  /** All that was recorded on `day`, over the whole run. */
  function SpentOn(cap: real, startedAt: int, turns: seq<Turn>, day: int): real
    decreases |turns|
  {
    if turns == [] then 0.0
    else
      var before, t := turns[..|turns|-1], turns[|turns|-1];
      var polled := Rollover(Consume(cap, startedAt, before).budget, t.polledAt);
      SpentOn(cap, startedAt, before, day)
      + (if polled.spent < cap && t.received && t.charge.Some? && DayOf(t.charge.value.at) == day
        then t.charge.value.cost else 0.0)
  }

  ghost predicate DayOk(cap: real, most: real, spent: real) { spent == 0.0 || 0.0 <= spent < cap + most }

  ghost predicate BooksOk(cap: real, startedAt: int, turns: seq<Turn>, most: real) {
    var c := Consume(cap, startedAt, turns);
    && c.budget.key <= DayOf(LastRead(startedAt, turns))
    && c.budget.spent == SpentOn(cap, startedAt, turns, c.budget.key) && c.budget.spent >= 0.0
    && (forall day | day > c.budget.key :: SpentOn(cap, startedAt, turns, day) == 0.0)
    && (forall day :: DayOk(cap, most, SpentOn(cap, startedAt, turns, day)))
  }

  lemma TurnKeepsBooks(cap: real, startedAt: int, turns: seq<Turn>, most: real)
    requires turns != [] && Orderly(startedAt, turns, most)
    requires BooksOk(cap, startedAt, turns[..|turns|-1], most)
    ensures BooksOk(cap, startedAt, turns, most)
  {
    var before, t := turns[..|turns|-1], turns[|turns|-1];
    var c := Consume(cap, startedAt, before);
    DaysFollowTime(LastRead(startedAt, before), t.polledAt);
    if t.charge.Some? { DaysFollowTime(t.polledAt, t.charge.value.at); }
    var polled := Rollover(c.budget, t.polledAt);
    assert polled.spent == SpentOn(cap, startedAt, before, polled.key);
    forall day ensures DayOk(cap, most, SpentOn(cap, startedAt, turns, day)) {
      assert DayOk(cap, most, SpentOn(cap, startedAt, before, day));
    }
  }

  /**
   On an orderly clock, whatever the loop is asked to process, the spend recorded
   on any one day -- today's or a past one, rollovers included -- is less than the
   day cap plus one item, and the ledger holds today's spend exactly.
   */
  lemma {:induction false} DaySpendIsBounded(cap: real, startedAt: int, turns: seq<Turn>, most: real)
    requires Orderly(startedAt, turns, most)
    ensures BooksOk(cap, startedAt, turns, most)
    decreases |turns|
  {
    if turns != [] {
      DaySpendIsBounded(cap, startedAt, turns[..|turns|-1], most);
      TurnKeepsBooks(cap, startedAt, turns, most);
    }
  }

  // ---------------------------------------------------------------------
  // The audit trail
  // ---------------------------------------------------------------------

  /** Pauses and resumptions alternate, and each resumption is on a later day than its pause. */
  ghost predicate TrailOk(audit: seq<Entry>) {
    && (forall i | 0 <= i < |audit| :: audit[i].status == if i % 2 == 0 then Exhausted else Resumed)
    && (forall i | 0 <= i < |audit| - 1 ::
      audit[i].day <= audit[i+1].day && (i % 2 == 0 ==> audit[i].day < audit[i+1].day))
  }

  ghost predicate TrailState(cap: real, c: Consumer) {
    && TrailOk(c.audit) && (c.exhausted <==> |c.audit| % 2 == 1)
    && (c.audit != [] ==> c.audit[|c.audit|-1].day <= c.budget.key)
    && (c.exhausted ==> c.budget.spent >= cap)
  }

  /** The entry a poll writes, if it writes one, continues the trail. */
  lemma PollKeepsTrail(cap: real, c: Consumer, polled: Day, exhausted: bool)
    requires TrailState(cap, c) && exhausted != c.exhausted
    requires c.budget.key <= polled.key && (c.budget.key == polled.key ==> polled == c.budget)
    requires exhausted <==> polled.spent >= cap
    ensures TrailOk(c.audit + [Entry(polled.key, if exhausted then Exhausted else Resumed, polled.spent)])
  {
    var audit, e := c.audit, Entry(polled.key, if exhausted then Exhausted else Resumed, polled.spent);
    var grown := audit + [e];
    forall i | 0 <= i < |grown| - 1
      ensures grown[i].day <= grown[i+1].day && (i % 2 == 0 ==> grown[i].day < grown[i+1].day) {
      if i == |audit| - 1 { assert grown[i] == audit[|audit|-1] && grown[i+1] == e; }
    }
  }

  lemma TurnKeepsTrail(cap: real, c: Consumer, t: Turn)
    requires TrailState(cap, c) && c.budget.key <= DayOf(t.polledAt)
    requires t.charge.Some? ==> t.polledAt <= t.charge.value.at
    ensures TrailState(cap, TakeTurn(cap, c, t))
  {
    var polled := Rollover(c.budget, t.polledAt);
    var exhausted := polled.spent >= cap;
    if t.charge.Some? { DaysFollowTime(t.polledAt, t.charge.value.at); }
    TurnShape(cap, c, t);
    if exhausted != c.exhausted { PollKeepsTrail(cap, c, polled, exhausted); }
  }

  lemma TurnStaysInTime(cap: real, c: Consumer, t: Turn)
    requires c.budget.key <= DayOf(t.polledAt) && (t.charge.Some? ==> t.polledAt <= t.charge.value.at)
    ensures TakeTurn(cap, c, t).budget.key <= DayOf(if t.charge.Some? then t.charge.value.at else t.polledAt)
  {}

  lemma TurnShape(cap: real, c: Consumer, t: Turn)
    ensures
      var polled := Rollover(c.budget, t.polledAt);
      var exhausted := polled.spent >= cap;
      var c' := TakeTurn(cap, c, t);
      && c'.exhausted == exhausted
      && c'.audit == (if exhausted != c.exhausted
                      then c.audit + [Entry(polled.key, if exhausted then Exhausted else Resumed, polled.spent)]
                        else c.audit)
      && c'.budget.key == (if !exhausted && t.received && t.charge.Some? then DayOf(t.charge.value.at) else polled.key)
      && (exhausted ==> c'.budget == polled)
  {}

  lemma {:induction false} TrailDays(audit: seq<Entry>, i: nat, j: nat)
    requires TrailOk(audit) && i < j < |audit|
    ensures audit[i].day <= audit[j].day
    ensures j >= i + 2 ==> audit[i].day < audit[j].day
    decreases j - i
  {
    if j > i + 1 {
      TrailDays(audit, i + 1, j);
      assert audit[i].day <= audit[i+1].day;
      if i % 2 == 1 { assert audit[i+1].day < audit[i+2].day; if j > i + 2 { TrailDays(audit, i + 2, j); } }
    }
  }

  lemma NeverTwice(audit: seq<Entry>, i: nat, j: nat)
    requires TrailOk(audit) && i < j < |audit|
    ensures !(audit[i].day == audit[j].day && audit[i].status == audit[j].status)
  {
    TrailDays(audit, i, j);
  }

  lemma {:induction false} TrailHolds(cap: real, startedAt: int, turns: seq<Turn>, most: real)
    requires Orderly(startedAt, turns, most)
    ensures
      var c := Consume(cap, startedAt, turns);
      TrailState(cap, c) && c.budget.key <= DayOf(LastRead(startedAt, turns))
    decreases |turns|
  {
    if turns != [] {
      var before, t := turns[..|turns|-1], turns[|turns|-1];
      TrailHolds(cap, startedAt, before, most);
      DaysFollowTime(LastRead(startedAt, before), t.polledAt);
      TurnKeepsTrail(cap, Consume(cap, startedAt, before), t);
      TurnStaysInTime(cap, Consume(cap, startedAt, before), t);
    }
  }

  /** On an orderly clock the audit entries alternate, starting with a pause, and no id is ever written twice. */
  lemma AuditAlternates(cap: real, startedAt: int, turns: seq<Turn>, most: real)
    requires Orderly(startedAt, turns, most)
    ensures
      var audit := Consume(cap, startedAt, turns).audit;
      && (forall i | 0 <= i < |audit| :: audit[i].status == if i % 2 == 0 then Exhausted else Resumed)
      && (forall i, j | 0 <= i < j < |audit| :: !(audit[i].day == audit[j].day && audit[i].status == audit[j].status))
  {
    TrailHolds(cap, startedAt, turns, most);
    var audit := Consume(cap, startedAt, turns).audit;
    forall i, j | 0 <= i < j < |audit| ensures !(audit[i].day == audit[j].day && audit[i].status == audit[j].status) {
      NeverTwice(audit, i, j);
    }
  }

  // ---------------------------------------------------------------------
  // Which clocks keep the audit ids apart
  // ---------------------------------------------------------------------

  datatype StepCharge = StepCharge(at: nat, cost: real)

  /** A turn by where in the clock's readings it polls and charges. */
  datatype Step = Step(poll: nat, received: bool, charge: Option<StepCharge>)

  function LastAt(steps: seq<Step>): nat {
    if steps == [] then 0
    else
      var t := steps[|steps|-1];
      if t.charge.Some? then t.charge.value.at else t.poll
  }

  /** The loop reads the clock in order, each instant as often as it likes, and nothing is refunded. */
  ghost predicate InOrder(clock: seq<int>, steps: seq<Step>)
    decreases |steps|
  {
    steps == [] ||
    (var t := steps[|steps|-1];
     && InOrder(clock, steps[..|steps|-1]) && LastAt(steps[..|steps|-1]) <= t.poll < |clock|
     && (t.charge.Some? ==> t.poll <= t.charge.value.at < |clock| && t.charge.value.cost >= 0.0))
  }

  function TurnOf(clock: seq<int>, t: Step): Turn
    requires t.poll < |clock| && (t.charge.Some? ==> t.charge.value.at < |clock|)
  {
    Turn(clock[t.poll], t.received, if t.charge.Some? then Some(Charge(clock[t.charge.value.at], t.charge.value.cost))
      else None)
  }

  ghost function Timed(cap: real, clock: seq<int>, steps: seq<Step>): Consumer
    requires clock != [] && InOrder(clock, steps)
    decreases |steps|
  {
    if steps == [] then Consume(cap, clock[0], [])
    else TakeTurn(cap, Timed(cap, clock, steps[..|steps|-1]), TurnOf(clock, steps[|steps|-1]))
  }

  ghost function TurnsOf(clock: seq<int>, steps: seq<Step>): seq<Turn>
    requires clock != [] && InOrder(clock, steps)
    decreases |steps|
  {
    if steps == [] then [] else TurnsOf(clock, steps[..|steps|-1]) + [TurnOf(clock, steps[|steps|-1])]
  }

  /** It is the loop itself, on those readings. */
  lemma {:induction false} TimedIsConsume(cap: real, clock: seq<int>, steps: seq<Step>)
    requires clock != [] && InOrder(clock, steps)
    ensures Timed(cap, clock, steps) == Consume(cap, clock[0], TurnsOf(clock, steps))
    decreases |steps|
  {
    if steps != [] {
      var before := TurnsOf(clock, steps[..|steps|-1]);
      TimedIsConsume(cap, clock, steps[..|steps|-1]);
      assert (before + [TurnOf(clock, steps[|steps|-1])])[..|before|] == before;
    }
  }

  /** Once a day has been left the clock does not come back to it. */
  ghost predicate NeverReturns(clock: seq<int>) {
    forall i, k, m | 0 <= i < k < m < |clock| && DayOf(clock[i]) == DayOf(clock[m]) ::
      DayOf(clock[k]) == DayOf(clock[i])
  }

  ghost predicate NoIdTwice(audit: seq<Entry>) {
    forall i, j | 0 <= i < j < |audit| :: !(audit[i].day == audit[j].day && audit[i].status == audit[j].status)
  }

  /** Every entry is dated by the poll `at` that wrote it, and a resumption has another day than its pause. */
  ghost predicate Dated(clock: seq<int>, audit: seq<Entry>, at: seq<nat>) {
    && |at| == |audit|
    && (forall j | 0 <= j < |at| :: at[j] < |clock| && DayOf(clock[at[j]]) == audit[j].day)
    && (forall i, j | 0 <= i <= j < |at| :: at[i] <= at[j])
    && (forall j | 0 <= j < |audit| :: audit[j].status == if j % 2 == 0 then Exhausted else Resumed)
    && (forall j | 0 <= j < |audit| - 1 && j % 2 == 0 :: audit[j].day != audit[j+1].day)
  }

  ghost predicate DatedState(cap: real, clock: seq<int>, c: Consumer, at: seq<nat>, last: nat) {
    && Dated(clock, c.audit, at) && (at != [] ==> at[|at|-1] <= last) && (c.exhausted <==> |c.audit| % 2 == 1)
    && (c.exhausted ==> c.budget.spent >= cap && c.budget.key == c.audit[|c.audit|-1].day)
  }

  lemma DatedGrows(clock: seq<int>, audit: seq<Entry>, at: seq<nat>, e: Entry, p: nat)
    requires Dated(clock, audit, at) && p < |clock| && e.day == DayOf(clock[p]) && (at != [] ==> at[|at|-1] <= p)
    requires e.status == (if |audit| % 2 == 0 then Exhausted else Resumed)
    requires |audit| % 2 == 1 ==> audit[|audit|-1].day != e.day
    ensures Dated(clock, audit + [e], at + [p])
  {
    var all, at' := audit + [e], at + [p];
    forall j | 0 <= j < |at'| ensures at'[j] < |clock| && DayOf(clock[at'[j]]) == all[j].day {
      if j < |at| { assert at'[j] == at[j] && all[j] == audit[j]; }
    }
    forall i, j | 0 <= i <= j < |at'| ensures at'[i] <= at'[j] {
      if i < |at| { assert at[i] <= at[|at|-1]; }
    }
    forall j | 0 <= j < |all| - 1 && j % 2 == 0 ensures all[j].day != all[j+1].day {
      if j < |audit| - 1 { assert audit[j].day != audit[j+1].day; }
    }
  }

  /** A poll at `p` that finds the budget `polled` and leaves `c'`. */
  lemma PollStaysDated(cap: real, clock: seq<int>, c: Consumer, at: seq<nat>, p: nat, polled: Day, c': Consumer,
      last: nat)
      returns (at': seq<nat>)
    requires cap > 0.0 && p < |clock| && DatedState(cap, clock, c, at, p) && p <= last
    requires polled == c.budget || polled == Day(DayOf(clock[p]), 0.0)
    requires polled.key == DayOf(clock[p]) && (polled.key == c.budget.key ==> polled == c.budget)
    requires c'.exhausted <==> polled.spent >= cap
    requires c'.audit == (if c'.exhausted != c.exhausted
                          then c.audit + [Entry(polled.key, if c'.exhausted then Exhausted else Resumed, polled.spent)]
                            else c.audit)
    requires c'.exhausted ==> c'.budget == polled
    ensures DatedState(cap, clock, c', at', last)
  {
    var e := Entry(polled.key, if c'.exhausted then Exhausted else Resumed, polled.spent);
    at' := at;
    if c'.exhausted != c.exhausted {
      assert !c'.exhausted ==> polled.key != c.budget.key;
      DatedGrows(clock, c.audit, at, e, p);
      at' := at + [p];
      assert at'[|at'|-1] == p && c'.audit[|c'.audit|-1] == e;
    } else {
      assert c'.exhausted ==> polled == c.budget;
    }
  }

  lemma TurnStaysDated(cap: real, clock: seq<int>, c: Consumer, at: seq<nat>, last: nat, t: Step)
      returns (at': seq<nat>)
    requires cap > 0.0 && DatedState(cap, clock, c, at, last) && last <= t.poll < |clock|
    requires t.charge.Some? ==> t.poll <= t.charge.value.at < |clock|
    ensures DatedState(cap, clock, TakeTurn(cap, c, TurnOf(clock, t)), at', if t.charge.Some? then t.charge.value.at
      else t.poll)
  {
    TurnShape(cap, c, TurnOf(clock, t));
    at' := PollStaysDated(cap, clock, c, at, t.poll, Rollover(c.budget, clock[t.poll]),
      TakeTurn(cap, c, TurnOf(clock, t)),
                          if t.charge.Some? then t.charge.value.at else t.poll);
  }

  lemma {:induction false} TrailIsDated(cap: real, clock: seq<int>, steps: seq<Step>) returns (at: seq<nat>)
    requires cap > 0.0 && clock != [] && InOrder(clock, steps)
    ensures DatedState(cap, clock, Timed(cap, clock, steps), at, LastAt(steps))
    decreases |steps|
  {
    if steps == [] {
      at := [];
    } else {
      at := TrailIsDated(cap, clock, steps[..|steps|-1]);
      at := TurnStaysDated(cap, clock, Timed(cap, clock, steps[..|steps|-1]), at, LastAt(steps[..|steps|-1]),
        steps[|steps|-1]);
    }
  }

  /** Between two entries of one status there is one of another day. */
  lemma OtherDayBetween(clock: seq<int>, audit: seq<Entry>, at: seq<nat>, i: nat, j: nat) returns (k: nat)
    requires Dated(clock, audit, at) && i < j < |audit| && audit[i].status == audit[j].status
    ensures i < k <= j && audit[k].day != audit[i].day
  {
    assert j != i + 1;
    if i % 2 == 0 {
      k := i + 1;
      assert audit[i].day != audit[i+1].day;
    } else {
      k := if audit[i+1].day != audit[i].day then i + 1 else i + 2;
      assert (i + 1) % 2 == 0 && audit[i+1].day != audit[i+2].day;
    }
  }

  lemma DatedIdsDiffer(clock: seq<int>, audit: seq<Entry>, at: seq<nat>, i: nat, j: nat)
    requires NeverReturns(clock) && Dated(clock, audit, at) && i < j < |audit| && audit[i].status == audit[j].status
    ensures audit[i].day != audit[j].day
  {
    var k := OtherDayBetween(clock, audit, at, i, j);
    assert at[i] <= at[k] <= at[j] && DayOf(clock[at[k]]) != DayOf(clock[at[i]]);
  }

  /** The pause, resumption and second pause that a clock returning to a day allows. */
  function Returning(i: nat, k: nat, m: nat, cap: real): seq<Step> {
    [Step(i, true, Some(StepCharge(i, cap)))] + [Step(i, false, None)] + [Step(k, false, None)]
    + [Step(m, true, Some(StepCharge(m, cap)))] + [Step(m, false, None)]
  }

  lemma TimedStep(cap: real, clock: seq<int>, steps: seq<Step>, t: Step)
    requires clock != [] && InOrder(clock, steps) && LastAt(steps) <= t.poll < |clock|
    requires t.charge.Some? ==> t.poll <= t.charge.value.at < |clock| && t.charge.value.cost >= 0.0
    ensures InOrder(clock, steps + [t])
      && Timed(cap, clock, steps + [t]) == TakeTurn(cap, Timed(cap, clock, steps), TurnOf(clock, t))
    ensures LastAt(steps + [t]) == if t.charge.Some? then t.charge.value.at else t.poll
  {
    assert (steps + [t])[..|steps|] == steps;
  }

  lemma ReturningRepeats(cap: real, clock: seq<int>, i: nat, k: nat, m: nat)
    requires cap > 0.0 && i < k < m < |clock| && DayOf(clock[i]) == DayOf(clock[m]) != DayOf(clock[k])
    ensures InOrder(clock, Returning(i, k, m, cap)) && !NoIdTwice(Timed(cap, clock, Returning(i, k, m, cap)).audit)
  {
    var charge, poll := Step(i, true, Some(StepCharge(i, cap))), Step(i, false, None);
    var away, again, back := Step(k, false, None), Step(m, true, Some(StepCharge(m, cap))), Step(m, false, None);
    TimedStep(cap, clock, [], charge);
    assert [] + [charge] == [charge];
    TimedStep(cap, clock, [charge], poll);
    TimedStep(cap, clock, [charge] + [poll], away);
    TimedStep(cap, clock, [charge] + [poll] + [away], again);
    TimedStep(cap, clock, [charge] + [poll] + [away] + [again], back);
    var c0 := Timed(cap, clock, []);
    PausesAt(cap, c0, clock[i]);
    var c2 := Timed(cap, clock, [charge] + [poll]);
    ResumesAt(cap, c2, clock[k]);
    var c3 := Timed(cap, clock, [charge] + [poll] + [away]);
    PausesAt(cap, c3, clock[m]);
    var audit := Timed(cap, clock, Returning(i, k, m, cap)).audit;
    assert audit[0] == audit[2] == Entry(DayOf(clock[i]), Exhausted, cap);
  }

  /** An item that costs the whole cap, and the poll after it. */
  lemma PausesAt(cap: real, c: Consumer, x: int)
    requires cap > 0.0 && !c.exhausted && (c.budget.key == DayOf(x) ==> c.budget.spent == 0.0)
    ensures
      var charged := TakeTurn(cap, c, Turn(x, true, Some(Charge(x, cap))));
      TakeTurn(cap, charged, Turn(x, false, None))
        == Consumer(Day(DayOf(x), cap), true, c.processed + 1, c.audit + [Entry(DayOf(x), Exhausted, cap)])
  {}

  /** A poll on another day. */
  lemma ResumesAt(cap: real, c: Consumer, y: int)
    requires cap > 0.0 && c.exhausted && c.budget.key != DayOf(y)
    ensures TakeTurn(cap, c, Turn(y, false, None))
         == Consumer(Day(DayOf(y), 0.0), false, c.processed, c.audit + [Entry(DayOf(y), Resumed, 0.0)])
  {}

  /**
   Whatever the loop processes, no audit id is written twice, if and only if the
   clock never returns to a day it has left.
   */
  lemma IdsApartExactlyWhen(cap: real, clock: seq<int>)
    requires cap > 0.0 && clock != []
    ensures (forall steps | InOrder(clock, steps) :: NoIdTwice(Timed(cap, clock, steps).audit)) <==> NeverReturns(clock)
  {
    if NeverReturns(clock) {
      forall steps | InOrder(clock, steps) ensures NoIdTwice(Timed(cap, clock, steps).audit) {
        var at := TrailIsDated(cap, clock, steps);
        var audit := Timed(cap, clock, steps).audit;
        forall i, j | 0 <= i < j < |audit|
          ensures !(audit[i].day == audit[j].day && audit[i].status == audit[j].status) {
          if audit[i].status == audit[j].status { DatedIdsDiffer(clock, audit, at, i, j); }
        }
      }
    } else {
      var i, k, m :| 0 <= i < k < m < |clock| && DayOf(clock[i]) == DayOf(clock[m])
        && DayOf(clock[k]) != DayOf(clock[i]);
      ReturningRepeats(cap, clock, i, k, m);
    }
  }

  // ---------------------------------------------------------------------
  // Which clocks keep the daily cap
  // ---------------------------------------------------------------------

  ghost predicate NoneAbove(steps: seq<Step>, most: real) {
    forall i | 0 <= i < |steps| && steps[i].charge.Some? :: steps[i].charge.value.cost <= most
  }

  ghost predicate VisitedBy(clock: seq<int>, at: nat, day: int) {
    exists i :: 0 <= i <= at && i < |clock| && DayOf(clock[i]) == day
  }

  /**
   The ledger, last moved at reading `at`, holds what `turns` spent on its day; only days
   visited by then were spent on.
   */
  ghost predicate LedgerAt(cap: real, clock: seq<int>, turns: seq<Turn>, b: Day, at: nat) {
    && at < |clock| && b.key == DayOf(clock[at]) && b.spent == SpentOn(cap, clock[0], turns, b.key) >= 0.0
    && forall day | SpentOn(cap, clock[0], turns, day) != 0.0 :: VisitedBy(clock, at, day)
  }

  lemma NotBackOn(clock: seq<int>, i: nat, k: nat, m: nat)
    requires NeverReturns(clock) && i < k < m < |clock| && DayOf(clock[k]) != DayOf(clock[m])
    ensures DayOf(clock[i]) != DayOf(clock[m])
  {}

  lemma NewDayIsUnvisited(clock: seq<int>, at: nat, p: nat)
    requires NeverReturns(clock) && at < p < |clock| && DayOf(clock[at]) != DayOf(clock[p])
    ensures !VisitedBy(clock, at, DayOf(clock[p]))
  {
    forall i | 0 <= i <= at ensures DayOf(clock[i]) != DayOf(clock[p]) {
      if i < at { NotBackOn(clock, i, at, p); }
    }
  }

  /** A clock that never returns rolls over only to days nothing was spent on. */
  lemma RollsToUnspent(cap: real, clock: seq<int>, turns: seq<Turn>, b: Day, at: nat, p: nat)
    requires NeverReturns(clock) && LedgerAt(cap, clock, turns, b, at) && at <= p < |clock|
    ensures LedgerAt(cap, clock, turns, Rollover(b, clock[p]), p)
  {
    if DayOf(clock[p]) != b.key { NewDayIsUnvisited(clock, at, p); }
    forall d | SpentOn(cap, clock[0], turns, d) != 0.0 ensures VisitedBy(clock, p, d) {
      var i :| 0 <= i <= at && DayOf(clock[i]) == d;
    }
  }

  ghost predicate DaysOk(cap: real, clock: seq<int>, turns: seq<Turn>, most: real)
    requires clock != []
  {
    forall day :: DayOk(cap, most, SpentOn(cap, clock[0], turns, day))
  }

  lemma TurnKeepsLedger(cap: real, clock: seq<int>, turns: seq<Turn>, t: Step, most: real, at: nat) returns (at': nat)
    requires cap > 0.0 && NeverReturns(clock) && at <= t.poll < |clock|
    requires t.charge.Some? ==> t.poll <= t.charge.value.at < |clock| && 0.0 <= t.charge.value.cost <= most
    requires LedgerAt(cap, clock, turns, Consume(cap, clock[0], turns).budget, at) && DaysOk(cap, clock, turns, most)
    ensures
      var all := turns + [TurnOf(clock, t)];
      && LedgerAt(cap, clock, all, Consume(cap, clock[0], all).budget, at') && DaysOk(cap, clock, all, most)
      && at' <= if t.charge.Some? then t.charge.value.at else t.poll
  {
    var all := turns + [TurnOf(clock, t)];
    assert all[..|all|-1] == turns;
    var b := Consume(cap, clock[0], turns).budget;
    var polled := Rollover(b, clock[t.poll]);
    RollsToUnspent(cap, clock, turns, b, at, t.poll);
    if polled.spent < cap && t.received && t.charge.Some? {
      at' := t.charge.value.at;
      RollsToUnspent(cap, clock, turns, polled, t.poll, at');
      ChargeKeepsLedger(cap, clock, turns, all, polled, Rollover(polled, clock[at']), t.charge.value.cost, most, at');
    } else {
      at' := t.poll;
      assert forall day :: SpentOn(cap, clock[0], all, day) == SpentOn(cap, clock[0], turns, day);
      forall day ensures DayOk(cap, most, SpentOn(cap, clock[0], all, day)) {
        assert DayOk(cap, most, SpentOn(cap, clock[0], turns, day));
      }
    }
  }

  lemma ChargeKeepsLedger(cap: real, clock: seq<int>, turns: seq<Turn>, all: seq<Turn>, polled: Day, b: Day, cost: real,
      most: real, at: nat)
    requires cap > 0.0 && LedgerAt(cap, clock, turns, b, at) && DaysOk(cap, clock, turns, most)
    requires 0.0 <= cost <= most && polled.spent < cap && (b == polled || b.spent == 0.0)
    requires forall day :: SpentOn(cap, clock[0], all, day)
                           == SpentOn(cap, clock[0], turns, day) + (if day == b.key then cost else 0.0)
    ensures LedgerAt(cap, clock, all, b.(spent := b.spent + cost), at) && DaysOk(cap, clock, all, most)
  {
    forall day | SpentOn(cap, clock[0], all, day) != 0.0 ensures VisitedBy(clock, at, day) {
      if day == b.key { assert DayOf(clock[at]) == day; } else { assert SpentOn(cap, clock[0], turns, day) != 0.0; }
    }
    forall day ensures DayOk(cap, most, SpentOn(cap, clock[0], all, day)) {
      assert DayOk(cap, most, SpentOn(cap, clock[0], turns, day));
    }
  }

  lemma {:induction false} LedgerKept(cap: real, clock: seq<int>, steps: seq<Step>, most: real) returns (at: nat)
    requires cap > 0.0 && clock != [] && NeverReturns(clock) && InOrder(clock, steps) && NoneAbove(steps, most)
    ensures
      var turns := TurnsOf(clock, steps);
      && LedgerAt(cap, clock, turns, Consume(cap, clock[0], turns).budget, at) && DaysOk(cap, clock, turns, most)
      && at <= LastAt(steps)
    decreases |steps|
  {
    if steps == [] {
      at := 0;
    } else {
      var before, t := steps[..|steps|-1], steps[|steps|-1];
      assert forall i | 0 <= i < |before| :: before[i] == steps[i];
      at := LedgerKept(cap, clock, before, most);
      at := TurnKeepsLedger(cap, clock, TurnsOf(clock, before), t, most, at);
    }
  }

  /** Two items that cost the whole cap, on the day the clock came back to. */
  lemma ReturningOverspends(cap: real, clock: seq<int>, i: nat, k: nat, m: nat)
    requires cap > 0.0 && i < k < m < |clock| && DayOf(clock[i]) == DayOf(clock[m]) != DayOf(clock[k])
    ensures InOrder(clock, Returning(i, k, m, cap)) && NoneAbove(Returning(i, k, m, cap), cap)
    ensures SpentOn(cap, clock[0], TurnsOf(clock, Returning(i, k, m, cap)), DayOf(clock[i])) == cap + cap
  {
    var charge, poll := Step(i, true, Some(StepCharge(i, cap))), Step(i, false, None);
    var away, again, back := Step(k, false, None), Step(m, true, Some(StepCharge(m, cap))), Step(m, false, None);
    var day := DayOf(clock[i]);
    SpentStep(cap, clock, [], charge, day);
    assert [] + [charge] == [charge];
    SpentStep(cap, clock, [charge], poll, day);
    SpentStep(cap, clock, [charge] + [poll], away, day);
    SpentStep(cap, clock, [charge] + [poll] + [away], again, day);
    SpentStep(cap, clock, [charge] + [poll] + [away] + [again], back, day);
    PausesAt(cap, Timed(cap, clock, []), clock[i]);
    ResumesAt(cap, Timed(cap, clock, [charge] + [poll]), clock[k]);
  }

  /** What one more step adds to a day. */
  lemma SpentStep(cap: real, clock: seq<int>, steps: seq<Step>, t: Step, day: int)
    requires clock != [] && InOrder(clock, steps) && LastAt(steps) <= t.poll < |clock|
    requires t.charge.Some? ==> t.poll <= t.charge.value.at < |clock| && t.charge.value.cost >= 0.0
    ensures InOrder(clock, steps + [t])
      && Timed(cap, clock, steps + [t]) == TakeTurn(cap, Timed(cap, clock, steps), TurnOf(clock, t))
    ensures LastAt(steps + [t]) == if t.charge.Some? then t.charge.value.at else t.poll
    ensures
      var polled := Rollover(Timed(cap, clock, steps).budget, clock[t.poll]);
      SpentOn(cap, clock[0], TurnsOf(clock, steps + [t]), day) == SpentOn(cap, clock[0], TurnsOf(clock, steps), day)
        + (if polled.spent < cap && t.received && t.charge.Some? && DayOf(clock[t.charge.value.at]) == day
          then t.charge.value.cost else 0.0)
  {
    TimedStep(cap, clock, steps, t);
    TimedIsConsume(cap, clock, steps);
    TurnsStep(clock, steps, t);
    SpentTurn(cap, clock[0], TurnsOf(clock, steps), TurnOf(clock, t), day);
  }

  lemma TurnsStep(clock: seq<int>, steps: seq<Step>, t: Step)
    requires clock != [] && InOrder(clock, steps) && InOrder(clock, steps + [t])
    requires t.poll < |clock| && (t.charge.Some? ==> t.charge.value.at < |clock|)
    ensures TurnsOf(clock, steps + [t]) == TurnsOf(clock, steps) + [TurnOf(clock, t)]
  {
    assert (steps + [t])[..|steps|] == steps;
  }

  lemma SpentTurn(cap: real, startedAt: int, turns: seq<Turn>, t: Turn, day: int)
    ensures
      var polled := Rollover(Consume(cap, startedAt, turns).budget, t.polledAt);
      SpentOn(cap, startedAt, turns + [t], day) == SpentOn(cap, startedAt, turns, day)
        + (if polled.spent < cap && t.received && t.charge.Some? && DayOf(t.charge.value.at) == day
          then t.charge.value.cost else 0.0)
  {
    assert (turns + [t])[..|turns|] == turns;
  }

  /**
   Whatever the loop processes, no day's spend reaches the cap plus the dearest item,
   if and only if the clock never returns to a day it has left.
   */
  lemma DayCapHoldsExactlyWhen(cap: real, clock: seq<int>)
    requires cap > 0.0 && clock != []
    ensures (forall steps, most | InOrder(clock, steps) && NoneAbove(steps, most) ::
      DaysOk(cap, clock, TurnsOf(clock, steps), most))
       <==> NeverReturns(clock)
  {
    if NeverReturns(clock) {
      forall steps, most | InOrder(clock, steps) && NoneAbove(steps, most)
        ensures DaysOk(cap, clock, TurnsOf(clock, steps), most) {
        var at := LedgerKept(cap, clock, steps, most);
      }
    } else {
      var i, k, m :| 0 <= i < k < m < |clock| && DayOf(clock[i]) == DayOf(clock[m])
        && DayOf(clock[k]) != DayOf(clock[i]);
      ReturningOverspends(cap, clock, i, k, m);
      assert !DayOk(cap, cap, SpentOn(cap, clock[0], TurnsOf(clock, Returning(i, k, m, cap)), DayOf(clock[i])));
      assert !DaysOk(cap, clock, TurnsOf(clock, Returning(i, k, m, cap)), cap);
    }
  }
}
