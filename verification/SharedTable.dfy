/**
 Optimistic read-modify-write on one row of the shared governance table.
 */
module SharedTable {
  /*
   Replicas read a row with its ETag, compute a new value, and write it back on
   condition that the ETag still stands; a row that was absent when read is written
   unconditionally. The first part is the protocol: any number of calls, one step per
   request to the table, in any order. The second part is one replica's retry loop,
   with the other replicas' writes as its environment.
   */

  import opened Prelude

  const MAX_CAS_ATTEMPTS: nat := 5

  datatype Row<+V> = Row(value: V, etag: nat)

  /** `write` is `None` for a transition that only reads. */
  datatype Computed<+V, +R> = Computed(write: Option<V>, result: R)

  function ValueOf<V>(row: Option<Row<V>>): Option<V> {
    if row.Some? then Some(row.value.value) else None
  }

  // ---------------------------------------------------------------------
  // The protocol
  // ---------------------------------------------------------------------

  /** Where a call stands. `startedAt` and `readAt` are positions in the log. */
  datatype Phase<+Op, +V> =
    | Reading(op: Op, attempt: nat, startedAt: nat)
    | Writing(op: Op, attempt: nat, startedAt: nat, snapshot: Option<Row<V>>, readAt: nat)

  datatype Event<+Op, +R> =
    | Committed(call: nat, op: Op, fromAbsent: bool, result: R)
    | ReturnedUnwritten(call: nat, op: Op, startedAt: nat, readAt: nat, result: R)
    | Conflicted(call: nat, readAt: nat)
    | GaveUp(call: nat, startedAt: nat)
    | Failed(call: nat)

  datatype System<Op, V, R> = System(
    row: Option<Row<V>>, nextEtag: nat, calls: map<nat, Phase<Op, V>>, log: seq<Event<Op, R>>)

  datatype Label<+Op> =
    | Begin(call: nat, op: Op)
    | Read(call: nat)
    | Write(call: nat)
    | Fail(call: nat)

  function Init<Op, V, R>(): System<Op, V, R> { System(None, 0, map[], []) }

  ghost predicate Enabled<Op, V, R>(s: System<Op, V, R>, l: Label<Op>) {
    match l
    case Begin(c, _) => c !in s.calls
    case Read(c) => c in s.calls && s.calls[c].Reading?
    case Write(c) => c in s.calls && s.calls[c].Writing?
    case Fail(c) => c in s.calls
  }

  /** One request to the table, or the start or failure of a call. */
  ghost function Apply<Op, V, R>(compute: (Op, Option<V>) -> Computed<V, R>, s: System<Op, V, R>, l: Label<Op>)
    : System<Op, V, R>
    requires Enabled(s, l)
  {
    match l
    case Begin(c, op) => s.(calls := s.calls[c := Reading(op, 0, |s.log|)])
    case Read(c) =>
      var p := s.calls[c];
      s.(calls := s.calls[c := Writing(p.op, p.attempt, p.startedAt, s.row, |s.log|)])
    case Fail(c) => s.(calls := s.calls - {c}, log := s.log + [Failed(c)])
    case Write(c) => ApplyWrite(compute, s, c)
  }

  ghost function ApplyWrite<Op, V, R>(compute: (Op, Option<V>) -> Computed<V, R>, s: System<Op, V, R>, c: nat)
    : System<Op, V, R>
    requires c in s.calls && s.calls[c].Writing?
  {
    var p := s.calls[c];
    var computed := compute(p.op, ValueOf(p.snapshot));
    if computed.write.None? then
      s.(calls := s.calls - {c}, log := s.log + [ReturnedUnwritten(c, p.op, p.startedAt, p.readAt, computed.result)])
    else if p.snapshot.None? || (s.row.Some? && s.row.value.etag == p.snapshot.value.etag) then
      System(Some(Row(computed.write.value, s.nextEtag)), s.nextEtag + 1, s.calls - {c},
             s.log + [Committed(c, p.op, p.snapshot.None?, computed.result)])
    else if p.attempt < MAX_CAS_ATTEMPTS - 1 then
      s.(calls := s.calls[c := Reading(p.op, p.attempt + 1, p.startedAt)], log := s.log + [Conflicted(c, p.readAt)])
    else
      s.(calls := s.calls - {c}, log := s.log + [Conflicted(c, p.readAt), GaveUp(c, p.startedAt)])
  }

  /** The state after a run, or `None` when some step of it was not possible. */
  ghost function Run<Op, V,
      R>(compute: (Op, Option<V>) -> Computed<V, R>, labels: seq<Label<Op>>): Option<System<Op, V, R>>
    decreases |labels|
  {
    if labels == [] then Some(Init())
    else
      var before := Run(compute, labels[..|labels|-1]);
      var l := labels[|labels|-1];
      if before.Some? && Enabled(before.value, l) then Some(Apply(compute, before.value, l)) else None
  }

  lemma RunSnoc<Op, V, R>(
      compute: (Op, Option<V>) -> Computed<V, R>, labels: seq<Label<Op>>, s: System<Op, V, R>, l: Label<Op>)
    requires Run(compute, labels) == Some(s) && Enabled(s, l)
    ensures Run(compute, labels + [l]) == Some(Apply(compute, s, l))
  {}

  /**
   The sequential run: the committed operations, folded in commit order. A
   commit whose call found no row starts over from an absent row.
   */
  ghost function Fold<Op, V, R>(compute: (Op, Option<V>) -> Computed<V, R>, log: seq<Event<Op, R>>): Option<V>
    decreases |log|
  {
    if log == [] then None
    else
      var before := Fold(compute, log[..|log|-1]);
      match log[|log|-1]
      case Committed(_, op, fromAbsent, _) => compute(op, if fromAbsent then None else before).write
      case _ => before
  }

  /** Commits that calls other than `call` made in `log[a..b]`. */
  ghost function Rivals<Op, R>(log: seq<Event<Op, R>>, call: nat, a: nat, b: nat): nat
    requires b <= |log|
    decreases b
  {
    if a >= b then 0
    else Rivals(log, call, a, b - 1) + (if log[b-1].Committed? && log[b-1].call != call then 1 else 0)
  }

  /** What the protocol promises about the `i`th thing that happened. */
  ghost predicate Explained<Op, V, R>(compute: (Op, Option<V>) -> Computed<V, R>, log: seq<Event<Op, R>>, i: nat)
    requires i < |log|
  {
    match log[i]
    case Committed(_, op, fromAbsent, result) =>
      var sequential := Fold(compute, log[..i]);
      && (!fromAbsent ==> sequential.Some?)
      && var computed := compute(op, if fromAbsent then None else sequential);
         computed.write.Some? && result == computed.result
    case ReturnedUnwritten(_, op, startedAt, readAt, result) =>
      && startedAt <= readAt <= i
      && compute(op, Fold(compute, log[..readAt])) == Computed(None, result)
    case Conflicted(call, readAt) => readAt <= i && Rivals(log, call, readAt, i) >= 1
    case GaveUp(call, startedAt) => startedAt <= i && Rivals(log, call, startedAt, i) >= MAX_CAS_ATTEMPTS
    case Failed(_) => true
  }

  ghost predicate PhaseOk<Op, V, R>(compute: (Op, Option<V>) -> Computed<V, R>, s: System<Op, V, R>, c: nat)
    requires c in s.calls
  {
    var p := s.calls[c];
    match p
    case Reading(_, attempt, startedAt) =>
      attempt < MAX_CAS_ATTEMPTS && startedAt <= |s.log| && Rivals(s.log, c, startedAt, |s.log|) >= attempt
    case Writing(_, attempt, startedAt, snapshot, readAt) =>
      && attempt < MAX_CAS_ATTEMPTS
      && startedAt <= readAt <= |s.log|
      && Rivals(s.log, c, startedAt, readAt) >= attempt
      && ValueOf(snapshot) == Fold(compute, s.log[..readAt])
      && (snapshot.Some? ==>
           && snapshot.value.etag < s.nextEtag
           && s.row.Some?
           && (s.row.value.etag == snapshot.value.etag ==> s.row == snapshot)
           && (s.row.value.etag != snapshot.value.etag ==> Rivals(s.log, c, readAt, |s.log|) >= 1))
  }

  ghost predicate Inv<Op, V, R>(compute: (Op, Option<V>) -> Computed<V, R>, s: System<Op, V, R>) {
    && ValueOf(s.row) == Fold(compute, s.log)
    && (s.row.Some? ==> s.row.value.etag < s.nextEtag)
    && (forall c | c in s.calls :: PhaseOk(compute, s, c))
    && (forall i | 0 <= i < |s.log| :: Explained(compute, s.log, i))
  }

  lemma {:induction false} RivalsOfPrefix<Op,
      R>(log: seq<Event<Op, R>>, more: seq<Event<Op, R>>, call: nat, a: nat, b: nat)
    requires b <= |log|
    ensures Rivals(log + more, call, a, b) == Rivals(log, call, a, b)
    decreases b
  {
    if a < b { RivalsOfPrefix(log, more, call, a, b - 1); }
  }

  lemma {:induction false} RivalsAdd<Op, R>(log: seq<Event<Op, R>>, call: nat, a: nat, b: nat, c: nat)
    requires a <= b <= c <= |log|
    ensures Rivals(log, call, a, c) == Rivals(log, call, a, b) + Rivals(log, call, b, c)
    decreases c
  {
    if b < c { RivalsAdd(log, call, a, b, c - 1); }
  }

  /** Explanations of what is already in the log survive the log growing. */
  lemma ExplainedStays<Op, V, R>(
      compute: (Op, Option<V>) -> Computed<V, R>, log: seq<Event<Op, R>>, more: seq<Event<Op, R>>, i: nat)
    requires i < |log| && Explained(compute, log, i)
    ensures Explained(compute, log + more, i)
  {
    assert (log + more)[..i] == log[..i];
    match log[i]
    case ReturnedUnwritten(_, _, _, readAt, _) => assert (log + more)[..readAt] == log[..readAt];
    case Conflicted(call, readAt) => RivalsOfPrefix(log, more, call, readAt, i);
    case GaveUp(call, startedAt) => RivalsOfPrefix(log, more, call, startedAt, i);
    case _ =>
  }

  /** ... and an explanation only looks at the log before it. */
  lemma ExplainedBefore<Op, V, R>(compute: (Op, Option<V>) -> Computed<V, R>, log: seq<Event<Op, R>>, n: nat, i: nat)
    requires i < n <= |log| && Explained(compute, log, i)
    ensures Explained(compute, log[..n], i)
  {
    var prefix := log[..n];
    assert prefix + log[n..] == log;
    assert prefix[..i] == log[..i];
    match log[i]
    case ReturnedUnwritten(_, _, _, readAt, _) => assert prefix[..readAt] == log[..readAt];
    case Conflicted(call, readAt) => RivalsOfPrefix(prefix, log[n..], call, readAt, i);
    case GaveUp(call, startedAt) => RivalsOfPrefix(prefix, log[n..], call, startedAt, i);
    case _ =>
  }

  /** A bystander's phase survives an event of another call. */
  lemma BystanderStays<Op, V, R>(
      compute: (Op, Option<V>) -> Computed<V, R>, s: System<Op, V, R>, s': System<Op, V, R>, e: Event<Op, R>, c: nat)
    requires c in s.calls && c in s'.calls && s.calls[c] == s'.calls[c] && PhaseOk(compute, s, c)
    requires s'.log == s.log + [e] && e.call != c
    requires if e.Committed? then s'.row.Some? && s'.row.value.etag == s.nextEtag && s'.nextEtag == s.nextEtag + 1
             else s'.row == s.row && s'.nextEtag == s.nextEtag
    ensures PhaseOk(compute, s', c)
  {
    var p := s.calls[c];
    var n := |s.log|;
    RivalsOfPrefix(s.log, [e], c, p.startedAt, n);
    if p.Writing? {
      RivalsOfPrefix(s.log, [e], c, p.startedAt, p.readAt);
      RivalsOfPrefix(s.log, [e], c, p.readAt, n);
      assert s'.log[..p.readAt] == s.log[..p.readAt];
    }
  }

  lemma StepKeepsInv<Op, V, R>(compute: (Op, Option<V>) -> Computed<V, R>, s: System<Op, V, R>, l: Label<Op>)
    requires Inv(compute, s) && Enabled(s, l)
    ensures Inv(compute, Apply(compute, s, l))
  {
    var s' := Apply(compute, s, l);
    match l
    case Begin(c, op) =>
      forall d | d in s'.calls ensures PhaseOk(compute, s', d) {
        if d != c { assert PhaseOk(compute, s, d); }
      }
    case Read(c) =>
      assert PhaseOk(compute, s, c);
      assert s.log[..|s.log|] == s.log;
      forall d | d in s'.calls ensures PhaseOk(compute, s', d) {
        if d != c { assert PhaseOk(compute, s, d); }
      }
    case Fail(c) => OneEvent(compute, s, s', c, Failed(c));
    case Write(c) => WriteKeepsInv(compute, s, c);
  }

  /** The common part of every step that ends or retries call `c` with event `e`. */
  lemma OneEvent<Op, V, R>(
      compute: (Op, Option<V>) -> Computed<V, R>, s: System<Op, V, R>, s': System<Op, V, R>, c: nat, e: Event<Op, R>)
    requires Inv(compute, s) && e.call == c && s'.log == s.log + [e]
    requires if e.Committed? then s'.row.Some? && s'.row.value.etag == s.nextEtag && s'.nextEtag == s.nextEtag + 1
             else s'.row == s.row && s'.nextEtag == s.nextEtag
    requires ValueOf(s'.row) == Fold(compute, s'.log)
    requires Explained(compute, s'.log, |s.log|)
    requires s'.calls == s.calls - {c} || (c in s'.calls && s'.calls - {c} == s.calls - {c} && PhaseOk(compute, s', c))
    ensures Inv(compute, s')
  {
    forall d | d in s'.calls ensures PhaseOk(compute, s', d) {
      if d != c {
        assert d in s'.calls - {c};
        assert d in s.calls - {c};
        assert (s'.calls - {c})[d] == (s.calls - {c})[d];
        BystanderStays(compute, s, s', e, d);
      }
    }
    forall i | 0 <= i < |s'.log| ensures Explained(compute, s'.log, i) {
      if i < |s.log| { ExplainedStays(compute, s.log, [e], i); }
    }
  }

  lemma WriteKeepsInv<Op, V, R>(compute: (Op, Option<V>) -> Computed<V, R>, s: System<Op, V, R>, c: nat)
    requires Inv(compute, s) && c in s.calls && s.calls[c].Writing?
    ensures Inv(compute, ApplyWrite(compute, s, c))
  {
    var s' := ApplyWrite(compute, s, c);
    var p := s.calls[c];
    var n := |s.log|;
    assert PhaseOk(compute, s, c);
    assert s.log[..n] == s.log;
    var computed := compute(p.op, ValueOf(p.snapshot));
    if computed.write.None? {
      var e := ReturnedUnwritten(c, p.op, p.startedAt, p.readAt, computed.result);
      assert s'.log[..n] == s.log && s'.log[..p.readAt] == s.log[..p.readAt];
      OneEvent(compute, s, s', c, e);
    } else if p.snapshot.None? || s.row.value.etag == p.snapshot.value.etag {
      var e := Committed(c, p.op, p.snapshot.None?, computed.result);
      assert s'.log[..n] == s.log;
      OneEvent(compute, s, s', c, e);
    } else {
      ConflictKeepsInv(compute, s, c);
    }
  }

  lemma ConflictKeepsInv<Op, V, R>(compute: (Op, Option<V>) -> Computed<V, R>, s: System<Op, V, R>, c: nat)
    requires Inv(compute, s) && c in s.calls && s.calls[c].Writing?
    requires compute(s.calls[c].op, ValueOf(s.calls[c].snapshot)).write.Some?
    requires s.calls[c].snapshot.Some? && s.row.Some? && s.row.value.etag != s.calls[c].snapshot.value.etag
    ensures Inv(compute, ApplyWrite(compute, s, c))
  {
    var p := s.calls[c];
    var n := |s.log|;
    assert PhaseOk(compute, s, c);
    var e := Conflicted(c, p.readAt);
    RivalsAdd(s.log, c, p.startedAt, p.readAt, n);
    RivalsOfPrefix(s.log, [e], c, p.readAt, n);
    RivalsOfPrefix(s.log, [e], c, p.startedAt, n);
    assert (s.log + [e])[..n] == s.log;
    if p.attempt < MAX_CAS_ATTEMPTS - 1 {
      OneEvent(compute, s, ApplyWrite(compute, s, c), c, e);
    } else {
      var mid := s.(log := s.log + [e], calls := s.calls - {c});
      OneEvent(compute, s, mid, c, e);
      var g := GaveUp(c, p.startedAt);
      var s' := s.(log := mid.log + [g], calls := s.calls - {c});
      assert mid.log + [g] == s.log + [e, g];
      assert s'.log[..n+1] == mid.log;
      RivalsOfPrefix(mid.log, [g], c, p.startedAt, n + 1);
      OneEvent(compute, mid, s', c, g);
    }
  }

  /**
   Linearizability. After any run, by any number of calls with any retries:
   the stored value is the sequential fold of the committed operations; every
   committed result is the one the sequential run gives at that point; every
   unwritten result is the one the sequential run gives at the moment the call
   read, between its own start and its own answer; calls that failed or gave up changed nothing (they are not folded);
   every conflict is owed to another call's commit since the read; and a call
   gives up only when five other calls committed while it ran.
   */
  lemma {:induction false} Linearizable<Op, V, R>(
      compute: (Op, Option<V>) -> Computed<V, R>, labels: seq<Label<Op>>, s: System<Op, V, R>)
    requires Run(compute, labels) == Some(s)
    ensures ValueOf(s.row) == Fold(compute, s.log)
    ensures forall i | 0 <= i < |s.log| :: Explained(compute, s.log, i)
    ensures Inv(compute, s)
    decreases |labels|
  {
    if labels != [] {
      var before := Run(compute, labels[..|labels|-1]).value;
      Linearizable(compute, labels[..|labels|-1], before);
      StepKeepsInv(compute, before, labels[|labels|-1]);
    }
  }

  // ---------------------------------------------------------------------
  // One replica's retry loop
  // ---------------------------------------------------------------------

  /**
   What a call answers and leaves in the row when, between its `k`th read and
   write, the other replicas store the values `rivals[k]`, and what is stored
   ends up being. `None` for an answer means the conflict was surfaced.
   */
  ghost function Retried<V,
      R>(value: Option<V>, compute: Option<V> -> Computed<V, R>, rivals: seq<seq<V>>): (Option<V>, Option<R>)
    decreases |rivals|
  {
    if rivals == [] then (value, None)
    else
      var computed := compute(value);
      if computed.write.None? then (value, Some(computed.result))
      else if rivals[0] == [] || value.None? then (computed.write, Some(computed.result))
      else Retried(Some(rivals[0][|rivals[0]|-1]), compute, rivals[1..])
  }

  /**
   A call that answers did so from a value that was current when it wrote, so
   no write of a rival is lost -- except in one case: the row was absent when
   first read and a rival created it before the unconditional write. A call
   that surfaces its conflict met a rival in every attempt and leaves the last
   rival's value.
   */
  lemma {:induction false} RetriedMeaning<V,
      R>(value: Option<V>, compute: Option<V> -> Computed<V, R>, rivals: seq<seq<V>>)
    returns (k: nat)
    requires rivals != []
    ensures k <= |rivals| && forall j | 0 <= j < k :: rivals[j] != []
    ensures
      var (left, answer) := Retried(value, compute, rivals);
      && (answer.None? ==>
           && k == |rivals|
           && value.Some?
           && left == Seen(value, rivals, k))
      && (answer.Some? ==>
           && k < |rivals|
           && var computed := compute(Seen(value, rivals, k));
              && answer == Some(computed.result)
              && left == (if computed.write.Some? then computed.write else Seen(value, rivals, k))
              && (computed.write.Some? ==> rivals[k] == [] || (k == 0 && value.None?)))
    decreases |rivals|
  {
    var computed := compute(value);
    if computed.write.None? || rivals[0] == [] || value.None? {
      k := 0;
    } else {
      var rest := rivals[1..];
      var next := Some(rivals[0][|rivals[0]|-1]);
      if rest == [] {
        k := 1;
      } else {
        var j := RetriedMeaning(next, compute, rest);
        k := j + 1;
        assert Seen(next, rest, j) == Seen(value, rivals, k);
        forall i | 0 <= i < k ensures rivals[i] != [] {
          if i > 0 { assert rivals[i] == rest[i-1]; }
        }
      }
    }
  }

  /** What attempt `k` reads: the last rival write of the attempt before it. */
  ghost function Seen<V>(value: Option<V>, rivals: seq<seq<V>>, k: nat): Option<V>
    requires k <= |rivals|
  {
    if k == 0 || rivals[k-1] == [] then value else Some(rivals[k-1][|rivals[k-1]|-1])
  }

  /** The table as one key's row, with the requests the client library makes of it. */
  class GovernanceTable<V> {
    var row: Option<Row<V>>
    var nextEtag: nat

    ghost predicate Valid() reads this { row.Some? ==> row.value.etag < nextEtag }

    constructor ()
      ensures Valid() && row == None
    {
      row := None;
      nextEtag := 0;
    }

    method GetEntity() returns (snapshot: Option<Row<V>>)
      ensures snapshot == row
    {
      snapshot := row;
    }

    method UpsertEntity(value: V)
      requires Valid()
      modifies this
      ensures Valid() && row == Some(Row(value, old(nextEtag))) && nextEtag == old(nextEtag) + 1
    {
      row := Some(Row(value, nextEtag));
      nextEtag := nextEtag + 1;
    }

    /** `ok` is false for the precondition failure (412). */
    method UpdateEntity(value: V, etag: nat) returns (ok: bool)
      requires Valid()
      modifies this
      ensures Valid()
      ensures ok <==> old(row).Some? && old(row).value.etag == etag
      ensures if ok then row == Some(Row(value, old(nextEtag))) && nextEtag == old(nextEtag) + 1
              else row == old(row) && nextEtag == old(nextEtag)
    {
      ok := row.Some? && row.value.etag == etag;
      if ok {
        row := Some(Row(value, nextEtag));
        nextEtag := nextEtag + 1;
      }
    }

    method WriteEntity(value: V, etag: Option<nat>) returns (ok: bool)
      requires Valid()
      modifies this
      ensures Valid()
      ensures ok <==> etag.None? || (old(row).Some? && old(row).value.etag == etag.value)
      ensures if ok then row == Some(Row(value, old(nextEtag))) && nextEtag == old(nextEtag) + 1
              else row == old(row) && nextEtag == old(nextEtag)
    {
      if etag.None? {
        UpsertEntity(value);
        ok := true;
      } else {
        ok := UpdateEntity(value, etag.value);
      }
    }

    /** The other replicas' writes between a read and a write of ours. */
    method Interfere(values: seq<V>)
      requires Valid()
      modifies this
      ensures Valid() && nextEtag == old(nextEtag) + |values|
      ensures if values == [] then row == old(row)
              else row == Some(Row(values[|values|-1], nextEtag - 1))
    {
      for i := 0 to |values|
        invariant Valid() && nextEtag == old(nextEtag) + i
        invariant if i == 0 then row == old(row) else row == Some(Row(values[i-1], nextEtag - 1))
      {
        UpsertEntity(values[i]);
      }
    }

    method ReadModifyWrite<R>(compute: Option<V> -> Computed<V, R>, rivals: seq<seq<V>>) returns (answer: Option<R>)
      requires Valid()
      requires |rivals| == MAX_CAS_ATTEMPTS
      modifies this
      ensures Valid()
      ensures (ValueOf(row), answer) == Retried(old(ValueOf(row)), compute, rivals)
    {
      var attempt := 0;
      while true
        invariant Valid() && attempt < MAX_CAS_ATTEMPTS
        invariant Retried(ValueOf(row), compute, rivals[attempt..]) == Retried(old(ValueOf(row)), compute, rivals)
        decreases MAX_CAS_ATTEMPTS - attempt
      {
        var snapshot := GetEntity();
        var computed := compute(ValueOf(snapshot));
        if computed.write.None? {
          return Some(computed.result);
        }
        ghost var todo := rivals[attempt..];
        assert todo[0] == rivals[attempt] && todo[1..] == rivals[attempt+1..];
        Interfere(rivals[attempt]);
        var etag := if snapshot.Some? then Some(snapshot.value.etag) else None;
        var ok := WriteEntity(computed.write.value, etag);
        if ok {
          return Some(computed.result);
        }
        if attempt >= MAX_CAS_ATTEMPTS - 1 {
          return None;
        }
        attempt := attempt + 1;
      }
    }
  }
}
