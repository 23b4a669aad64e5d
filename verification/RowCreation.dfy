/**
 The one write of the shared table that no ETag guards: the creation of a row. When
 it can replace a row that another replica has stored meanwhile, and when it cannot.
 */
module RowCreation {
  import opened Prelude
  import opened SharedTable

  /** Commits whose call had found no row: each replaces whatever is stored. */
  function Creations<Op, R>(log: seq<Event<Op, R>>): nat
    decreases |log|
  {
    if log == [] then 0
    else Creations(log[..|log|-1]) + (if log[|log|-1].Committed? && log[|log|-1].fromAbsent then 1 else 0)
  }

  lemma {:induction false} CreationsSnoc<Op, R>(log: seq<Event<Op, R>>, e: Event<Op, R>)
    ensures Creations(log + [e]) == Creations(log) + (if e.Committed? && e.fromAbsent then 1 else 0)
  {
    assert (log + [e])[..|log|] == log;
  }

  lemma {:induction false} CreationsOfPrefix<Op, R>(log: seq<Event<Op, R>>, n: nat)
    requires n <= |log|
    ensures Creations(log[..n]) <= Creations(log)
    decreases |log|
  {
    if n == |log| {
      assert log[..n] == log;
    } else {
      CreationsOfPrefix(log[..|log|-1], n);
      assert log[..|log|-1][..n] == log[..n];
    }
  }

  /** The state after a run goes on from `s` with `more`. */
  ghost function RunFrom<Op, V,
      R>(compute: (Op, Option<V>) -> Computed<V, R>, s: System<Op, V, R>, more: seq<Label<Op>>)
    : Option<System<Op, V, R>>
    decreases |more|
  {
    if more == [] then Some(s)
    else
      var before := RunFrom(compute, s, more[..|more|-1]);
      var l := more[|more|-1];
      if before.Some? && Enabled(before.value, l) then Some(Apply(compute, before.value, l)) else None
  }

  lemma {:induction false} RunFromSnoc<Op, V, R>(
      compute: (Op, Option<V>) -> Computed<V, R>, s: System<Op, V, R>, more: seq<Label<Op>>, s': System<Op, V, R>,
        l: Label<Op>)
    requires RunFrom(compute, s, more) == Some(s') && Enabled(s', l)
    ensures RunFrom(compute, s, more + [l]) == Some(Apply(compute, s', l))
  {
    assert (more + [l])[..|more|] == more;
  }

  /** Any run, from any point of it, is a continuation. */
  lemma {:induction false} RunGoesOn<Op, V, R>(
      compute: (Op, Option<V>) -> Computed<V, R>, labels: seq<Label<Op>>, more: seq<Label<Op>>, s: System<Op, V, R>)
    requires Run(compute, labels) == Some(s)
    ensures RunFrom(compute, s, more) == Run(compute, labels + more)
    decreases |more|
  {
    if more == [] {
      assert labels + more == labels;
    } else {
      RunGoesOn(compute, labels, more[..|more|-1], s);
      assert (labels + more)[..|labels + more|-1] == labels + more[..|more|-1];
    }
  }

  /** The operation writes when it finds no row. */
  ghost predicate Creates<Op, V, R>(compute: (Op, Option<V>) -> Computed<V, R>, op: Op) {
    compute(op, None).write.Some?
  }

  /** The call read an absent row and will write without an ETag. */
  ghost predicate WillCreate<Op, V, R>(compute: (Op, Option<V>) -> Computed<V, R>, s: System<Op, V, R>, c: nat) {
    c in s.calls && s.calls[c].Writing? && s.calls[c].snapshot.None? && Creates(compute, s.calls[c].op)
  }

  /** The step replaces a stored row that its call never read. */
  ghost predicate Overwrites<Op, V, R>(compute: (Op, Option<V>) -> Computed<V, R>, s: System<Op, V, R>, l: Label<Op>) {
    s.row.Some? && l.Write? && WillCreate(compute, s, l.call)
  }

  /** The row is stored, and no call in progress is about to create it. */
  ghost predicate Settled<Op, V, R>(compute: (Op, Option<V>) -> Computed<V, R>, s: System<Op, V, R>) {
    s.row.Some? && forall c | c in s.calls :: !WillCreate(compute, s, c)
  }

  ghost predicate NeverOverwrites<Op(!new), V(!new), R(!new)>(
    compute: (Op, Option<V>) -> Computed<V, R>, s: System<Op, V, R>)
  {
    forall more, l | RunFrom(compute, s, more).Some? :: !Overwrites(compute, RunFrom(compute, s, more).value, l)
  }

  lemma StepStaysSettled<Op, V, R>(compute: (Op, Option<V>) -> Computed<V, R>, s: System<Op, V, R>, l: Label<Op>)
    requires Settled(compute, s) && Enabled(s, l)
    ensures Settled(compute, Apply(compute, s, l)) && s.log <= Apply(compute, s, l).log
    ensures Creations(Apply(compute, s, l).log) == Creations(s.log)
  {
    var s' := Apply(compute, s, l);
    forall c | c in s'.calls ensures !WillCreate(compute, s', c) {
      if c in s.calls { assert !WillCreate(compute, s, c); }
    }
    if l.Write? {
      assert !WillCreate(compute, s, l.call);
      WriteCreatesNone(compute, s, l.call);
    } else if l.Fail? {
      CreationsSnoc(s.log, Failed(l.call));
    }
  }

  lemma WriteCreatesNone<Op, V, R>(compute: (Op, Option<V>) -> Computed<V, R>, s: System<Op, V, R>, c: nat)
    requires c in s.calls && s.calls[c].Writing? && !WillCreate(compute, s, c)
    ensures s.log <= ApplyWrite(compute, s, c).log && Creations(ApplyWrite(compute, s, c).log) == Creations(s.log)
  {
    var p := s.calls[c];
    var result := compute(p.op, ValueOf(p.snapshot)).result;
    CreationsSnoc(s.log, ReturnedUnwritten(c, p.op, p.startedAt, p.readAt, result));
    CreationsSnoc(s.log, Committed(c, p.op, false, result));
    CreationsSnoc(s.log, Conflicted(c, p.readAt));
    CreationsSnoc(s.log + [Conflicted(c, p.readAt)], GaveUp(c, p.startedAt));
    assert s.log + [Conflicted(c, p.readAt)] + [GaveUp(c, p.startedAt)]
      == s.log + [Conflicted(c, p.readAt), GaveUp(c, p.startedAt)];
  }

  /** A settled row stays settled, and is never created again. */
  lemma {:induction false} StaysSettled<Op, V, R>(
      compute: (Op, Option<V>) -> Computed<V, R>, s: System<Op, V, R>, more: seq<Label<Op>>, s': System<Op, V, R>)
    requires Settled(compute, s) && RunFrom(compute, s, more) == Some(s')
    ensures Settled(compute, s') && s.log <= s'.log && Creations(s'.log) == Creations(s.log)
    decreases |more|
  {
    if more != [] {
      var mid := RunFrom(compute, s, more[..|more|-1]).value;
      StaysSettled(compute, s, more[..|more|-1], mid);
      StepStaysSettled(compute, mid, more[|more|-1]);
    }
  }

  lemma {:induction false} BoundOf(xs: set<nat>) returns (n: nat)
    ensures forall x | x in xs :: x < n
    decreases |xs|
  {
    if xs == {} {
      n := 0;
    } else {
      var x :| x in xs;
      var m := BoundOf(xs - {x});
      n := if m <= x then x + 1 else m;
      forall y | y in xs ensures y < n {
        if y != x { assert y in xs - {x}; }
      }
    }
  }

  /** A new call that reads the row. */
  lemma NewCallReads<Op, V, R>(
      compute: (Op, Option<V>) -> Computed<V, R>, s: System<Op, V, R>, more: seq<Label<Op>>, s1: System<Op, V, R>,
        op: Op)
      returns (c: nat, s2: System<Op, V, R>)
    requires RunFrom(compute, s, more) == Some(s1)
    ensures c !in s1.calls && RunFrom(compute, s, more + [Begin(c, op)] + [Read(c)]) == Some(s2)
    ensures s2 == s1.(calls := s1.calls[c := Writing(op, 0, |s1.log|, s1.row, |s1.log|)])
  {
    var n := BoundOf(s1.calls.Keys);
    c := n;
    assert c !in s1.calls.Keys;
    RunFromSnoc(compute, s, more, s1, Begin(c, op));
    var mid := Apply(compute, s1, Begin(c, op));
    RunFromSnoc(compute, s, more + [Begin(c, op)], mid, Read(c));
    s2 := Apply(compute, mid, Read(c));
    assert mid.calls[c := Writing(op, 0, |s1.log|, s1.row, |s1.log|)]
      == s1.calls[c := Writing(op, 0, |s1.log|, s1.row, |s1.log|)];
  }

  /** Two new calls find no row; the first creates it and the second overwrites it. */
  lemma TwoCreate<Op, V, R>(compute: (Op, Option<V>) -> Computed<V, R>, s: System<Op, V, R>, op: Op)
      returns (more: seq<Label<Op>>, l: Label<Op>)
    requires s.row.None? && Creates(compute, op)
    ensures RunFrom(compute, s, more).Some? && Overwrites(compute, RunFrom(compute, s, more).value, l)
  {
    var a, s1 := NewCallReads(compute, s, [], s, op);
    var first := [] + [Begin(a, op)] + [Read(a)];
    var b, s2 := NewCallReads(compute, s, first, s1, op);
    var both := first + [Begin(b, op)] + [Read(b)];
    RunFromSnoc(compute, s, both, s2, Write(a));
    more, l := both + [Write(a)], Write(b);
    assert Apply(compute, s2, Write(a)).calls[b] == s2.calls[b];
  }

  /**
   From any state, as long as some operation creates the row: no continuation ever
   overwrites a stored row unread if and only if the row is stored and no call in
   progress is about to create it.
   */
  lemma NeverOverwritesExactlyWhen<Op(!new), V(!new), R(!new)>(
      compute: (Op, Option<V>) -> Computed<V, R>, s: System<Op, V, R>, op: Op)
    requires Creates(compute, op)
    ensures NeverOverwrites(compute, s) <==> Settled(compute, s)
  {
    if Settled(compute, s) {
      forall more, l | RunFrom(compute, s, more).Some?
        ensures !Overwrites(compute, RunFrom(compute, s, more).value, l) {
        var s' := RunFrom(compute, s, more).value;
        StaysSettled(compute, s, more, s');
        if l.Write? { assert l.call in s'.calls ==> !WillCreate(compute, s', l.call); }
      }
    } else if s.row.None? {
      var more, l := TwoCreate(compute, s, op);
    } else {
      var c :| c in s.calls && WillCreate(compute, s, c);
      assert RunFrom(compute, s, []) == Some(s) && Overwrites(compute, s, Write(c));
    }
  }

  /** One call alone. */
  function Alone<Op>(c: nat, op: Op): seq<Label<Op>> { [] + [Begin(c, op)] + [Read(c)] + [Write(c)] }

  /** The first call before it writes. */
  function Creating<Op, V, R>(c: nat, op: Op): System<Op, V, R> {
    System(None, 0, map[c := Writing(op, 0, 0, None, 0)], [])
  }

  lemma FirstAloneReads<Op, V, R>(compute: (Op, Option<V>) -> Computed<V, R>, c: nat, op: Op)
    ensures Run(compute, [] + [Begin(c, op)] + [Read(c)]) == Some(Creating(c, op))
  {
    var s0: System<Op, V, R> := Init();
    var s1 := s0.(calls := map[c := Reading(op, 0, 0)]);
    assert Run(compute, []) == Some(s0);
    RunSnoc(compute, [], s0, Begin(c, op));
    assert Apply(compute, s0, Begin(c, op)) == s1;
    RunSnoc(compute, [] + [Begin(c, op)], s1, Read(c));
    assert Apply(compute, s1, Read(c)) == Creating(c, op);
  }

  /** The row is settled once the first call has created it before any other began. */
  lemma FirstAloneSettles<Op, V, R>(compute: (Op, Option<V>) -> Computed<V, R>, c: nat, op: Op)
      returns (s: System<Op, V, R>)
    requires Creates(compute, op)
    ensures Run(compute, Alone(c, op)) == Some(s) && Settled(compute, s)
    ensures s.log == [Committed(c, op, true, compute(op, None).result)] && Creations(s.log) == 1
  {
    FirstAloneReads(compute, c, op);
    s := ApplyWrite(compute, Creating(c, op), c);
    RunSnoc(compute, [] + [Begin(c, op)] + [Read(c)], Creating(c, op), Write(c));
    var e := Committed(c, op, true, compute(op, None).result);
    assert s.log == [] + [e] && s.calls == map[];
    CreationsSnoc([], e);
  }

  /** A row created before any other call begins is created once. */
  lemma {:induction false} CreatedOnce<Op, V, R>(
      compute: (Op, Option<V>) -> Computed<V, R>, c: nat, op: Op, more: seq<Label<Op>>, s: System<Op, V, R>)
    requires Creates(compute, op) && Run(compute, Alone(c, op) + more) == Some(s)
    ensures Settled(compute, s) && Creations(s.log) == 1
    ensures s.log != [] && s.log[0] == Committed(c, op, true, compute(op, None).result)
  {
    var s0 := FirstAloneSettles(compute, c, op);
    RunGoesOn(compute, Alone(c, op), more, s0);
    StaysSettled(compute, s0, more, s);
  }
}
