/**
 Work items and the in-memory peek-lock queue that carries them. Message ids
 `msg_1`, `msg_2`, ... are their numbers here.
 */
module WorkQueue {
  import opened Prelude

  // ---------------------------------------------------------------------
  // The envelope
  // ---------------------------------------------------------------------

  /** A field of a raw body: a string, or any other JSON value by its text. */
  datatype Field = Text(text: string) | Other(json: string)

  /** A raw body: the four fields that are looked at, `None` where absent. */
  datatype Raw =
    | NotAnObject
    | Object(itemType: Option<Field>, payload: Option<Field>, idempotencyKey: Option<Field>,
      correlationId: Option<Field>)

  datatype WorkItem = WorkItem(itemType: string, payload: Field, idempotencyKey: string, correlationId: string)

  predicate IsName(field: Option<Field>) { field.Some? && field.value.Text? && field.value.text != "" }

  function ParseWorkItem(raw: Raw): Option<WorkItem> {
    if raw.NotAnObject? then None
    else if !IsName(raw.itemType) then None
    else if !IsName(raw.idempotencyKey) then None
    else if !IsName(raw.correlationId) then None
    else if raw.payload.None? then None
    else Some(WorkItem(raw.itemType.value.text, raw.payload.value, raw.idempotencyKey.value.text,
      raw.correlationId.value.text))
  }

  // ---------------------------------------------------------------------
  // The queue
  // ---------------------------------------------------------------------

  datatype Reason = MalformedEnvelope | PoisonMessage | EscalationUnarmed | EscalationUnresolved
    | PipelineReason(text: string)

  datatype Message = Message(id: nat, body: Raw, deliveryCount: nat)
  datatype DeadLetter = DeadLetter(body: Raw, reason: Reason)
  datatype Queue = Queue(available: seq<Message>, inFlight: map<nat, Message>, dead: seq<DeadLetter>, sequence: nat,
    closed: bool)

  const EMPTY_QUEUE := Queue([], map[], [], 0, false)

  function Enqueue(q: Queue, body: Raw): (Queue, nat) {
    (q.(sequence := q.sequence + 1, available := q.available + [Message(q.sequence + 1, body, 0)]), q.sequence + 1)
  }

  function Receive(q: Queue): (Queue, Option<Message>) {
    if q.closed || q.available == [] then (q, None)
    else
      var m := q.available[0].(deliveryCount := q.available[0].deliveryCount + 1);
      (q.(available := q.available[1..], inFlight := q.inFlight[m.id := m]), Some(m))
  }

  function Complete(q: Queue, id: nat): Queue { q.(inFlight := q.inFlight - {id}) }

  function Abandon(q: Queue, id: nat): Queue {
    if id !in q.inFlight then q
    else q.(inFlight := q.inFlight - {id}, available := q.available + [q.inFlight[id]])
  }

  function DeadLetterIt(q: Queue, id: nat, reason: Reason): Queue {
    if id !in q.inFlight then q
    else q.(inFlight := q.inFlight - {id}, dead := q.dead + [DeadLetter(q.inFlight[id].body, reason)])
  }

  function Close(q: Queue): Queue { q.(closed := true, available := [], inFlight := map[]) }

  class InMemoryWorkItemQueue {
    var available: seq<Message>
    var inFlight: map<nat, Message>
    var dead: seq<DeadLetter>
    var sequence: nat
    var closed: bool

    function State(): Queue
      reads this
    {
      Queue(available, inFlight, dead, sequence, closed)
    }

    constructor ()
      ensures State() == EMPTY_QUEUE
    {
      available, inFlight, dead, sequence, closed := [], map[], [], 0, false;
    }

    method EnqueueBody(body: Raw) returns (id: nat)
      modifies this
      ensures (State(), id) == Enqueue(old(State()), body)
    {
      sequence := sequence + 1;
      id := sequence;
      available := available + [Message(id, body, 0)];
    }

    method ReceiveNext() returns (message: Option<Message>)
      modifies this
      ensures (State(), message) == Receive(old(State()))
    {
      if closed {
        return None;
      }
      if available == [] {
        return None;
      }
      var entry := available[0];
      available := available[1..];
      var m := Message(entry.id, entry.body, entry.deliveryCount + 1);
      inFlight := inFlight[m.id := m];
      message := Some(m);
    }

    method CompleteMessage(m: Message)
      modifies this
      ensures State() == Complete(old(State()), m.id)
    {
      inFlight := inFlight - {m.id};
    }

    method AbandonMessage(m: Message)
      modifies this
      ensures State() == Abandon(old(State()), m.id)
    {
      if m.id !in inFlight {
        return;
      }
      var entry := inFlight[m.id];
      inFlight := inFlight - {m.id};
      available := available + [entry];
    }

    method DeadLetterMessage(m: Message, reason: Reason)
      modifies this
      ensures State() == DeadLetterIt(old(State()), m.id, reason)
    {
      if m.id !in inFlight {
        return;
      }
      var entry := inFlight[m.id];
      inFlight := inFlight - {m.id};
      dead := dead + [DeadLetter(entry.body, reason)];
    }

    method CloseQueue()
      modifies this
      ensures State() == Close(old(State()))
    {
      closed := true;
      available := [];
      inFlight := map[];
    }
  }

  // ---------------------------------------------------------------------
  // Conservation
  // ---------------------------------------------------------------------

  /** The queue with what it forgets: enqueued bodies, deliveries, and which ids ended how. */
  datatype Books = Books(q: Queue, bodies: seq<Raw>, deliveries: seq<nat>, completed: seq<nat>, deadIds: seq<nat>,
    dropped: seq<nat>)

  /** Any call anyone may make, with any id: settling what is not in flight included. */
  datatype Op =
    | EnqueueOp(body: Raw) | ReceiveOp | CompleteOp(id: nat) | AbandonOp(id: nat)
      | DeadLetterOp(id: nat, reason: Reason) | CloseOp

  const EMPTY_BOOKS := Books(EMPTY_QUEUE, [], [], [], [], [])

  function Ids(s: seq<Message>): (ids: seq<nat>)
    ensures |ids| == |s| && forall i | 0 <= i < |s| :: ids[i] == s[i].id
  {
    seq(|s|, i requires 0 <= i < |s| => s[i].id)
  }

  ghost function SetToSeq(s: set<nat>): (r: seq<nat>)
    ensures multiset(r) == multiset(s)
  {
    if s == {} then [] else var x :| x in s; [x] + SetToSeq(s - {x})
  }

  ghost function Do(b: Books, op: Op): Books {
    match op
    case EnqueueOp(body) => b.(q := Enqueue(b.q, body).0, bodies := b.bodies + [body])
    case ReceiveOp =>
      var (q, m) := Receive(b.q);
      b.(q := q, deliveries := if m.Some? then b.deliveries + [m.value.id] else b.deliveries)
    case CompleteOp(id) =>
      b.(q := Complete(b.q, id), completed := if id in b.q.inFlight then b.completed + [id] else b.completed)
    case AbandonOp(id) => b.(q := Abandon(b.q, id))
    case DeadLetterOp(id, reason) =>
      b.(q := DeadLetterIt(b.q, id, reason), deadIds := if id in b.q.inFlight then b.deadIds + [id] else b.deadIds)
    case CloseOp =>
      b.(q := Close(b.q), dropped := b.dropped + Ids(b.q.available) + SetToSeq(b.q.inFlight.Keys))
  }

  ghost function DoAll(ops: seq<Op>): Books
    decreases |ops|
  {
    if ops == [] then EMPTY_BOOKS else Do(DoAll(ops[..|ops|-1]), ops[|ops|-1])
  }

  function UpTo(n: nat): multiset<nat> { if n == 0 then multiset{} else UpTo(n - 1) + multiset{n} }

  /** Where every id is: waiting, in flight, completed, dead or dropped by a close. */
  ghost function Whereabouts(b: Books): multiset<nat> {
    multiset(Ids(b.q.available)) + multiset(b.q.inFlight.Keys) + multiset(b.completed) + multiset(b.deadIds)
      + multiset(b.dropped)
  }

  ghost predicate Accounted(b: Books, m: Message) {
    1 <= m.id <= |b.bodies| && m.body == b.bodies[m.id - 1] && m.deliveryCount == multiset(b.deliveries)[m.id]
  }

  ghost predicate Labelled(b: Books) {
    && |b.bodies| == b.q.sequence
    && (forall i | 0 <= i < |b.q.available| :: Accounted(b, b.q.available[i]))
    && (forall id | id in b.q.inFlight :: b.q.inFlight[id].id == id && Accounted(b, b.q.inFlight[id]))
    && (forall id | id in b.deliveries :: 1 <= id <= |b.bodies|)
    && |b.q.dead| == |b.deadIds|
    && (forall k | 0 <= k < |b.deadIds| ::
      1 <= b.deadIds[k] <= |b.bodies| && b.q.dead[k].body == b.bodies[b.deadIds[k] - 1])
  }

  /** Every enqueued id is in exactly one place, with its body and the true count of its deliveries. */
  ghost predicate Conserved(b: Books) { Whereabouts(b) == UpTo(b.q.sequence) && Labelled(b) }

  lemma {:induction false} UpToCounts(n: nat, id: nat)
    ensures UpTo(n)[id] == if 1 <= id <= n then 1 else 0
    ensures |UpTo(n)| == n
  {
    if n > 0 { UpToCounts(n - 1, id); }
  }

  lemma IdsAppend(s: seq<Message>, m: Message)
    ensures multiset(Ids(s + [m])) == multiset(Ids(s)) + multiset{m.id}
  {
    assert Ids(s + [m]) == Ids(s) + [m.id];
  }

  lemma IdsFirst(s: seq<Message>)
    requires s != []
    ensures multiset(Ids(s)) == multiset(Ids(s[1..])) + multiset{s[0].id}
  {
    assert Ids(s) == [s[0].id] + Ids(s[1..]);
  }

  lemma KeysLose(m: map<nat, Message>, id: nat)
    requires id in m
    ensures multiset(m.Keys) == multiset((m - {id}).Keys) + multiset{id}
  {}

  /** An available id is nowhere else. */
  lemma AvailableIsNotInFlight(b: Books, i: nat)
    requires Conserved(b) && i < |b.q.available|
    ensures b.q.available[i].id !in b.q.inFlight
    ensures forall j | 0 <= j < |b.q.available| && j != i :: b.q.available[j].id != b.q.available[i].id
  {
    var id := b.q.available[i].id;
    UpToCounts(b.q.sequence, id);
    var ids: seq<nat> := Ids(b.q.available);
    assert ids[i] == id;
    assert multiset(ids)[id] <= 1;
    forall j | 0 <= j < |ids| && j != i ensures ids[j] != id {
      if ids[j] == id { TwiceCounts(ids, i, j); }
    }
  }

  lemma TwiceCounts(s: seq<nat>, i: nat, j: nat)
    requires i < |s| && j < |s| && i != j && s[i] == s[j]
    ensures multiset(s)[s[i]] >= 2
  {
    var lo, hi := if i < j then i else j, if i < j then j else i;
    assert s == s[..lo] + [s[lo]] + s[lo+1..hi] + [s[hi]] + s[hi+1..];
  }

  /** Moving one id from one place to another keeps the sum. */
  lemma Move(from: multiset<nat>, from': multiset<nat>, to: multiset<nat>, to': multiset<nat>, rest: multiset<nat>,
      id: nat)
    requires from == from' + multiset{id} && to' == to + multiset{id}
    ensures from' + to' + rest == from + to + rest
  {}

  lemma Grow(a: multiset<nat>, b: multiset<nat>, c: multiset<nat>, d: multiset<nat>, e: multiset<nat>, id: nat)
    ensures (a + multiset{id}) + b + c + d + e == (a + b + c + d + e) + multiset{id}
  {}

  lemma Reorder(a: multiset<nat>, b: multiset<nat>, c: multiset<nat>, d: multiset<nat>, e: multiset<nat>)
    ensures a + b + c + d + e == a + b + (c + d + e)
    ensures a + b + c + d + e == b + c + (a + d + e)
    ensures a + b + c + d + e == b + d + (a + c + e)
    ensures a + b + c + d + e == b + a + (c + d + e)
  {}

  /** The places of `b'` are those of `b` with `id` moved out of flight. */
  lemma OutOfFlight(b: Books, b': Books, id: nat)
    requires id in b.q.inFlight && b'.q.inFlight == b.q.inFlight - {id} && b'.dropped == b.dropped
    requires
      var av, av' := multiset(Ids(b.q.available)), multiset(Ids(b'.q.available));
      var c, c' := multiset(b.completed), multiset(b'.completed);
      var d, d' := multiset(b.deadIds), multiset(b'.deadIds);
      || (av' == av + multiset{id} && c' == c && d' == d)
      || (av' == av && c' == c + multiset{id} && d' == d)
      || (av' == av && c' == c && d' == d + multiset{id})
    ensures Whereabouts(b') == Whereabouts(b)
  {
    var av, av' := multiset(Ids(b.q.available)), multiset(Ids(b'.q.available));
    var f, f' := multiset(b.q.inFlight.Keys), multiset(b'.q.inFlight.Keys);
    var c, c' := multiset(b.completed), multiset(b'.completed);
    var d, d' := multiset(b.deadIds), multiset(b'.deadIds);
    var x := multiset(b.dropped);
    KeysLose(b.q.inFlight, id);
    Reorder(av, f, c, d, x);
    Reorder(av', f', c', d', x);
    if c' == c && d' == d {
      Move(f, f', av, av', c + d + x, id);
    } else if av' == av && d' == d {
      Move(f, f', c, c', av + d + x, id);
    } else {
      Move(f, f', d, d', av + c + x, id);
    }
  }

  /** What is written about a message stays true when its own deliveries do not grow. */
  lemma AccountedStays(b: Books, b': Books, m: Message)
    requires Accounted(b, m) && b.bodies <= b'.bodies && multiset(b'.deliveries)[m.id] == multiset(b.deliveries)[m.id]
    ensures Accounted(b', m)
  {}

  lemma EnqueueConserves(b: Books, body: Raw)
    requires Conserved(b)
    ensures Conserved(Do(b, EnqueueOp(body)))
  {
    var n := b.q.sequence + 1;
    var b' := Do(b, EnqueueOp(body));
    IdsAppend(b.q.available, Message(n, body, 0));
    Grow(multiset(Ids(b.q.available)), multiset(b.q.inFlight.Keys), multiset(b.completed), multiset(b.deadIds),
         multiset(b.dropped), n);
    assert Whereabouts(b') == UpTo(b.q.sequence) + multiset{n};
    EnqueueLabels(b, body);
  }

  lemma EnqueueLabels(b: Books, body: Raw)
    requires Labelled(b)
    ensures Labelled(Do(b, EnqueueOp(body)))
  {
    var b' := Do(b, EnqueueOp(body));
    assert b.q.sequence + 1 !in b.deliveries;
    forall i | 0 <= i < |b'.q.available| ensures Accounted(b', b'.q.available[i]) {
      if i < |b.q.available| { AccountedStays(b, b', b.q.available[i]); }
    }
    forall id | id in b'.q.inFlight ensures Accounted(b', b'.q.inFlight[id]) {
      AccountedStays(b, b', b.q.inFlight[id]);
    }
  }

  lemma ReceiveConserves(b: Books)
    requires Conserved(b)
    ensures Conserved(Do(b, ReceiveOp))
  {
    var (q, got) := Receive(b.q);
    if got.Some? {
      var id := got.value.id;
      var b' := Do(b, ReceiveOp);
      AvailableIsNotInFlight(b, 0);
      IdsFirst(b.q.available);
      assert q.inFlight - {id} == b.q.inFlight;
      KeysLose(q.inFlight, id);
      var av, av' := multiset(Ids(b.q.available)), multiset(Ids(q.available));
      var f, f' := multiset(b.q.inFlight.Keys), multiset(q.inFlight.Keys);
      var c, d, x := multiset(b.completed), multiset(b.deadIds), multiset(b.dropped);
      Move(av, av', f, f', c + d + x, id);
      Reorder(av, f, c, d, x);
      Reorder(av', f', c, d, x);
      ReceiveLabels(b);
    }
  }

  lemma ReceiveLabels(b: Books)
    requires Labelled(b) && Receive(b.q).1.Some?
    requires b.q.available[0].id !in b.q.inFlight
    requires forall j | 0 < j < |b.q.available| :: b.q.available[j].id != b.q.available[0].id
    ensures Labelled(Do(b, ReceiveOp))
  {
    var q := Receive(b.q).0;
    var m := Receive(b.q).1.value;
    var b' := Do(b, ReceiveOp);
    assert multiset(b'.deliveries) == multiset(b.deliveries) + multiset{m.id};
    assert Accounted(b, b.q.available[0]);
    forall i | 0 <= i < |q.available| ensures Accounted(b', q.available[i]) {
      AccountedStays(b, b', b.q.available[i + 1]);
    }
    forall id | id in q.inFlight ensures q.inFlight[id].id == id && Accounted(b', q.inFlight[id]) {
      if id != m.id { AccountedStays(b, b', b.q.inFlight[id]); }
    }
  }

  lemma SettleConserves(b: Books, op: Op)
    requires Conserved(b) && (op.CompleteOp? || op.AbandonOp? || op.DeadLetterOp?)
    ensures Conserved(Do(b, op))
  {
    var b' := Do(b, op);
    if op.id in b.q.inFlight {
      IdsAppend(b.q.available, b.q.inFlight[op.id]);
      OutOfFlight(b, b', op.id);
      SettleLabels(b, op);
    } else {
      assert b.q.inFlight - {op.id} == b.q.inFlight;
      assert b' == b;
    }
  }

  lemma SettleLabels(b: Books, op: Op)
    requires Labelled(b) && (op.CompleteOp? || op.AbandonOp? || op.DeadLetterOp?) && op.id in b.q.inFlight
    ensures Labelled(Do(b, op))
  {
    var b' := Do(b, op);
    assert Accounted(b, b.q.inFlight[op.id]);
    forall id | id in b'.q.inFlight ensures b'.q.inFlight[id].id == id && Accounted(b', b'.q.inFlight[id]) {
      AccountedStays(b, b', b.q.inFlight[id]);
    }
    forall i | 0 <= i < |b'.q.available| ensures Accounted(b', b'.q.available[i]) {
      if i < |b.q.available| { AccountedStays(b, b', b.q.available[i]); }
      else { AccountedStays(b, b', b.q.inFlight[op.id]); }
    }
  }

  lemma CloseConserves(b: Books)
    requires Conserved(b)
    ensures Conserved(Do(b, CloseOp))
  {
    var b' := Do(b, CloseOp);
    assert Ids(b'.q.available) == [];
    assert multiset(b'.dropped) == multiset(b.dropped) + multiset(Ids(b.q.available)) + multiset(b.q.inFlight.Keys);
  }

  lemma OpConserves(b: Books, op: Op)
    requires Conserved(b)
    ensures Conserved(Do(b, op))
  {
    match op
    case EnqueueOp(body) => EnqueueConserves(b, body);
    case ReceiveOp => ReceiveConserves(b);
    case CloseOp => CloseConserves(b);
    case _ => SettleConserves(b, op);
  }

  /** Whatever is called in whatever order, nothing is lost, duplicated or mislabelled. */
  lemma {:induction false} Conservation(ops: seq<Op>)
    ensures Conserved(DoAll(ops))
    decreases |ops|
  {
    if ops == [] {
      assert Ids([]) == [];
    } else {
      Conservation(ops[..|ops|-1]);
      OpConserves(DoAll(ops[..|ops|-1]), ops[|ops|-1]);
    }
  }

  predicate OneOf(a: bool, b: bool, c: bool, d: bool, e: bool) {
    (if a then 1 else 0) + (if b then 1 else 0) + (if c then 1 else 0) + (if d then 1 else 0) + (if e then 1 else 0)
      == 1
  }

  /** Every id ever returned by an enqueue, and no other, is in exactly one place, and the counts add up. */
  lemma EveryIdInExactlyOnePlace(ops: seq<Op>, id: nat)
    ensures
      var b := DoAll(ops);
      1 <= id <= b.q.sequence <==>
        OneOf(id in Ids(b.q.available), id in b.q.inFlight, id in b.completed, id in b.deadIds, id in b.dropped)
    ensures
      var b := DoAll(ops);
      b.q.sequence == |b.q.available| + |b.q.inFlight| + |b.completed| + |b.q.dead| + |b.dropped|
  {
    Conservation(ops);
    var b := DoAll(ops);
    UpToCounts(b.q.sequence, id);
    var ids: seq<nat> := Ids(b.q.available);
    assert id in ids <==> multiset(ids)[id] > 0;
    assert id in b.q.inFlight <==> multiset(b.q.inFlight.Keys)[id] > 0;
    assert id in b.completed <==> multiset(b.completed)[id] > 0;
    assert id in b.deadIds <==> multiset(b.deadIds)[id] > 0;
    assert id in b.dropped <==> multiset(b.dropped)[id] > 0;
    assert Whereabouts(b)[id] == UpTo(b.q.sequence)[id];
    assert |Whereabouts(b)| == b.q.sequence;
    assert |b.q.inFlight| == |b.q.inFlight.Keys|;
  }
}
