/**
 Approvals: the session store's approval rows, the destructive-call gate that
 creates, awaits and consumes them, and why no approval is ever spent twice.
 */
module Approvals {
  import opened Prelude

  datatype Decision = Approved | Denied

  /** `boundRef` is the `draft_ref` its params name, when they name one. */
  datatype Approval = Approval(
    id: string, correlationId: string, serverAlias: string, toolName: string, boundRef: Option<string>,
    requestedAt: int, timeoutAt: int, requestHash: string,
    decision: Option<Decision>, approverId: Option<string>, consumedAt: Option<int>)

  // ---------------------------------------------------------------------
  // Rows, in insertion order
  // ---------------------------------------------------------------------

  function IndexOf(rows: seq<Approval>, id: string): (i: nat)
    ensures i <= |rows|
    ensures i < |rows| ==> rows[i].id == id
    ensures forall j | 0 <= j < i :: rows[j].id != id
  {
    if rows == [] || rows[0].id == id then 0 else 1 + IndexOf(rows[1..], id)
  }

  function Get(rows: seq<Approval>, id: string): (r: Option<Approval>)
    ensures r.Some? ==> r.value in rows && r.value.id == id
    ensures r.None? ==> forall a | a in rows :: a.id != id
  {
    var i := IndexOf(rows, id);
    if i < |rows| then Some(rows[i]) else None
  }

  /** The most recently requested row of a hash; of equals, the first inserted. */
  ghost predicate IsNewest(rows: seq<Approval>, hash: string, i: int) {
    && 0 <= i < |rows| && rows[i].requestHash == hash
    && (forall j | 0 <= j < |rows| && rows[j].requestHash == hash ::
          rows[j].requestedAt <= rows[i].requestedAt && (j < i ==> rows[j].requestedAt < rows[i].requestedAt))
  }

  function Newest(rows: seq<Approval>, hash: string): (i: int)
    ensures i == -1 ==> forall j | 0 <= j < |rows| :: rows[j].requestHash != hash
    ensures i != -1 ==> IsNewest(rows, hash, i)
    decreases |rows|
  {
    if rows == [] then -1
    else
      var last := |rows| - 1;
      var i := Newest(rows[..last], hash);
      if rows[last].requestHash == hash && (i == -1 || rows[last].requestedAt > rows[i].requestedAt) then last else i
  }

  function ByRequestHash(rows: seq<Approval>, hash: string): (r: Option<Approval>)
    ensures r.None? <==> forall a | a in rows :: a.requestHash != hash
    ensures r.Some? ==> r.value in rows && r.value.requestHash == hash
  {
    var i := Newest(rows, hash);
    if i == -1 then None else Some(rows[i])
  }

  /** A new id goes last; a known one would be replaced where it is. */
  function Create(rows: seq<Approval>, approval: Approval): seq<Approval> {
    var i := IndexOf(rows, approval.id);
    if i < |rows| then rows[i := approval] else rows + [approval]
  }

  function Resolve(rows: seq<Approval>, id: string, decision: Decision, approver: Option<string>): seq<Approval> {
    var i := IndexOf(rows, id);
    if i == |rows| then rows
    else
      rows[i := rows[i].(decision := Some(decision),
                         approverId := if approver.Some? then approver else rows[i].approverId)]
  }

  function MarkConsumed(rows: seq<Approval>, id: string, at: int): seq<Approval> {
    var i := IndexOf(rows, id);
    if i == |rows| then rows else rows[i := rows[i].(consumedAt := Some(at))]
  }

  class ApprovalStore {
    var approvals: seq<Approval>

    constructor ()
      ensures approvals == []
    {
      approvals := [];
    }

    method CreateApproval(approval: Approval)
      modifies this
      ensures approvals == Create(old(approvals), approval)
    {
      var i := IndexOf(approvals, approval.id);
      if i < |approvals| {
        approvals := approvals[i := approval];
      } else {
        approvals := approvals + [approval];
      }
    }

    method GetApproval(id: string) returns (r: Option<Approval>)
      ensures r == Get(approvals, id)
    {
      r := Get(approvals, id);
    }

    method GetApprovalByRequestHash(hash: string) returns (best: Option<Approval>)
      ensures best == ByRequestHash(approvals, hash)
    {
      var at := -1;
      best := None;
      for k := 0 to |approvals|
        invariant at == Newest(approvals[..k], hash)
        invariant best == if at == -1 then None else Some(approvals[at])
      {
        assert approvals[..k+1][..k] == approvals[..k];
        if approvals[k].requestHash == hash {
          if best.None? || approvals[k].requestedAt > best.value.requestedAt {
            best := Some(approvals[k]);
            at := k;
          }
        }
      }
      assert approvals[..|approvals|] == approvals;
    }

    method ResolveApproval(id: string, decision: Decision, approver: Option<string>)
      modifies this
      ensures approvals == Resolve(old(approvals), id, decision, approver)
    {
      var i := IndexOf(approvals, id);
      if i < |approvals| {
        var approval := approvals[i].(decision := Some(decision));
        if approver.Some? {
          approval := approval.(approverId := approver);
        }
        approvals := approvals[i := approval];
      }
    }

    method MarkApprovalConsumed(id: string, at: int)
      modifies this
      ensures approvals == MarkConsumed(old(approvals), id, at)
    {
      var i := IndexOf(approvals, id);
      if i < |approvals| {
        approvals := approvals[i := approvals[i].(consumedAt := Some(at))];
      }
    }
  }

  // ---------------------------------------------------------------------
  // The gates
  // ---------------------------------------------------------------------

  /** A call as a gate sees it: what it would ask approval for, and when it reads the clock. */
  datatype Request = Request(
    hash: string, correlationId: string, serverAlias: string, toolName: string, boundRef: Option<string>,
    freshId: string, checkedAt: int, stampedAt: int, timeoutMs: int)

  function NewApproval(q: Request): Approval {
    Approval(q.freshId, q.correlationId, q.serverAlias, q.toolName, q.boundRef,
             q.stampedAt, q.stampedAt + q.timeoutMs, q.hash, None, None, None)
  }

  datatype GateStatus = Executes(id: string) | TimedOut(id: string) | DeniedByOperator(id: string)
    | AwaitsHuman(id: string)

  predicate Live(a: Approval) { a.decision == Some(Approved) && a.consumedAt.None? }

  /** The toolshed's gate on a destructive call. */
  function GateDestructiveCall(rows: seq<Approval>, q: Request): (seq<Approval>, GateStatus) {
    var existing := ByRequestHash(rows, q.hash);
    if existing.Some? && Live(existing.value) then
      if existing.value.timeoutAt < q.checkedAt then (rows, TimedOut(existing.value.id))
      else (MarkConsumed(rows, existing.value.id, q.stampedAt), Executes(existing.value.id))
    else if existing.Some? && existing.value.decision == Some(Denied) then (rows, DeniedByOperator(existing.value.id))
    else if existing.Some? && existing.value.decision == None then
      if existing.value.timeoutAt < q.checkedAt then (rows, TimedOut(existing.value.id))
      else (rows, AwaitsHuman(existing.value.id))
    else (Create(rows, NewApproval(q)), AwaitsHuman(q.freshId))
  }

  const SERVER_ALIAS := "effect_gateway"
  const COMMIT_EFFECT := "commit_effect"
  const DISCARD_EFFECT := "discard_effect"
  const REVIEW_COMMIT := "review_commit"

  datatype Problem =
    | NoApprovalStore | NotFound | NotApproved | WrongTool | WrongDraft | UnnamedApprover | ApprovalTimedOut
    | DeniedRequest | NoResolvedApproval

  /** A named human, an obstacle, or an approval still to be decided; `used` is the approval the human comes from. */
  datatype Resolution =
    | Named(approverId: string, used: Approval)
    | Obstacle(problem: Problem)
    | Pending(id: string)

  function HumanActorFromApproval(approval: Option<Approval>, tool: string, ref: string): Resolution {
    if approval.None? then Obstacle(NotFound)
    else
      var a := approval.value;
      if a.decision != Some(Approved) then Obstacle(NotApproved)
      else if a.serverAlias != SERVER_ALIAS || a.toolName != tool then Obstacle(WrongTool)
      else if a.boundRef.Some? && a.boundRef.value != ref then Obstacle(WrongDraft)
      else if a.approverId.None? || a.approverId.value == "" then Obstacle(UnnamedApprover)
      else Named(a.approverId.value, a)
  }

  /** `a` lets a named human decide draft `ref` through `tool`. */
  predicate Authorises(a: Approval, approverId: string, tool: string, ref: string) {
    && a.decision == Some(Approved) && a.serverAlias == SERVER_ALIAS && a.toolName == tool
    && (a.boundRef.Some? ==> a.boundRef.value == ref)
    && a.approverId == Some(approverId) && approverId != ""
  }

  lemma HumanIsAuthorised(approval: Option<Approval>, tool: string, ref: string)
    ensures
      var r := HumanActorFromApproval(approval, tool, ref);
      && !r.Pending?
      && (r.Named? <==> approval.Some? && exists who :: Authorises(approval.value, who, tool, ref))
      && (r.Named? ==> approval == Some(r.used) && Authorises(r.used, r.approverId, tool, ref))
  {
    var r := HumanActorFromApproval(approval, tool, ref);
    if r.Named? { assert Authorises(r.used, r.approverId, tool, ref); }
  }

  /** The effect gateway's resolution of the human behind a commit. */
  function ResolveCommitApproval(hasStore: bool, rows: seq<Approval>, approvalId: Option<string>, ref: string,
      q: Request)
    : (seq<Approval>, Resolution)
  {
    if !hasStore then (rows, Obstacle(NoApprovalStore))
    else if approvalId.Some? && approvalId.value != "" then
      (rows, HumanActorFromApproval(Get(rows, approvalId.value), COMMIT_EFFECT, ref))
    else
      var existing := ByRequestHash(rows, q.hash);
      if existing.Some? && Live(existing.value) then
        if existing.value.timeoutAt < q.checkedAt then (rows, Obstacle(ApprovalTimedOut))
        else
          var resolved := HumanActorFromApproval(existing, COMMIT_EFFECT, ref);
          (if resolved.Named? then MarkConsumed(rows, existing.value.id, q.stampedAt) else rows, resolved)
      else if existing.Some? && existing.value.decision == Some(Denied) then (rows, Obstacle(DeniedRequest))
      else if existing.Some? && existing.value.decision == None then
        if existing.value.timeoutAt < q.checkedAt then (rows, Obstacle(ApprovalTimedOut))
          else (rows, Pending(existing.value.id))
      else (Create(rows, NewApproval(q)), Pending(q.freshId))
  }

  function ResolveDiscardApproval(hasStore: bool, rows: seq<Approval>, approvalId: Option<string>,
      ref: string): Resolution
  {
    if approvalId.None? || approvalId.value == "" then Obstacle(NoResolvedApproval)
    else if !hasStore then Obstacle(NoApprovalStore)
    else HumanActorFromApproval(Get(rows, approvalId.value), DISCARD_EFFECT, ref)
  }

  class Toolshed {
    const store: ApprovalStore

    constructor (store: ApprovalStore)
      ensures this.store == store
    {
      this.store := store;
    }

    method Gate(q: Request) returns (status: GateStatus)
      modifies store
      ensures (store.approvals, status) == GateDestructiveCall(old(store.approvals), q)
    {
      var existing := store.GetApprovalByRequestHash(q.hash);
      if existing.Some? && existing.value.decision == Some(Approved) && existing.value.consumedAt.None? {
        if existing.value.timeoutAt < q.checkedAt {
          return TimedOut(existing.value.id);
        }
        store.MarkApprovalConsumed(existing.value.id, q.stampedAt);
        return Executes(existing.value.id);
      }
      if existing.Some? && existing.value.decision == Some(Denied) {
        return DeniedByOperator(existing.value.id);
      }
      if existing.Some? && existing.value.decision.None? {
        if existing.value.timeoutAt < q.checkedAt {
          return TimedOut(existing.value.id);
        }
        return AwaitsHuman(existing.value.id);
      }
      store.CreateApproval(NewApproval(q));
      status := AwaitsHuman(q.freshId);
    }
  }

  // ---------------------------------------------------------------------
  // Runs: both gates and the operators on one store
  // ---------------------------------------------------------------------

  /** One permission to execute, granted on the strength of a hash-matched approval. */
  datatype Grant = Grant(id: string, hash: string)

  /** One permission to commit draft `ref`, granted on an approval the caller named by its id. */
  datatype Naming = Naming(id: string, approverId: string, ref: string)

  datatype System = System(rows: seq<Approval>, grants: seq<Grant>, namings: seq<Naming>)

  /** A commit that names its approval is a `CommitById`. An empty id names none: that is a `Commit`. */
  datatype Label =
    | ToolCall(q: Request)
    | Commit(q: Request, ref: string)
    | CommitById(q: Request, id: string, ref: string)
    | Operator(id: string, decision: Decision, approver: Option<string>)

  /** Ids are random: a fresh one is not in use. */
  ghost predicate Enabled(s: System, l: Label) {
    && (!l.Operator? ==> forall a | a in s.rows :: a.id != l.q.freshId)
    && (l.CommitById? ==> l.id != "")
  }

  /** The call is matched to an approval by its hash. */
  predicate Matches(l: Label) { l.ToolCall? || l.Commit? }

  function Apply(s: System, l: Label): System {
    match l
    case ToolCall(q) =>
      var (rows, status) := GateDestructiveCall(s.rows, q);
      s.(rows := rows, grants := if status.Executes? then s.grants + [Grant(status.id, q.hash)] else s.grants)
    case Commit(q, ref) =>
      var (rows, resolution) := ResolveCommitApproval(true, s.rows, None, ref, q);
      s.(rows := rows, grants := if resolution.Named? then s.grants + [Grant(resolution.used.id, q.hash)] else s.grants)
    case CommitById(q, id, ref) =>
      var (rows, resolution) := ResolveCommitApproval(true, s.rows, Some(id), ref, q);
      s.(rows := rows,
         namings := if resolution.Named? then s.namings + [Naming(id, resolution.approverId, ref)] else s.namings)
    case Operator(id, decision, approver) => s.(rows := Resolve(s.rows, id, decision, approver))
  }

  ghost function Run(labels: seq<Label>): Option<System>
    decreases |labels|
  {
    if labels == [] then Some(System([], [], []))
    else
      var before := Run(labels[..|labels|-1]);
      var l := labels[|labels|-1];
      if before.Some? && Enabled(before.value, l) then Some(Apply(before.value, l)) else None
  }

  lemma {:induction false} RunSnoc(labels: seq<Label>, s: System, l: Label)
    requires Run(labels) == Some(s) && Enabled(s, l)
    ensures Run(labels + [l]) == Some(Apply(s, l))
  {
    assert (labels + [l])[..|labels|] == labels;
  }

  /** How many approvals of `hash` are consumed. */
  function Consumed(rows: seq<Approval>, hash: string): nat
    decreases |rows|
  {
    if rows == [] then 0
    else Consumed(rows[..|rows|-1], hash)
         + (if rows[|rows|-1].requestHash == hash && rows[|rows|-1].consumedAt.Some? then 1 else 0)
  }

  function Granted(grants: seq<Grant>, hash: string): nat
    decreases |grants|
  {
    if grants == [] then 0 else Granted(grants[..|grants|-1], hash) + (if grants[|grants|-1].hash == hash then 1 else 0)
  }

  ghost predicate DistinctIds(rows: seq<Approval>) { forall i, j | 0 <= i < j < |rows| :: rows[i].id != rows[j].id }

  ghost predicate Spent(rows: seq<Approval>, g: Grant) {
    exists i :: 0 <= i < |rows| && rows[i].id == g.id && rows[i].requestHash == g.hash && rows[i].consumedAt.Some?
  }

  ghost predicate Inv(s: System) {
    && DistinctIds(s.rows)
    && (forall i | 0 <= i < |s.grants| :: Spent(s.rows, s.grants[i]))
    && (forall i, j | 0 <= i < j < |s.grants| :: s.grants[i].id != s.grants[j].id)
    && (forall hash :: Granted(s.grants, hash) == Consumed(s.rows, hash))
  }

  /** Row `i` may change, but not who it is nor what it is for. */
  lemma {:induction false} ConsumedUpdate(rows: seq<Approval>, i: nat, a: Approval, hash: string)
    requires i < |rows| && a.requestHash == rows[i].requestHash
    ensures Consumed(rows[i := a], hash) + (if rows[i].requestHash == hash && rows[i].consumedAt.Some? then 1 else 0)
         == Consumed(rows, hash) + (if a.requestHash == hash && a.consumedAt.Some? then 1 else 0)
    decreases |rows|
  {
    var last := |rows| - 1;
    if i < last {
      ConsumedUpdate(rows[..last], i, a, hash);
      assert rows[i := a][..last] == rows[..last][i := a];
    } else {
      assert rows[i := a][..last] == rows[..last];
    }
  }

  lemma FreshIsLast(rows: seq<Approval>, id: string)
    requires forall a | a in rows :: a.id != id
    ensures IndexOf(rows, id) == |rows|
  {}

  lemma AppendKeepsBooks(rows: seq<Approval>, a: Approval, g: Grant)
    requires a.consumedAt.None?
    ensures Spent(rows, g) ==> Spent(rows + [a], g)
    ensures forall hash :: Consumed(rows + [a], hash) == Consumed(rows, hash)
  {
    assert (rows + [a])[..|rows|] == rows;
    if Spent(rows, g) {
      var k :| 0 <= k < |rows| && rows[k].id == g.id && rows[k].requestHash == g.hash && rows[k].consumedAt.Some?;
      assert (rows + [a])[k] == rows[k];
    }
  }

  lemma CreateKeeps(s: System, a: Approval)
    requires Inv(s) && (forall r | r in s.rows :: r.id != a.id) && a.consumedAt.None?
    ensures Inv(s.(rows := Create(s.rows, a)))
  {
    FreshIsLast(s.rows, a.id);
    forall i | 0 <= i < |s.grants| ensures Spent(s.rows + [a], s.grants[i]) {
      AppendKeepsBooks(s.rows, a, s.grants[i]);
    }
    AppendKeepsBooks(s.rows, a, Grant("", ""));
    assert forall j | 0 <= j < |s.rows| :: s.rows[j] in s.rows;
  }

  lemma ResolveKeeps(s: System, id: string, decision: Decision, approver: Option<string>)
    requires Inv(s)
    ensures Inv(s.(rows := Resolve(s.rows, id, decision, approver)))
  {
    var rows := Resolve(s.rows, id, decision, approver);
    var i := IndexOf(s.rows, id);
    if i < |s.rows| {
      forall hash ensures Consumed(rows, hash) == Consumed(s.rows, hash) { ConsumedUpdate(s.rows, i, rows[i], hash); }
      forall g | 0 <= g < |s.grants| ensures Spent(rows, s.grants[g]) {
        assert Spent(s.rows, s.grants[g]);
        var k :| 0 <= k < |s.rows| && s.rows[k].id == s.grants[g].id && s.rows[k].requestHash == s.grants[g].hash
                 && s.rows[k].consumedAt.Some?;
        assert rows[k].id == s.rows[k].id && rows[k].consumedAt == s.rows[k].consumedAt;
      }
    }
  }

  /** Consuming a live approval and granting once keeps the books. */
  lemma ConsumeKeeps(s: System, n: int, at: int)
    requires Inv(s) && 0 <= n < |s.rows| && s.rows[n].consumedAt.None?
    ensures Inv(s.(rows := MarkConsumed(s.rows, s.rows[n].id, at),
                   grants := s.grants + [Grant(s.rows[n].id, s.rows[n].requestHash)]))
  {
    var id, hash := s.rows[n].id, s.rows[n].requestHash;
    assert IndexOf(s.rows, id) == n;
    var rows := MarkConsumed(s.rows, id, at);
    var g := Grant(id, hash);
    var grants := s.grants + [g];
    forall i | 0 <= i < |s.grants| ensures Spent(rows, s.grants[i]) && s.grants[i].id != id {
      assert Spent(s.rows, s.grants[i]);
      var k :| 0 <= k < |s.rows| && s.rows[k].id == s.grants[i].id && s.rows[k].requestHash == s.grants[i].hash
               && s.rows[k].consumedAt.Some?;
      assert rows[k].id == s.grants[i].id && rows[k].consumedAt.Some?;
    }
    assert rows[n].id == id && rows[n].consumedAt.Some?;
    assert Spent(rows, g);
    assert grants[..|grants|-1] == s.grants;
    forall h ensures Granted(grants, h) == Consumed(rows, h) { ConsumedUpdate(s.rows, n, rows[n], h); }
  }

  lemma StepKeepsInv(s: System, l: Label)
    requires Inv(s) && Enabled(s, l)
    ensures Inv(Apply(s, l))
  {
    match l
    case Operator(id, decision, approver) => ResolveKeeps(s, id, decision, approver);
    case ToolCall(q) => ToolCallKeeps(s, q);
    case Commit(q, ref) => CommitKeeps(s, q, ref);
    case CommitById(_, _, _) =>
  }

  /** What either gate may do to the rows: spend the newest, leave all as it is, or ask anew. */
  ghost predicate GateShape(rows: seq<Approval>, q: Request, rows': seq<Approval>, granted: Option<string>) {
    var n := Newest(rows, q.hash);
    if granted.Some? then
      n != -1 && Live(rows[n]) && granted.value == rows[n].id && rows' == MarkConsumed(rows, rows[n].id, q.stampedAt)
    else
      rows' == rows || (rows' == Create(rows, NewApproval(q)) && (n == -1 || rows[n].consumedAt.Some?))
  }

  function GrantedTo(status: GateStatus): Option<string> { if status.Executes? then Some(status.id) else None }

  lemma ToolCallShape(rows: seq<Approval>, q: Request)
    ensures
      var (rows', status) := GateDestructiveCall(rows, q);
      GateShape(rows, q, rows', GrantedTo(status))
  {
    var n := Newest(rows, q.hash);
    if n != -1 {
      match rows[n].decision
      case None =>
      case Some(Approved) =>
      case Some(Denied) =>
    }
  }

  lemma CommitShape(rows: seq<Approval>, q: Request, ref: string)
    ensures
      var (rows', r) := ResolveCommitApproval(true, rows, None, ref, q);
      GateShape(rows, q, rows', if r.Named? then Some(r.used.id) else None)
  {
    var existing := ByRequestHash(rows, q.hash);
    HumanIsAuthorised(existing, COMMIT_EFFECT, ref);
    var n := Newest(rows, q.hash);
    if n != -1 {
      match rows[n].decision
      case None =>
      case Some(Approved) =>
      case Some(Denied) =>
    }
  }

  lemma ShapeKeepsInv(s: System, q: Request, rows': seq<Approval>, granted: Option<string>)
    requires Inv(s) && (forall a | a in s.rows :: a.id != q.freshId) && GateShape(s.rows, q, rows', granted)
    ensures Inv(s.(rows := rows', grants := if granted.Some? then s.grants + [Grant(granted.value, q.hash)]
      else s.grants))
  {
    if granted.Some? {
      ConsumeKeeps(s, Newest(s.rows, q.hash), q.stampedAt);
    } else if rows' != s.rows {
      CreateKeeps(s, NewApproval(q));
    }
  }

  lemma ToolCallKeeps(s: System, q: Request)
    requires Inv(s) && Enabled(s, ToolCall(q))
    ensures Inv(Apply(s, ToolCall(q)))
  {
    ToolCallShape(s.rows, q);
    var (rows, status) := GateDestructiveCall(s.rows, q);
    ShapeKeepsInv(s, q, rows, GrantedTo(status));
  }

  lemma CommitKeeps(s: System, q: Request, ref: string)
    requires Inv(s) && Enabled(s, Commit(q, ref))
    ensures Inv(Apply(s, Commit(q, ref)))
  {
    CommitShape(s.rows, q, ref);
    var (rows, r) := ResolveCommitApproval(true, s.rows, None, ref, q);
    ShapeKeepsInv(s, q, rows, if r.Named? then Some(r.used.id) else None);
  }

  /**
   In every run, with operators free to decide and re-decide anything at any
   time: no approval backs two permissions of calls matched to it by their hash,
   every such permission spends an approval of its own hash, and a hash has been
   given exactly as many of them as it has consumed approvals. A permitted call
   executes at most once.
   */
  lemma {:induction false} EachApprovalSpentOnce(labels: seq<Label>, s: System)
    requires Run(labels) == Some(s)
    ensures forall i, j | 0 <= i < j < |s.grants| :: s.grants[i].id != s.grants[j].id
    ensures forall i | 0 <= i < |s.grants| :: Spent(s.rows, s.grants[i])
    ensures forall hash :: Granted(s.grants, hash) == Consumed(s.rows, hash)
    ensures Inv(s)
    decreases |labels|
  {
    if labels != [] {
      EachApprovalSpentOnce(labels[..|labels|-1], Run(labels[..|labels|-1]).value);
      StepKeepsInv(Run(labels[..|labels|-1]).value, labels[|labels|-1]);
    }
  }

  /** Every request that creates an approval is made later than all before it of its hash. */
  ghost predicate StrictlyLater(labels: seq<Label>)
    decreases |labels|
  {
    labels == [] ||
    (var l := labels[|labels|-1];
     && StrictlyLater(labels[..|labels|-1])
     && (Run(labels[..|labels|-1]).Some? && Matches(l) ==>
          forall a | a in Run(labels[..|labels|-1]).value.rows && a.requestHash == l.q.hash ::
            a.requestedAt < l.q.stampedAt))
  }

  ghost predicate AllButNewestSpent(rows: seq<Approval>) {
    forall i, j | 0 <= i < j < |rows| && rows[i].requestHash == rows[j].requestHash ::
      rows[i].requestedAt < rows[j].requestedAt && rows[i].consumedAt.Some?
  }

  lemma UpdateKeepsNewest(rows: seq<Approval>, i: nat, a: Approval)
    requires AllButNewestSpent(rows) && i < |rows|
    requires a.requestHash == rows[i].requestHash && a.requestedAt == rows[i].requestedAt
    requires rows[i].consumedAt.Some? ==> a.consumedAt.Some?
    ensures AllButNewestSpent(rows[i := a])
  {}

  lemma StepKeepsNewest(s: System, l: Label)
    requires Enabled(s, l) && DistinctIds(s.rows) && AllButNewestSpent(s.rows)
    requires Matches(l) ==> forall a | a in s.rows && a.requestHash == l.q.hash :: a.requestedAt < l.q.stampedAt
    ensures AllButNewestSpent(Apply(s, l).rows)
  {
    match l
    case Operator(id, decision, approver) =>
      var i := IndexOf(s.rows, id);
      if i < |s.rows| { UpdateKeepsNewest(s.rows, i, Apply(s, l).rows[i]); }
    case ToolCall(q) =>
      ToolCallShape(s.rows, q);
      ShapeKeepsNewest(s.rows, q, Apply(s, l).rows, GrantedTo(GateDestructiveCall(s.rows, q).1));
    case Commit(q, ref) =>
      CommitShape(s.rows, q, ref);
      var (rows, r) := ResolveCommitApproval(true, s.rows, None, ref, q);
      ShapeKeepsNewest(s.rows, q, rows, if r.Named? then Some(r.used.id) else None);
    case CommitById(_, _, _) =>
  }

  lemma ShapeKeepsNewest(rows: seq<Approval>, q: Request, rows': seq<Approval>, granted: Option<string>)
    requires DistinctIds(rows) && AllButNewestSpent(rows) && forall a | a in rows :: a.id != q.freshId
    requires forall a | a in rows && a.requestHash == q.hash :: a.requestedAt < q.stampedAt
    requires GateShape(rows, q, rows', granted)
    ensures AllButNewestSpent(rows')
  {}

  /**
   When request times strictly increase, all but the newest approval of any hash
   are consumed -- also when operators re-decide.
   */
  lemma {:induction false} AllButNewestConsumed(labels: seq<Label>, s: System)
    requires Run(labels) == Some(s) && StrictlyLater(labels)
    ensures AllButNewestSpent(s.rows)
    decreases |labels|
  {
    if labels != [] {
      var before := labels[..|labels|-1];
      AllButNewestConsumed(before, Run(before).value);
      EachApprovalSpentOnce(before, Run(before).value);
      StepKeepsNewest(Run(before).value, labels[|labels|-1]);
    }
  }

  // ---------------------------------------------------------------------
  // Which approval is matched, and when a human is asked anew
  // ---------------------------------------------------------------------

  lemma NewestIsOne(rows: seq<Approval>, hash: string, i: int)
    requires IsNewest(rows, hash, i)
    ensures Newest(rows, hash) == i
  {
    var j := Newest(rows, hash);
    assert rows[i].requestedAt <= rows[j].requestedAt <= rows[i].requestedAt;
  }

  /** The approval inserted last is the match of its hash exactly when it was requested later than every earlier one. */
  lemma LastIsMatchExactly(rows: seq<Approval>, a: Approval)
    ensures Newest(rows + [a], a.requestHash) == |rows| <==>
      forall i | 0 <= i < |rows| && rows[i].requestHash == a.requestHash :: rows[i].requestedAt < a.requestedAt
  {
    var all := rows + [a];
    if forall i | 0 <= i < |rows| && rows[i].requestHash == a.requestHash :: rows[i].requestedAt < a.requestedAt {
      assert forall i | 0 <= i < |rows| :: all[i] == rows[i];
      NewestIsOne(all, a.requestHash, |rows|);
    } else {
      var i :| 0 <= i < |rows| && rows[i].requestHash == a.requestHash && !(rows[i].requestedAt < a.requestedAt);
      assert all[i] == rows[i];
    }
  }

  ghost predicate NothingToResume(rows: seq<Approval>, hash: string) {
    var n := Newest(rows, hash);
    n == -1 || (rows[n].decision == Some(Approved) && rows[n].consumedAt.Some?)
  }

  /**
   Either gate asks a human anew exactly when there is no approval of the hash, or
   the newest is approved and already consumed -- and never because it timed out.
   */
  lemma AsksAnewExactlyWhen(rows: seq<Approval>, q: Request, ref: string)
    requires forall a | a in rows :: a.id != q.freshId
    ensures GateDestructiveCall(rows, q) == (rows + [NewApproval(q)], AwaitsHuman(q.freshId))
      <==> NothingToResume(rows, q.hash)
    ensures ResolveCommitApproval(true, rows, None, ref, q) == (rows + [NewApproval(q)], Pending(q.freshId))
       <==> NothingToResume(rows, q.hash)
  {
    FreshIsLast(rows, q.freshId);
    assert |rows + [NewApproval(q)]| == |rows| + 1;
    var n := Newest(rows, q.hash);
    if n != -1 {
      match rows[n].decision
      case None =>
      case Some(Approved) =>
      case Some(Denied) =>
    }
  }

  /**
   After a hash's approval has been consumed, a call asks anew and an operator
   approves; resubmitted in time it executes on that approval if and only if the
   request was made later than every earlier one of the hash. Otherwise the consumed
   approval stays the match and the resubmission asks yet again.
   */
  lemma ResumesExactlyWhenLater(rows: seq<Approval>, q1: Request, approver: Option<string>, q2: Request)
    requires NothingToResume(rows, q1.hash) && q2.hash == q1.hash && q1.freshId != q2.freshId
    requires forall a | a in rows :: a.id != q1.freshId && a.id != q2.freshId
    requires q2.checkedAt <= q1.stampedAt + q1.timeoutMs
    ensures
      var asked := GateDestructiveCall(rows, q1).0;
      var decided := Resolve(asked, q1.freshId, Approved, approver);
      var later := forall i | 0 <= i < |rows| && rows[i].requestHash == q1.hash :: rows[i].requestedAt < q1.stampedAt;
      && (GateDestructiveCall(decided, q2).1 == Executes(q1.freshId) <==> later)
      && (GateDestructiveCall(decided, q2).1 == AwaitsHuman(q2.freshId) <==> !later)
  {
    AsksAnewExactlyWhen(rows, q1, "");
    var n := Newest(rows, q1.hash);
    var a := NewApproval(q1).(decision := Some(Approved), approverId := approver);
    FreshIsLast(rows, q1.freshId);
    var decided := Resolve(rows + [NewApproval(q1)], q1.freshId, Approved, approver);
    assert decided == rows + [a];
    LastIsMatchExactly(rows, a);
    if Newest(decided, q1.hash) == |rows| {
      MatchExecutes(decided, q2);
    } else {
      NewestStays(rows, a, q1.hash);
      assert decided[n] == rows[n];
      AsksAnewExactlyWhen(decided, q2, "");
    }
  }

  /** A call in time executes on the approval it matches, when that is live. */
  lemma MatchExecutes(rows: seq<Approval>, q: Request)
    requires Newest(rows, q.hash) != -1 && Live(rows[Newest(rows, q.hash)])
    requires q.checkedAt <= rows[Newest(rows, q.hash)].timeoutAt
    ensures GateDestructiveCall(rows, q).1 == Executes(rows[Newest(rows, q.hash)].id)
  {}

  /** When the appended approval is not the match, the match is the one it was. */
  lemma NewestStays(rows: seq<Approval>, a: Approval, hash: string)
    requires Newest(rows + [a], hash) != |rows|
    ensures Newest(rows + [a], hash) == Newest(rows, hash)
  {
    var m := Newest(rows + [a], hash);
    if m != -1 {
      assert forall i | 0 <= i < |rows| :: (rows + [a])[i] == rows[i];
      NewestIsOne(rows, hash, m);
    }
  }

  // ---------------------------------------------------------------------
  // Approvals named by their id
  // ---------------------------------------------------------------------

  /**
   A commit that names its approval is permitted exactly when that approval as
   stored authorises a human for the draft, consumed or not and however late, and it
   consumes nothing.
   */
  lemma NamedIsPermittedExactly(s: System, q: Request, id: string, ref: string)
    requires Enabled(s, CommitById(q, id, ref))
    ensures
      var s' := Apply(s, CommitById(q, id, ref));
      var stored := Get(s.rows, id);
      && s'.rows == s.rows && s'.grants == s.grants
      && (s'.namings != s.namings <==> stored.Some? && exists who :: Authorises(stored.value, who, COMMIT_EFFECT, ref))
      && forall who | stored.Some? && Authorises(stored.value, who, COMMIT_EFFECT, ref) ::
           s'.namings == s.namings + [Naming(id, who, ref)]
  {
    HumanIsAuthorised(Get(s.rows, id), COMMIT_EFFECT, ref);
  }

  lemma AuthorisedIsPermitted(s: System, q: Request, id: string, who: string, ref: string)
    requires Enabled(s, CommitById(q, id, ref))
    requires Get(s.rows, id).Some? && Authorises(Get(s.rows, id).value, who, COMMIT_EFFECT, ref)
    ensures Apply(s, CommitById(q, id, ref)) == s.(namings := s.namings + [Naming(id, who, ref)])
  {
    NamedIsPermittedExactly(s, q, id, ref);
  }

  /** Commits of `refs`, one after another, that all name approval `id`. */
  function NamedCommits(q: Request, id: string, refs: seq<string>): (labels: seq<Label>)
    decreases |refs|
  {
    if refs == [] then []
    else NamedCommits(q, id, refs[..|refs|-1]) + [CommitById(q, id, refs[|refs|-1])]
  }

  function Namings(id: string, who: string, refs: seq<string>): (namings: seq<Naming>)
    ensures |namings| == |refs| && forall i | 0 <= i < |refs| :: namings[i] == Naming(id, who, refs[i])
    decreases |refs|
  {
    if refs == [] then [] else Namings(id, who, refs[..|refs|-1]) + [Naming(id, who, refs[|refs|-1])]
  }

  /** One approval permits as many commits as name it, of every draft it authorises. */
  lemma {:induction false} OneApprovalPermitsAll(labels: seq<Label>, s: System, q: Request, id: string, who: string,
      refs: seq<string>)
    requires Run(labels) == Some(s) && id != "" && forall a | a in s.rows :: a.id != q.freshId
    requires Get(s.rows, id).Some? && forall ref | ref in refs ::
      Authorises(Get(s.rows, id).value, who, COMMIT_EFFECT, ref)
    ensures
      var after := Run(labels + NamedCommits(q, id, refs));
      && after.Some? && after.value.rows == s.rows && after.value.grants == s.grants
      && after.value.namings == s.namings + Namings(id, who, refs)
    decreases |refs|
  {
    if refs == [] {
      assert labels + [] == labels;
    } else {
      var before, ref := refs[..|refs|-1], refs[|refs|-1];
      OneApprovalPermitsAll(labels, s, q, id, who, before);
      var first := labels + NamedCommits(q, id, before);
      var l, mid := CommitById(q, id, ref), Run(first).value;
      RunSnoc(first, mid, l);
      assert labels + NamedCommits(q, id, refs) == first + [l];
      AuthorisedIsPermitted(mid, q, id, who, ref);
      assert s.namings + (Namings(id, who, before) + [Naming(id, who, ref)]) == mid.namings + [Naming(id, who, ref)];
    }
  }

  /**
   So one approval of a commit, whose params name no draft, permits commits of any
   drafts whatever: asked for once, approved once, never consumed.
   */
  lemma OneApprovalManyCommits(q: Request, who: string, later: Request, refs: seq<string>) returns (labels: seq<Label>)
    requires q.serverAlias == SERVER_ALIAS && q.toolName == COMMIT_EFFECT && q.boundRef.None?
    requires q.freshId != "" && later.freshId != q.freshId && who != ""
    ensures
      var s := Run(labels);
      && s.Some? && |s.value.rows| == 1 && s.value.rows[0].consumedAt.None? && s.value.grants == []
      && s.value.namings == Namings(q.freshId, who, refs)
  {
    var a := NewApproval(q).(decision := Some(Approved), approverId := Some(who));
    var asked := AskedAndApproved(q, who);
    assert Get([a], q.freshId) == Some(a);
    OneApprovalPermitsAll(asked, System([a], [], []), later, q.freshId, who, refs);
    labels := asked + NamedCommits(later, q.freshId, refs);
  }

  /** Nothing but one approval, asked for by a call and approved. */
  lemma AskedAndApproved(q: Request, who: string) returns (labels: seq<Label>)
    ensures
      var a := NewApproval(q).(decision := Some(Approved), approverId := Some(who));
      Run(labels) == Some(System([a], [], []))
  {
    var ask, decide := ToolCall(q), Operator(q.freshId, Approved, Some(who));
    var s0, s1 := System([], [], []), System([NewApproval(q)], [], []);
    RunSnoc([], s0, ask);
    assert Newest([], q.hash) == -1 && Create([], NewApproval(q)) == [NewApproval(q)];
    assert Apply(s0, ask) == s1;
    RunSnoc([] + [ask], s1, decide);
    assert IndexOf(s1.rows, q.freshId) == 0;
    var a := NewApproval(q).(decision := Some(Approved), approverId := Some(who));
    assert Resolve([NewApproval(q)], q.freshId, Approved, Some(who)) == [a];
    labels := [] + [ask] + [decide];
  }

  // ---------------------------------------------------------------------
  // An approval that timed out
  // ---------------------------------------------------------------------

  /** The newest approval of the hash is row `n`, unconsumed, and times out by `t`. */
  ghost predicate Unspent(rows: seq<Approval>, hash: string, n: int, t: int) {
    0 <= n < |rows| && Newest(rows, hash) == n && rows[n].consumedAt.None? && rows[n].timeoutAt <= t
  }

  /** Every call matched by this hash comes after `t`; operators decide what they like. */
  ghost predicate AllAfter(labels: seq<Label>, hash: string, t: int) {
    forall k | 0 <= k < |labels| && Matches(labels[k]) && labels[k].q.hash == hash :: t < labels[k].q.checkedAt
  }

  /** Rows keep their place and what they are for, and no approval of the hash is new. */
  ghost predicate NoneNew(rows: seq<Approval>, rows': seq<Approval>, hash: string) {
    && |rows| <= |rows'|
    && (forall i | 0 <= i < |rows| :: rows'[i].requestHash == rows[i].requestHash
                                      && rows'[i].requestedAt == rows[i].requestedAt && rows'[i].id == rows[i].id)
    && (forall i | |rows| <= i < |rows'| :: rows'[i].requestHash != hash)
  }

  lemma NoneNewKeepsNewest(rows: seq<Approval>, rows': seq<Approval>, hash: string, n: int)
    requires NoneNew(rows, rows', hash) && 0 <= n < |rows| && Newest(rows, hash) == n
    ensures Newest(rows', hash) == n
  {
    assert IsNewest(rows', hash, n) by {
      forall j | 0 <= j < |rows'| && rows'[j].requestHash == hash
        ensures rows'[j].requestedAt <= rows'[n].requestedAt && (j < n ==> rows'[j].requestedAt < rows'[n].requestedAt)
      {
        assert j < |rows| && rows[j].requestHash == hash;
      }
    }
    NewestIsOne(rows', hash, n);
  }

  /** Both gates refuse a call of the hash, as denied or as timed out, and change nothing. */
  lemma LateAnswer(rows: seq<Approval>, hash: string, n: int, t: int, q: Request, ref: string)
    requires Unspent(rows, hash, n, t) && q.hash == hash && t < q.checkedAt
    ensures
      var denied := rows[n].decision == Some(Denied);
      && GateDestructiveCall(rows, q) == (rows, if denied then DeniedByOperator(rows[n].id) else TimedOut(rows[n].id))
      && ResolveCommitApproval(true, rows, None, ref, q)
         == (rows, Obstacle(if denied then DeniedRequest else ApprovalTimedOut))
  {
    match rows[n].decision
    case None =>
    case Some(Approved) =>
    case Some(Denied) =>
  }

  /** What the operators have last made of approval `id`. */
  function LastDecision(labels: seq<Label>, id: string, before: Option<Decision>): Option<Decision>
    decreases |labels|
  {
    if labels == [] then before
    else
      var l := labels[|labels|-1];
      if l.Operator? && l.id == id then Some(l.decision) else LastDecision(labels[..|labels|-1], id, before)
  }

  /** One step leaves the newest approval of the hash unspent, and changes its decision only as an operator says. */
  ghost predicate LeavesUnspent(s: System, s': System, l: Label, hash: string, n: int, t: int)
    requires 0 <= n < |s.rows|
  {
    && NoneNew(s.rows, s'.rows, hash) && Unspent(s'.rows, hash, n, t)
    && Granted(s'.grants, hash) == Granted(s.grants, hash)
    && s'.rows[n].decision == if l.Operator? && l.id == s.rows[n].id then Some(l.decision) else s.rows[n].decision
  }

  lemma StepLeavesUnspent(s: System, l: Label, hash: string, n: int, t: int)
    requires Enabled(s, l) && DistinctIds(s.rows) && Unspent(s.rows, hash, n, t)
    requires Matches(l) && l.q.hash == hash ==> t < l.q.checkedAt
    ensures LeavesUnspent(s, Apply(s, l), l, hash, n, t)
  {
    if l.Operator? {
      OperatorLeavesUnspent(s, l, hash, n, t);
    } else if Matches(l) && l.q.hash == hash {
      LateAnswer(s.rows, hash, n, t, l.q, if l.Commit? then l.ref else "");
    } else if Matches(l) {
      OtherCallLeavesUnspent(s, l, hash, n, t);
    } else {
      NamedIsPermittedExactly(s, l.q, l.id, l.ref);
    }
  }

  lemma OperatorLeavesUnspent(s: System, l: Label, hash: string, n: int, t: int)
    requires l.Operator? && DistinctIds(s.rows) && Unspent(s.rows, hash, n, t)
    ensures LeavesUnspent(s, Apply(s, l), l, hash, n, t)
  {
    if l.id == s.rows[n].id { assert IndexOf(s.rows, l.id) == n; }
    NoneNewKeepsNewest(s.rows, Apply(s, l).rows, hash, n);
  }

  lemma OtherCallLeavesUnspent(s: System, l: Label, hash: string, n: int, t: int)
    requires Enabled(s, l) && DistinctIds(s.rows) && Unspent(s.rows, hash, n, t) && Matches(l) && l.q.hash != hash
    ensures LeavesUnspent(s, Apply(s, l), l, hash, n, t)
  {
    var s' := Apply(s, l);
    var q := l.q;
    if l.ToolCall? {
      ToolCallShape(s.rows, q);
      ShapeLeavesUnspent(s.rows, q, s'.rows, GrantedTo(GateDestructiveCall(s.rows, q).1), hash, n, t);
    } else {
      CommitShape(s.rows, q, l.ref);
      var r := ResolveCommitApproval(true, s.rows, None, l.ref, q).1;
      ShapeLeavesUnspent(s.rows, q, s'.rows, if r.Named? then Some(r.used.id) else None, hash, n, t);
    }
    if s'.grants != s.grants { assert s'.grants[..|s.grants|] == s.grants; }
  }

  lemma ShapeLeavesUnspent(rows: seq<Approval>, q: Request, rows': seq<Approval>, granted: Option<string>,
                           hash: string, n: int, t: int)
    requires DistinctIds(rows) && Unspent(rows, hash, n, t) && q.hash != hash
      && (forall r | r in rows :: r.id != q.freshId)
    requires GateShape(rows, q, rows', granted)
    ensures NoneNew(rows, rows', hash) && Unspent(rows', hash, n, t) && rows'[n].decision == rows[n].decision
  {
    FreshIsLast(rows, q.freshId);
    var m := Newest(rows, q.hash);
    if granted.Some? { assert m != n && IndexOf(rows, rows[m].id) == m; }
    NoneNewKeepsNewest(rows, rows', hash, n);
  }

  lemma NoneNewOn(a: seq<Approval>, b: seq<Approval>, c: seq<Approval>, hash: string)
    requires NoneNew(a, b, hash) && NoneNew(b, c, hash)
    ensures NoneNew(a, c, hash)
  {
    forall i | |a| <= i < |c| ensures c[i].requestHash != hash {
      if i < |b| { assert c[i].requestHash == b[i].requestHash; }
    }
  }

  /** The state after a run goes on from `s` with `more`. */
  ghost function RunOn(s: System, more: seq<Label>): Option<System>
    decreases |more|
  {
    if more == [] then Some(s)
    else
      var before := RunOn(s, more[..|more|-1]);
      var l := more[|more|-1];
      if before.Some? && Enabled(before.value, l) then Some(Apply(before.value, l)) else None
  }

  lemma {:induction false} RunOnSnoc(s: System, more: seq<Label>, s': System, l: Label)
    requires RunOn(s, more) == Some(s') && Enabled(s', l)
    ensures RunOn(s, more + [l]) == Some(Apply(s', l))
  {
    assert (more + [l])[..|more|] == more;
  }

  lemma {:induction false} RunOnIsRun(labels: seq<Label>, more: seq<Label>, s: System)
    requires Run(labels) == Some(s)
    ensures RunOn(s, more) == Run(labels + more)
    decreases |more|
  {
    if more == [] {
      assert labels + more == labels;
    } else {
      RunOnIsRun(labels, more[..|more|-1], s);
      assert (labels + more)[..|labels + more|-1] == labels + more[..|more|-1];
    }
  }

  /** Any run, from any point of it, is a continuation of a state in good order. */
  lemma {:induction false} RunGoesOn(labels: seq<Label>, more: seq<Label>, s: System)
    requires Run(labels) == Some(s)
    ensures Inv(s) && RunOn(s, more) == Run(labels + more)
  {
    EachApprovalSpentOnce(labels, s);
    RunOnIsRun(labels, more, s);
  }

  /** Nothing is permitted for the hash, nothing is asked anew, and row `n` stands as the operators left it. */
  ghost predicate Blocked(s: System, more: seq<Label>, s': System, hash: string, n: int, t: int)
    requires 0 <= n < |s.rows|
  {
    && NoneNew(s.rows, s'.rows, hash) && Unspent(s'.rows, hash, n, t)
    && Granted(s'.grants, hash) == Granted(s.grants, hash)
    && s'.rows[n].decision == LastDecision(more, s.rows[n].id, s.rows[n].decision)
  }

  lemma {:induction false} StaysBlocked(s: System, more: seq<Label>, s': System, hash: string, n: int, t: int)
    requires Inv(s) && RunOn(s, more) == Some(s') && Unspent(s.rows, hash, n, t) && AllAfter(more, hash, t)
    ensures Inv(s') && Blocked(s, more, s', hash, n, t)
    decreases |more|
  {
    if more != [] {
      var before, l := more[..|more|-1], more[|more|-1];
      var mid := RunOn(s, before).value;
      assert AllAfter(before, hash, t) by { assert forall k | 0 <= k < |before| :: before[k] == more[k]; }
      StaysBlocked(s, before, mid, hash, n, t);
      StepKeepsInv(mid, l);
      StepLeavesUnspent(mid, l, hash, n, t);
      NoneNewOn(s.rows, mid.rows, s'.rows, hash);
    }
  }

  /**
   An approval that timed out unconsumed blocks its hash for good. Whatever operators
   decide, and whatever other calls and commits do: while every call of the hash comes
   after the timeout, none is permitted and no approval of the hash is created; and the
   next one, `q`, is refused by either gate, as denied exactly when the operators' last
   decision on the approval is a denial, and as timed out otherwise. (A commit that
   names the approval by its id is another matter: `NamedIsPermittedExactly`.)
   */
  lemma {:induction false} TimedOutForGood(
      s: System, more: seq<Label>, s': System, hash: string, n: int, t: int, q: Request, ref: string)
    requires Inv(s) && RunOn(s, more) == Some(s') && Unspent(s.rows, hash, n, t) && AllAfter(more, hash, t)
    requires q.hash == hash && t < q.checkedAt
    ensures NoneNew(s.rows, s'.rows, hash) && Granted(s'.grants, hash) == Granted(s.grants, hash)
    ensures
      var id, denied := s.rows[n].id, LastDecision(more, s.rows[n].id, s.rows[n].decision) == Some(Denied);
      && GateDestructiveCall(s'.rows, q) == (s'.rows, if denied then DeniedByOperator(id) else TimedOut(id))
      && ResolveCommitApproval(true, s'.rows, None, ref, q)
         == (s'.rows, Obstacle(if denied then DeniedRequest else ApprovalTimedOut))
  {
    StaysBlocked(s, more, s', hash, n, t);
    LateAnswer(s'.rows, hash, n, t, q, ref);
  }

  /** Over every continuation in which calls of the hash come after `t`, none is permitted and none asks anew. */
  ghost predicate BlockedForGood(s: System, hash: string, t: int) {
    forall more | RunOn(s, more).Some? && AllAfter(more, hash, t) ::
      NoneNew(s.rows, RunOn(s, more).value.rows, hash)
        && Granted(RunOn(s, more).value.grants, hash) == Granted(s.grants, hash)
  }

  /**
   That is exactly when a hash is blocked: the newest approval of it is unconsumed.
   Where there is none, or it is consumed and an operator approves it again, the next
   call asks anew.
   */
  lemma BlockedForGoodExactlyWhen(s: System, hash: string, t: int)
    requires Inv(s) && (Newest(s.rows, hash) != -1 ==> s.rows[Newest(s.rows, hash)].timeoutAt <= t)
    ensures BlockedForGood(s, hash, t)
       <==> Newest(s.rows, hash) != -1 && s.rows[Newest(s.rows, hash)].consumedAt.None?
  {
    var n := Newest(s.rows, hash);
    if n != -1 && s.rows[n].consumedAt.None? {
      forall more | RunOn(s, more).Some? && AllAfter(more, hash, t)
        ensures NoneNew(s.rows, RunOn(s, more).value.rows, hash)
             && Granted(RunOn(s, more).value.grants, hash) == Granted(s.grants, hash)
      {
        StaysBlocked(s, more, RunOn(s, more).value, hash, n, t);
      }
    } else {
      var more := AsksAgain(s, hash, t);
    }
  }

  /** With nothing to resume, a late call creates an approval. */
  lemma LateCallAsks(s: System, hash: string, t: int) returns (call: Label)
    requires NothingToResume(s.rows, hash)
    ensures call.ToolCall? && t < call.q.checkedAt && Enabled(s, call)
    ensures call.q.hash == hash && Apply(s, call).rows == s.rows + [NewApproval(call.q)]
  {
    FreshIsFresh(s.rows);
    var q := Request(hash, "", "", "", None, FreshId(s.rows), t + 1, t + 1, 0);
    AsksAnewExactlyWhen(s.rows, q, "");
    call := ToolCall(q);
  }

  /** Nothing to resume, or a consumed approval approved again: a late call creates an approval. */
  lemma AsksAgain(s: System, hash: string, t: int) returns (more: seq<Label>)
    requires Inv(s) && (Newest(s.rows, hash) == -1 || s.rows[Newest(s.rows, hash)].consumedAt.Some?)
    ensures RunOn(s, more).Some? && AllAfter(more, hash, t) && !NoneNew(s.rows, RunOn(s, more).value.rows, hash)
  {
    var n := Newest(s.rows, hash);
    if n == -1 {
      var call := LateCallAsks(s, hash, t);
      RunOnSnoc(s, [], s, call);
      more := [] + [call];
      assert RunOn(s, more).value.rows[|s.rows|].requestHash == hash;
    } else {
      more := AsksAfterApproval(s, hash, t);
    }
  }

  lemma AsksAfterApproval(s: System, hash: string, t: int) returns (more: seq<Label>)
    requires Inv(s) && Newest(s.rows, hash) != -1 && s.rows[Newest(s.rows, hash)].consumedAt.Some?
    ensures RunOn(s, more).Some? && AllAfter(more, hash, t) && !NoneNew(s.rows, RunOn(s, more).value.rows, hash)
  {
    var n := Newest(s.rows, hash);
    var decide := Operator(s.rows[n].id, Approved, None);
    var mid := Apply(s, decide);
    ApprovedAgain(s, hash, n);
    var call := LateCallAsks(mid, hash, t);
    RunOnSnoc(s, [], s, decide);
    RunOnSnoc(s, [] + [decide], mid, call);
    more := [] + [decide] + [call];
    assert RunOn(s, more).value.rows[|s.rows|].requestHash == hash;
  }

  /** A consumed approval that is approved again leaves nothing to resume. */
  lemma ApprovedAgain(s: System, hash: string, n: int)
    requires Inv(s) && 0 <= n < |s.rows| && Newest(s.rows, hash) == n && s.rows[n].consumedAt.Some?
    ensures
      var rows := Apply(s, Operator(s.rows[n].id, Approved, None)).rows;
      |rows| == |s.rows| && NothingToResume(rows, hash)
  {
    assert IndexOf(s.rows, s.rows[n].id) == n;
    NoneNewKeepsNewest(s.rows, Resolve(s.rows, s.rows[n].id, Approved, None), hash, n);
  }

  /** An id longer than every id in use. */
  function FreshId(rows: seq<Approval>): (id: string) {
    if rows == [] then "x"
    else
      var rest := FreshId(rows[..|rows|-1]);
      rest + rows[|rows|-1].id
  }

  lemma {:induction false} FreshIsFresh(rows: seq<Approval>)
    ensures FreshId(rows) != "" && forall a | a in rows :: |a.id| < |FreshId(rows)|
    decreases |rows|
  {
    if rows != [] {
      FreshIsFresh(rows[..|rows|-1]);
      forall a | a in rows ensures |a.id| < |FreshId(rows)| {
        if a in rows[..|rows|-1] {} else { assert a == rows[|rows|-1]; }
      }
    }
  }
}
