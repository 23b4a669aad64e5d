/**
 Effect drafts and their decisions: the rows of one gateway's draft store, the
 compare-and-set decision write, and the committed-first lookup by key.
 */
module EffectStore {
  import opened Prelude

  datatype Identity = Identity(agentId: string, scopeId: string)
  datatype Actor = Agent(token: Identity) | Human(approverId: string)
  datatype Status = Draft | Committed | Discarded

  datatype Record = Record(
    id: string, sessionId: string, correlationId: string, drafterAgentId: string, drafterVerified: bool,
    effectType: string, targetSystem: string, payload: string, evidence: seq<string>,
    reversibility: string, approvalClass: string, idempotencyKey: string, expiry: int,
    status: Status, createdAt: int, decidedAt: Option<int>, decisionActor: Option<Actor>,
    decisionReason: Option<string>, outcome: Option<string>)

  datatype DraftDocument = DraftDocument(
    effectType: string, targetSystem: string, payload: string, evidence: seq<string>,
    reversibility: string, idempotencyKey: string, expiry: int)

  datatype DecisionRecord = DecisionRecord(
    draftRef: string, decision: Status, draft: DraftDocument, actor: Actor, reason: Option<string>)

  datatype DecisionWrite = DecisionWrite(
    status: Status, actor: Actor, reason: Option<string>, outcome: Option<string>, decidedAt: int)

  const DRAFT_REF_PREFIX := "draft://"

  function DraftRef(id: string): string { DRAFT_REF_PREFIX + id }

  function ParseDraftRef(ref: string): string {
    if DRAFT_REF_PREFIX <= ref then ref[|DRAFT_REF_PREFIX|..] else ref
  }

  function ToDraftDocument(r: Record): DraftDocument {
    DraftDocument(r.effectType, r.targetSystem, r.payload, r.evidence, r.reversibility, r.idempotencyKey, r.expiry)
  }

  /** `None` where the code throws: the draft is undecided or carries no actor. */
  function ToDecisionRecord(r: Record): Option<DecisionRecord> {
    if r.status.Draft? || r.decisionActor.None? then None
    else Some(DecisionRecord(DraftRef(r.id), r.status, ToDraftDocument(r), r.decisionActor.value, r.decisionReason))
  }

  // ---------------------------------------------------------------------
  // Rows
  // ---------------------------------------------------------------------

  ghost predicate DistinctIds(rows: seq<Record>) {
    forall i, j | 0 <= i < j < |rows| :: rows[i].id != rows[j].id
  }

  function IndexOf(rows: seq<Record>, id: string): (i: nat)
    ensures i <= |rows|
    ensures i < |rows| ==> rows[i].id == id
    ensures forall j | 0 <= j < i :: rows[j].id != id
  {
    if rows == [] || rows[0].id == id then 0 else 1 + IndexOf(rows[1..], id)
  }

  function GetDraft(rows: seq<Record>, id: string): (r: Option<Record>)
    ensures r.Some? ==> r.value in rows && r.value.id == id
    ensures r.None? ==> forall row | row in rows :: row.id != id
  {
    var i := IndexOf(rows, id);
    if i < |rows| then Some(rows[i]) else None
  }

  /** The decision as the row then holds it. */
  function Decided(r: Record, w: DecisionWrite): Record {
    r.(status := w.status, decidedAt := Some(w.decidedAt), decisionActor := Some(w.actor),
       decisionReason := w.reason, outcome := w.outcome)
  }

  /** Compare-and-set on the row's status. */
  function RecordDecision(rows: seq<Record>, id: string, w: DecisionWrite): (seq<Record>, bool) {
    var i := IndexOf(rows, id);
    if i == |rows| || !rows[i].status.Draft? then (rows, false) else (rows[i := Decided(rows[i], w)], true)
  }

  // ---------------------------------------------------------------------
  // Lookup by idempotency key
  // ---------------------------------------------------------------------

  function Rank(r: Record): int { if r.status.Committed? then 0 else 1 }

  /** The comparator is positive: `a` sorts after `b`. */
  predicate After(a: Record, b: Record) {
    Rank(a) > Rank(b) || (Rank(a) == Rank(b) && a.createdAt > b.createdAt)
  }

  function WithKey(rows: seq<Record>, key: string): (r: seq<Record>)
    ensures forall row :: row in r <==> row in rows && row.idempotencyKey == key
  {
    if rows == [] then []
    else
      assert rows == [rows[0]] + rows[1..];
      (if rows[0].idempotencyKey == key then [rows[0]] else []) + WithKey(rows[1..], key)
  }

  /** Stable insertion: before everything it does not sort after. */
  function InsertStable(r: Record, sorted: seq<Record>): seq<Record> {
    if sorted == [] || !After(r, sorted[0]) then [r] + sorted else [sorted[0]] + InsertStable(r, sorted[1..])
  }

  function SortCommittedFirst(rows: seq<Record>): seq<Record> {
    if rows == [] then [] else InsertStable(rows[0], SortCommittedFirst(rows[1..]))
  }

  function FindByIdempotencyKey(rows: seq<Record>, key: string): Option<Record> {
    var matches := SortCommittedFirst(WithKey(rows, key));
    if matches != [] then Some(matches[0]) else None
  }

  /**
   Row `i` is the one to find for `key`: committed whenever any row of the key
   is, and among rows of its rank the oldest, the first saved winning ties.
   */
  ghost predicate FoundAt(rows: seq<Record>, key: string, i: nat) {
    && i < |rows| && rows[i].idempotencyKey == key
    && forall j | 0 <= j < |rows| && rows[j].idempotencyKey == key ::
         && (rows[j].status.Committed? ==> rows[i].status.Committed?)
         && (rows[j].status.Committed? == rows[i].status.Committed? ==>
              rows[i].createdAt < rows[j].createdAt || (rows[i].createdAt == rows[j].createdAt && i <= j))
  }

  lemma {:induction false} InsertHead(r: Record, sorted: seq<Record>)
    ensures InsertStable(r, sorted) != []
    ensures InsertStable(r, sorted)[0] == if sorted == [] || !After(r, sorted[0]) then r else sorted[0]
  {}

  /** The first row, or what is found behind it: the comparator decides. */
  lemma FoundBehind(rows: seq<Record>, key: string, k: nat)
    requires rows != [] && FoundAt(rows[1..], key, k)
    ensures FoundAt(rows, key, if rows[0].idempotencyKey == key && !After(rows[0], rows[k+1]) then 0 else k + 1)
  {
    assert forall j | 0 < j < |rows| :: rows[j] == rows[1..][j-1];
  }

  /** The head of the stable sort of a key's rows is the row to find. */
  lemma {:induction false} SortedHead(rows: seq<Record>, key: string) returns (i: nat)
    requires WithKey(rows, key) != []
    ensures FoundAt(rows, key, i)
    ensures FindByIdempotencyKey(rows, key) == Some(rows[i])
    decreases |rows|
  {
    var rest := rows[1..];
    if rows[0].idempotencyKey == key {
      InsertHead(rows[0], SortCommittedFirst(WithKey(rest, key)));
      assert WithKey(rows, key)[0] == rows[0] && WithKey(rows, key)[1..] == WithKey(rest, key);
    } else {
      assert WithKey(rows, key) == WithKey(rest, key);
    }
    if WithKey(rest, key) != [] {
      var k := SortedHead(rest, key);
      FoundBehind(rows, key, k);
      i := if rows[0].idempotencyKey == key && !After(rows[0], rows[k+1]) then 0 else k + 1;
    } else {
      i := 0;
      assert forall j | 0 < j < |rows| :: rows[j] in rest && rows[j].idempotencyKey != key;
    }
  }

  /**
   The lookup finds a row exactly when one has the key, finds a committed one
   whenever there is one, and among equals the oldest.
   */
  lemma FindIsCommittedFirst(rows: seq<Record>, key: string)
    ensures
      var found := FindByIdempotencyKey(rows, key);
      && (found.None? <==> forall r | r in rows :: r.idempotencyKey != key)
      && (found.Some? ==>
           && found.value in rows && found.value.idempotencyKey == key
           && forall r | r in rows && r.idempotencyKey == key ::
                (r.status.Committed? ==> found.value.status.Committed?)
                && (r.status.Committed? == found.value.status.Committed? ==> found.value.createdAt <= r.createdAt))
  {
    if WithKey(rows, key) != [] {
      var i := SortedHead(rows, key);
    }
  }

  // ---------------------------------------------------------------------
  // The in-memory store
  // ---------------------------------------------------------------------

  class MemoryEffectStore {
    /** The rows in the order their ids were first saved. */
    var drafts: seq<Record>

    constructor ()
      ensures drafts == []
    {
      drafts := [];
    }

    method SaveDraft(record: Record)
      modifies this
      ensures (forall r | r in old(drafts) :: r.id != record.id) ==> drafts == old(drafts) + [record]
      ensures (exists r | r in old(drafts) :: r.id == record.id) ==>
        drafts == old(drafts)[IndexOf(old(drafts), record.id) := record]
    {
      var i := IndexOf(drafts, record.id);
      if i < |drafts| {
        assert drafts[i] in drafts;
        drafts := drafts[i := record];
      } else {
        drafts := drafts + [record];
      }
    }

    method Get(id: string) returns (r: Option<Record>)
      ensures r == GetDraft(drafts, id)
    {
      r := GetDraft(drafts, id);
    }

    method Find(key: string) returns (r: Option<Record>)
      ensures r.None? ==> forall d | d in drafts :: d.idempotencyKey != key
      ensures r.Some? ==> exists i: nat :: FoundAt(drafts, key, i) && drafts[i] == r.value
      ensures r == FindByIdempotencyKey(drafts, key)
    {
      if WithKey(drafts, key) != [] {
        var i := SortedHead(drafts, key);
      }
      r := FindByIdempotencyKey(drafts, key);
    }

    /** `wrote` exactly when the draft existed undecided; nothing else changes. */
    method Decide(id: string, decision: DecisionWrite) returns (wrote: bool)
      modifies this
      ensures (drafts, wrote) == RecordDecision(old(drafts), id, decision)
      ensures !wrote ==> drafts == old(drafts)
    {
      var i := IndexOf(drafts, id);
      if i == |drafts| || drafts[i].status != Draft {
        return false;
      }
      var record := drafts[i];
      record := record.(status := decision.status);
      record := record.(decidedAt := Some(decision.decidedAt));
      record := record.(decisionActor := Some(decision.actor));
      record := record.(decisionReason := decision.reason);
      record := record.(outcome := decision.outcome);
      drafts := drafts[i := record];
      wrote := true;
    }
  }
}
