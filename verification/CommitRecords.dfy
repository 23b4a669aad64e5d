/** The commit records the gateways share: a table written once per idempotency key. */
module CommitRecords {
  import opened Prelude
  import opened EffectStore

  datatype CommitRecord = CommitRecord(decision: Option<DecisionRecord>, outcome: Option<string>, committedAt: int)

  type Table = map<string, CommitRecord>

  function Lookup(table: Table, key: string): Option<CommitRecord> {
    if key in table then Some(table[key]) else None
  }

  /** Inserts if absent; the second component says whether it did. */
  function PutIfAbsent(table: Table, key: string, record: CommitRecord): (Table, bool) {
    if key in table then (table, false) else (table[key := record], true)
  }

  class TableCommitRecordStore {
    var table: Table

    constructor ()
      ensures table == map[]
    {
      table := map[];
    }

    method Get(key: string) returns (r: Option<CommitRecord>)
      ensures r == Lookup(table, key)
    {
      if key !in table {
        return None;
      }
      r := Some(table[key]);
    }

    method Put(key: string, record: CommitRecord) returns (won: bool)
      modifies this
      ensures (table, won) == PutIfAbsent(old(table), key, record)
      ensures Lookup(table, key) == if won then Some(record) else Lookup(old(table), key)
    {
      if key in table {
        return false;
      }
      table := table[key := record];
      won := true;
    }
  }
}
