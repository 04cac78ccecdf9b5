/** The batch, entry and usage tables of the server, and the row operations of its repositories. */
module Tables {
  import opened Prelude
  import opened Text

  const MINUTE: int := 60_000_000_000

  datatype Entry = Entry(
    sequence: int, projectId: string, batchId: string, agentId: string, pipelineId: string,
    service: string, host: string, level: string, message: string, observedAt: int)

  datatype Batch = Batch(
    id: string, projectId: string, agentId: string, pipelineId: string, sequence: int,
    hash: Bytes, payloadBytes: int, entries: seq<Entry>, createdAt: int)

  datatype StoredBatch = StoredBatch(
    id: string, projectId: string, agentId: string, pipelineId: string, sequence: int,
    hash: Bytes, entryCount: nat, payloadBytes: int, committed: bool, createdAt: int, committedAt: int)

  datatype Row = Row(projectId: string, batchId: string, entry: Entry)

  datatype Usage = Usage(entries: nat, bytes: nat)

  type Key = (string, string)

  /** Instants are counted from the zero time, which the source treats as missing. */
  datatype Db = Db(
    batches: map<Key, StoredBatch>, entries: map<int, Row>, nextEntry: int, usage: map<(string, int), Usage>)

  const NEW_DB: Db := Db(map[], map[], 1, map[])

  // ---- identifiers

  predicate IsHexDigit(c: char) { '0' <= c <= '9' || 'a' <= c <= 'f' || 'A' <= c <= 'F' }

  predicate ValidUuid(id: string) {
    |id| == 36 && forall i :: 0 <= i < 36 ==> if i in {8, 13, 18, 23} then id[i] == '-' else IsHexDigit(id[i])
  }

  function LowerChar(c: char): char { if 'A' <= c <= 'F' then (c as int + 32) as char else c }

  /** The text a uuid column gives back. */
  function Lower(id: string): (r: string)
    ensures |r| == |id|
  {
    seq(|id|, i requires 0 <= i < |id| => LowerChar(id[i]))
  }

  /** Only the capital hexadecimal letters change, each to its small one. */
  lemma LowerExact(id: string, i: nat)
    requires i < |id|
    ensures Lower(id)[i] == if id[i] in "ABCDEF" then "abcdef"[id[i] as int - 'A' as int] else id[i]
  {}

  function KeyOf(projectId: string, id: string): Key { (projectId, Lower(id)) }

  // ---- validation

  predicate ValidEntry(e: Entry, b: Batch) {
    && (e.projectId == "" || e.projectId == b.projectId)
    && (e.batchId == "" || e.batchId == b.id)
    && (e.agentId == "" || e.agentId == b.agentId)
    && (e.pipelineId == "" || e.pipelineId == b.pipelineId)
    && e.sequence >= 0 && !Blank(e.service) && !Blank(e.host) && !Blank(e.level) && e.observedAt != 0
  }

  predicate ValidBatch(b: Batch) {
    && ValidUuid(b.id) && ValidUuid(b.projectId) && ValidUuid(b.agentId) && ValidUuid(b.pipelineId)
    && b.sequence >= 0 && b.payloadBytes > 0 && b.createdAt != 0
    && b.entries != []
    && forall i :: 0 <= i < |b.entries| ==> b.entries[i].sequence == i && ValidEntry(b.entries[i], b)
  }

  datatype Verdict = Retry | HashConflict | NotCommitted

  /** StoredBatch.VerifyRetry. */
  function VerifyRetry(stored: StoredBatch, candidate: Batch): Verdict {
    if stored.projectId != candidate.projectId || stored.id != candidate.id || !stored.committed then NotCommitted
    else if stored.hash != candidate.hash then HashConflict
    else Retry
  }

  // ---- row operations

  function Stored(b: Batch, at: int): StoredBatch {
    StoredBatch(Lower(b.id), b.projectId, b.agentId, b.pipelineId, b.sequence,
                b.hash, |b.entries|, b.payloadBytes, true, b.createdAt, at)
  }

  /** A row names the agent and the pipeline of its batch, whatever the entry names. */
  function RowOf(b: Batch, e: Entry): Row {
    Row(b.projectId, Lower(b.id), e.(agentId := b.agentId, pipelineId := b.pipelineId))
  }

  /** One insert of several rows: they take consecutive ids. */
  function InsertRows(rows: map<int, Row>, next: int, b: Batch, i: nat): map<int, Row>
    requires i <= |b.entries|
  {
    if i == 0 then rows
    else InsertRows(rows, next, b, i - 1)[next + i - 1 := RowOf(b, b.entries[i - 1])]
  }

  function Minute(at: int): int { at / MINUTE }

  function AddUsage(usage: map<(string, int), Usage>, projectId: string, at: int, entries: nat, bytes: nat): map<(string, int), Usage> {
    var key := (projectId, Minute(at));
    var was := if key in usage then usage[key] else Usage(0, 0);
    usage[key := Usage(was.entries + entries, was.bytes + bytes)]
  }

  /** What one committed transaction of a new batch does to the tables. */
  function InsertAll(db: Db, b: Batch, at: int): Db
    requires b.payloadBytes >= 0
  {
    Db(db.batches[KeyOf(b.projectId, b.id) := Stored(b, at)],
       InsertRows(db.entries, db.nextEntry, b, |b.entries|),
       db.nextEntry + |b.entries|,
       AddUsage(db.usage, b.projectId, at, |b.entries|, b.payloadBytes))
  }

  /** Retention deletes rows of the entry table and nothing else. */
  function DeleteRows(db: Db, doomed: set<int>): Db { db.(entries := db.entries - doomed) }

  // ---- sums

  function BatchEntries(batches: map<Key, StoredBatch>, projectId: string): map<Key, nat> {
    map k | k in batches && k.0 == projectId :: batches[k].entryCount
  }

  function BatchBytes(batches: map<Key, StoredBatch>, projectId: string): map<Key, nat> {
    map k | k in batches && k.0 == projectId :: if batches[k].payloadBytes >= 0 then batches[k].payloadBytes else 0
  }

  function UsageEntries(usage: map<(string, int), Usage>, projectId: string): map<(string, int), nat> {
    map k | k in usage && k.0 == projectId :: usage[k].entries
  }

  function UsageBytes(usage: map<(string, int), Usage>, projectId: string): map<(string, int), nat> {
    map k | k in usage && k.0 == projectId :: usage[k].bytes
  }

  lemma TotalUpdate<K(!new)>(m: map<K, nat>, k: K, n: nat)
    ensures Total(m[k := n]) == Total(m) + n - (if k in m then m[k] else 0)
  {
    if k in m {
      TotalRemove(m, k);
      TotalRemove(m[k := n], k);
      assert m[k := n] - {k} == m - {k};
    } else {
      TotalInsert(m, k, n);
    }
  }

  /** The usage of a project, over all its minutes, is the total of its batches. */
  ghost predicate UsageMatches(db: Db, projectId: string) {
    && Total(UsageEntries(db.usage, projectId)) == Total(BatchEntries(db.batches, projectId))
    && Total(UsageBytes(db.usage, projectId)) == Total(BatchBytes(db.batches, projectId))
  }

  lemma BatchSums(batches: map<Key, StoredBatch>, s: StoredBatch, k: Key, projectId: string)
    requires k !in batches && s.payloadBytes >= 0
    ensures var mine := k.0 == projectId;
            && Total(BatchEntries(batches[k := s], projectId))
            == Total(BatchEntries(batches, projectId)) + (if mine then s.entryCount else 0)
            && Total(BatchBytes(batches[k := s], projectId))
            == Total(BatchBytes(batches, projectId)) + (if mine then s.payloadBytes else 0)
  {
    hide Total;
    if k.0 == projectId {
      assert BatchEntries(batches[k := s], projectId) == BatchEntries(batches, projectId)[k := s.entryCount];
      assert BatchBytes(batches[k := s], projectId) == BatchBytes(batches, projectId)[k := s.payloadBytes];
      TotalUpdate(BatchEntries(batches, projectId), k, s.entryCount);
      TotalUpdate(BatchBytes(batches, projectId), k, s.payloadBytes);
    } else {
      assert BatchEntries(batches[k := s], projectId) == BatchEntries(batches, projectId);
      assert BatchBytes(batches[k := s], projectId) == BatchBytes(batches, projectId);
    }
  }

  lemma UsageSums(usage: map<(string, int), Usage>, projectId: string, at: int, entries: nat, bytes: nat, of: string)
    ensures var usage' := AddUsage(usage, projectId, at, entries, bytes);
            && Total(UsageEntries(usage', of)) == Total(UsageEntries(usage, of)) + (if projectId == of then entries else 0)
            && Total(UsageBytes(usage', of)) == Total(UsageBytes(usage, of)) + (if projectId == of then bytes else 0)
  {
    hide Total;
    var usage' := AddUsage(usage, projectId, at, entries, bytes);
    var m := (projectId, Minute(at));
    if projectId == of {
      assert UsageEntries(usage', of) == UsageEntries(usage, of)[m := usage'[m].entries];
      assert UsageBytes(usage', of) == UsageBytes(usage, of)[m := usage'[m].bytes];
      TotalUpdate(UsageEntries(usage, of), m, usage'[m].entries);
      TotalUpdate(UsageBytes(usage, of), m, usage'[m].bytes);
    } else {
      assert UsageEntries(usage', of) == UsageEntries(usage, of);
      assert UsageBytes(usage', of) == UsageBytes(usage, of);
    }
  }

  /** The bucket that is charged is the one of the minute that `at` falls into, and no other. */
  lemma UsageAtMinute(usage: map<(string, int), Usage>, projectId: string, at: int, entries: nat, bytes: nat, of: string, m: int)
    ensures var usage' := AddUsage(usage, projectId, at, entries, bytes);
            var was := if (of, m) in usage then usage[(of, m)] else Usage(0, 0);
            if of == projectId && m * 60_000_000_000 <= at < (m + 1) * 60_000_000_000 then
              (of, m) in usage' && usage'[(of, m)].entries == was.entries + entries && usage'[(of, m)].bytes == was.bytes + bytes
            else
              ((of, m) in usage' <==> (of, m) in usage) && ((of, m) in usage ==> usage'[(of, m)] == was)
  {
    assert m * MINUTE <= at < (m + 1) * MINUTE <==> at / MINUTE == m;
  }

  lemma InsertKeepsUsage(db: Db, b: Batch, at: int, projectId: string)
    requires UsageMatches(db, projectId) && KeyOf(b.projectId, b.id) !in db.batches && b.payloadBytes >= 0
    ensures UsageMatches(InsertAll(db, b, at), projectId)
  {
    hide Total, Lower, InsertRows, BatchEntries, BatchBytes, UsageEntries, UsageBytes, AddUsage;
    BatchSums(db.batches, Stored(b, at), KeyOf(b.projectId, b.id), projectId);
    UsageSums(db.usage, b.projectId, at, |b.entries|, b.payloadBytes, projectId);
  }

  // ---- entry rows

  /** Which stored log entry a row is. */
  function Place(r: Row): (Key, int) { ((r.projectId, r.batchId), r.entry.sequence) }

  ghost predicate RowKnown(db: Db, id: int) {
    id in db.entries ==>
      var r := db.entries[id];
      && id < db.nextEntry
      && (r.projectId, r.batchId) in db.batches
      && 0 <= r.entry.sequence < db.batches[(r.projectId, r.batchId)].entryCount
  }

  /** Every row belongs to a committed batch, and no log entry is stored twice. */
  ghost predicate RowsOk(db: Db) {
    && (forall id :: RowKnown(db, id))
    && (forall i, j :: i in db.entries && j in db.entries && i != j ==> Place(db.entries[i]) != Place(db.entries[j]))
  }

  ghost predicate KeysOk(db: Db) {
    forall k :: k in db.batches ==>
      db.batches[k].projectId == k.0 && db.batches[k].id == k.1 && db.batches[k].committed
  }

  ghost predicate DbOk(db: Db) {
    RowsOk(db) && KeysOk(db) && forall p :: UsageMatches(db, p)
  }

  lemma {:induction false} InsertedRows(rows: map<int, Row>, next: int, b: Batch, i: nat)
    requires i <= |b.entries| && forall id :: id in rows ==> id < next
    ensures var rows' := InsertRows(rows, next, b, i);
            && (forall id :: id in rows' <==> id in rows || next <= id < next + i)
            && (forall id :: id in rows ==> rows'[id] == rows[id])
            && (forall id :: next <= id < next + i ==> rows'[id] == RowOf(b, b.entries[id - next]))
  {
    hide Lower;
    if i > 0 { InsertedRows(rows, next, b, i - 1); }
  }

  /** A stored row says what a log entry of the batch says, field by field. */
  ghost predicate Says(r: Row, projectId: string, b: Batch, e: Entry) {
    && r.projectId == projectId && r.batchId == Lower(b.id)
    && r.entry.agentId == b.agentId && r.entry.pipelineId == b.pipelineId
    && r.entry.sequence == e.sequence && r.entry.observedAt == e.observedAt && r.entry.level == e.level
    && r.entry.service == e.service && r.entry.host == e.host && r.entry.message == e.message
  }

  /** The rows that a batch adds say what its entries say, in their order; the others stay. */
  lemma InsertSays(db: Db, b: Batch, at: int)
    requires RowsOk(db) && b.payloadBytes >= 0
    ensures var rows, rows' := db.entries, InsertAll(db, b, at).entries;
            && (forall id :: id in rows' <==> id in rows || db.nextEntry <= id < db.nextEntry + |b.entries|)
            && (forall id :: id in rows ==> id < db.nextEntry && rows'[id] == rows[id])
            && (forall i :: 0 <= i < |b.entries| ==> Says(rows'[db.nextEntry + i], b.projectId, b, b.entries[i]))
  {
    hide Lower, InsertRows, AddUsage;
    RowsBelowNext(db);
    InsertedRows(db.entries, db.nextEntry, b, |b.entries|);
    var rows' := InsertAll(db, b, at).entries;
    forall i | 0 <= i < |b.entries| ensures Says(rows'[db.nextEntry + i], b.projectId, b, b.entries[i]) {
      assert rows'[db.nextEntry + i] == RowOf(b, b.entries[db.nextEntry + i - db.nextEntry]);
    }
  }

  lemma RowsBelowNext(db: Db)
    requires RowsOk(db)
    ensures forall id :: id in db.entries ==> id < db.nextEntry
  {
    forall id | id in db.entries ensures id < db.nextEntry { assert RowKnown(db, id); }
  }

  lemma InsertKeepsRows(db: Db, b: Batch, at: int)
    requires RowsOk(db) && ValidBatch(b) && KeyOf(b.projectId, b.id) !in db.batches
    ensures RowsOk(InsertAll(db, b, at))
  {
    hide Lower, InsertRows, ValidUuid, ValidEntry, AddUsage;
    var db' := InsertAll(db, b, at);
    RowsBelowNext(db);
    InsertedRows(db.entries, db.nextEntry, b, |b.entries|);
    forall id ensures RowKnown(db', id) {
      assert RowKnown(db, id);
    }
    forall i, j | i in db'.entries && j in db'.entries && i != j
      ensures Place(db'.entries[i]) != Place(db'.entries[j])
    {
      assert RowKnown(db, i) && RowKnown(db, j);
    }
  }

  lemma InsertKeeps(db: Db, b: Batch, at: int)
    requires DbOk(db) && ValidBatch(b) && KeyOf(b.projectId, b.id) !in db.batches
    ensures DbOk(InsertAll(db, b, at))
  {
    hide ValidUuid, ValidEntry, Lower, RowsOk, UsageMatches;
    InsertKeepsRows(db, b, at);
    forall p ensures UsageMatches(InsertAll(db, b, at), p) { InsertKeepsUsage(db, b, at, p); }
  }

  /** Retention touches no batch and no usage, and adds no row. */
  lemma DeleteKeeps(db: Db, doomed: set<int>)
    requires DbOk(db)
    ensures DbOk(DeleteRows(db, doomed))
  {
    hide Total;
    var db' := DeleteRows(db, doomed);
    forall id ensures RowKnown(db', id) { assert RowKnown(db, id); }
    forall p ensures UsageMatches(db', p) { assert UsageMatches(db, p); }
  }

  /** Retention removes the rows it names, and only those. */
  lemma DeleteShows(db: Db, doomed: set<int>, id: int)
    ensures var rows' := DeleteRows(db, doomed).entries;
            && (id in rows' <==> id in db.entries && id !in doomed)
            && (id in rows' ==> rows'[id] == db.entries[id])
    ensures DeleteRows(db, doomed) == db.(entries := DeleteRows(db, doomed).entries)
  {}

  /** Which entries of a batch are in the table. */
  ghost predicate Present(db: Db, k: Key, sequence: int) {
    exists id :: id in db.entries && Place(db.entries[id]) == (k, sequence)
  }

  lemma InsertShows(db: Db, b: Batch, at: int, k: Key, sequence: int)
    requires RowsOk(db) && ValidBatch(b) && KeyOf(b.projectId, b.id) !in db.batches
    ensures Present(InsertAll(db, b, at), k, sequence)
       <==> Present(db, k, sequence) || (k == KeyOf(b.projectId, b.id) && 0 <= sequence < |b.entries|)
  {
    hide Lower, InsertRows, ValidUuid, ValidEntry, AddUsage;
    var db' := InsertAll(db, b, at);
    RowsBelowNext(db);
    InsertedRows(db.entries, db.nextEntry, b, |b.entries|);
    if Present(db, k, sequence) {
      var id :| id in db.entries && Place(db.entries[id]) == (k, sequence);
      assert id in db'.entries && db'.entries[id] == db.entries[id];
    }
    if k == KeyOf(b.projectId, b.id) && 0 <= sequence < |b.entries| {
      assert db.nextEntry + sequence in db'.entries;
      assert db'.entries[db.nextEntry + sequence] == RowOf(b, b.entries[sequence]);
    }
  }
}
