/**
  The server's Accept: checks, admission, one transaction that inserts or recognizes a batch, and
  the settlement of the reservation.
*/
module Ingest {
  import opened Prelude
  import opened Tables
  import opened Text
  import Admission

  datatype Failure =
    | ScopeDenied | ProjectMismatch | AgentMismatch | Invalid | RateLimited(retryAfter: int) | CapacityExceeded
    | NotFound | ProjectDisabled | AgentDisabled | PipelineUnavailable | IdempotencyConflict | Internal

  datatype Principal = Principal(keyId: string, projectId: string, agentId: Option<string>, ingest: bool)

  datatype Pipeline = Pipeline(agentId: string, drains: bool)

  /** What the transaction reads of the project, agent and pipeline that a batch names; None is a missing row. */
  datatype Directory = Directory(projectActive: Option<bool>, agentEnabled: Option<bool>, pipeline: Option<Pipeline>)

  /** How a transaction ends when its body succeeds. An unseen commit is reported as an error. */
  datatype Fate = Commits | CommitsUnseen | Fails

  datatype Response = Accepted(id: string, entries: nat) | Duplicate(id: string, entries: nat) | Refused(failure: Failure)

  predicate EmptyHash(h: Bytes) { |h| == 32 && forall i :: 0 <= i < 32 ==> h[i] == 0 }

  // ---- before the transaction

  function OwnEntry(e: Entry, projectId: string): Entry { e.(projectId := projectId) }

  /** The clone of the candidate that is validated and stored. */
  function Owned(candidate: Batch, projectId: string): (b: Batch)
    ensures |b.entries| == |candidate.entries|
  {
    candidate.(projectId := projectId,
               entries := seq(|candidate.entries|, i requires 0 <= i < |candidate.entries| =>
                                OwnEntry(candidate.entries[i], projectId)))
  }

  predicate ForeignEntry(candidate: Batch, projectId: string) {
    exists i :: 0 <= i < |candidate.entries| && candidate.entries[i].projectId != "" && candidate.entries[i].projectId != projectId
  }

  /** The checks that come before admission; None when the candidate passes. */
  function Refusal(p: Principal, candidate: Batch): Option<Failure> {
    if !p.ingest then Some(ScopeDenied)
    else if candidate.projectId != "" && candidate.projectId != p.projectId then Some(ProjectMismatch)
    else if !ValidUuid(candidate.agentId) then Some(Invalid)
    else if p.agentId.Some? && p.agentId.value != candidate.agentId then Some(AgentMismatch)
    else if ForeignEntry(candidate, p.projectId) then Some(ProjectMismatch)
    else if EmptyHash(candidate.hash) then Some(Invalid)
    else if !ValidBatch(Owned(candidate, p.projectId)) then Some(Invalid)
    else None
  }

  function Cost(p: Principal, b: Batch): Admission.Request {
    Admission.Request(p.keyId, p.projectId, |b.entries|, b.payloadBytes)
  }

  // ---- the transaction

  function Gate(dir: Directory, b: Batch): Option<Failure> {
    if dir.projectActive.None? then Some(NotFound)
    else if !dir.projectActive.value then Some(ProjectDisabled)
    else if dir.agentEnabled.None? then Some(NotFound)
    else if !dir.agentEnabled.value then Some(AgentDisabled)
    else if dir.pipeline.None? then Some(NotFound)
    else if dir.pipeline.value.agentId != b.agentId then Some(Invalid)
    else if !dir.pipeline.value.drains then Some(PipelineUnavailable)
    else None
  }

  /** The body of the transaction, when no statement fails. */
  function Body(db: Db, dir: Directory, b: Batch, at: int): (Db, Response)
    requires b.payloadBytes >= 0
  {
    var key := KeyOf(b.projectId, b.id);
    if Gate(dir, b).Some? then (db, Refused(Gate(dir, b).value))
    else if at == 0 then (db, Refused(Invalid))
    else if key in db.batches then
      (db,
       match VerifyRetry(db.batches[key], b)
       case NotCommitted => Refused(Invalid)
       case HashConflict => Refused(IdempotencyConflict)
       case Retry => Duplicate(b.id, db.batches[key].entryCount))
    else (InsertAll(db, b, at), Accepted(b.id, |b.entries|))
  }

  function Transact(db: Db, dir: Directory, b: Batch, at: int, fate: Fate): (Db, Response)
    requires b.payloadBytes >= 0
  {
    var (db', response) := Body(db, dir, b, at);
    if response.Refused? then (db, response)
    else
      match fate
      case Commits => (db', response)
      case CommitsUnseen => (db', Refused(Internal))
      case Fails => (db, Refused(Internal))
  }

  /** Accept on the tables, given the answer of admission. */
  function AcceptOp(db: Db, p: Principal, candidate: Batch, decision: Admission.Decision, dir: Directory, at: int, fate: Fate): (Db, Response) {
    match Refusal(p, candidate)
    case Some(failure) => (db, Refused(failure))
    case None =>
      match decision
      case Invalid => (db, Refused(Failure.Invalid))
      case TooLarge => (db, Refused(CapacityExceeded))
      case Limited(_, retryAfter) => (db, Refused(RateLimited(retryAfter)))
      case Granted => Transact(db, dir, Owned(candidate, p.projectId), at, fate)
  }

  // ---- what Accept promises

  lemma BodyKeeps(db: Db, dir: Directory, b: Batch, at: int)
    requires DbOk(db) && ValidBatch(b)
    ensures DbOk(Body(db, dir, b, at).0)
  {
    hide DbOk, ValidUuid, ValidEntry, Lower, InsertAll;
    if KeyOf(b.projectId, b.id) !in db.batches { InsertKeeps(db, b, at); }
  }

  /** Every outcome keeps the tables consistent: usage is the total of the batches, entries are not doubled. */
  lemma AcceptKeepsTables(
      db: Db, p: Principal, candidate: Batch, decision: Admission.Decision, dir: Directory, at: int, fate: Fate)
    requires DbOk(db)
    ensures DbOk(AcceptOp(db, p, candidate, decision, dir, at, fate).0)
  {
    hide DbOk, ValidBatch, ForeignEntry, ValidUuid, Body, Owned;
    if Refusal(p, candidate).None? { BodyKeeps(db, dir, Owned(candidate, p.projectId), at); }
  }

  /** A stored batch is never changed or dropped, so a batch is inserted at most once. */
  lemma AcceptInsertsOnce(
      db: Db, p: Principal, candidate: Batch, decision: Admission.Decision, dir: Directory, at: int, fate: Fate)
    ensures var (db', response) := AcceptOp(db, p, candidate, decision, dir, at, fate);
            var key := KeyOf(p.projectId, candidate.id);
            && (forall k :: k in db.batches ==> k in db'.batches && db'.batches[k] == db.batches[k])
            && (forall k :: k in db'.batches && k !in db.batches ==> k == key)
            && (response.Accepted? ==> key !in db.batches)
            && (key in db'.batches && key !in db.batches ==> db'.batches[key].hash == candidate.hash)
            && (response.Refused? && fate != CommitsUnseen ==> db' == db)
  {
    hide Lower, ValidBatch, ForeignEntry, ValidUuid, InsertRows, AddUsage;
  }

  /** A log entry that may be in the batch: its own names are absent or the batch's, and nothing is missing. */
  ghost predicate EntryAllowed(p: Principal, candidate: Batch, i: nat)
    requires i < |candidate.entries|
  {
    var e := candidate.entries[i];
    && (e.projectId == "" || e.projectId == p.projectId) && (e.batchId == "" || e.batchId == candidate.id)
    && (e.agentId == "" || e.agentId == candidate.agentId) && (e.pipelineId == "" || e.pipelineId == candidate.pipelineId)
    && e.sequence == i && TrimSpace(e.service) != "" && TrimSpace(e.host) != "" && TrimSpace(e.level) != ""
    && e.observedAt != 0
  }

  /** A batch that a principal may send: authentication and validation together. */
  ghost predicate MaySend(p: Principal, candidate: Batch) {
    && p.ingest
    && (candidate.projectId == "" || candidate.projectId == p.projectId)
    && (p.agentId.Some? ==> p.agentId.value == candidate.agentId)
    && ValidUuid(candidate.id) && ValidUuid(p.projectId) && ValidUuid(candidate.agentId) && ValidUuid(candidate.pipelineId)
    && candidate.sequence >= 0 && candidate.payloadBytes > 0 && candidate.createdAt != 0
    && !(|candidate.hash| == 32 && forall i :: 0 <= i < 32 ==> candidate.hash[i] == 0)
    && candidate.entries != [] && forall i :: 0 <= i < |candidate.entries| ==> EntryAllowed(p, candidate, i)
  }

  /** The project, the agent and the pipeline exist, are switched on and belong together. */
  ghost predicate Administered(candidate: Batch, dir: Directory) {
    && dir.projectActive == Some(true) && dir.agentEnabled == Some(true)
    && dir.pipeline.Some? && dir.pipeline.value.agentId == candidate.agentId && dir.pipeline.value.drains
  }

  lemma EntryAllowedExactly(p: Principal, candidate: Batch, i: nat)
    requires i < |candidate.entries|
    ensures var b, e := Owned(candidate, p.projectId), candidate.entries[i];
            EntryAllowed(p, candidate, i)
            <==> (e.projectId == "" || e.projectId == p.projectId) && b.entries[i].sequence == i && ValidEntry(b.entries[i], b)
  {
    hide TrimSpace;
  }

  /** The checks before admission are these. */
  lemma MaySendExactly(p: Principal, candidate: Batch)
    ensures Refusal(p, candidate).None? <==> MaySend(p, candidate)
  {
    hide ValidUuid, ValidEntry, EntryAllowed;
    var b := Owned(candidate, p.projectId);
    forall i | 0 <= i < |candidate.entries|
      ensures EntryAllowed(p, candidate, i)
         <==> (candidate.entries[i].projectId == "" || candidate.entries[i].projectId == p.projectId)
              && b.entries[i].sequence == i && ValidEntry(b.entries[i], b)
    {
      EntryAllowedExactly(p, candidate, i);
    }
    if MaySend(p, candidate) { assert !ForeignEntry(candidate, p.projectId); }
  }

  /** A new batch is stored exactly for a request that is allowed and admitted, if the transaction commits. */
  lemma StoredExactlyWhenAllowed(
      db: Db, p: Principal, candidate: Batch, decision: Admission.Decision, dir: Directory, at: int, fate: Fate)
    requires KeyOf(p.projectId, candidate.id) !in db.batches
    ensures var (db', response) := AcceptOp(db, p, candidate, decision, dir, at, fate);
            var stored := MaySend(p, candidate) && Administered(candidate, dir) && decision.Granted? && at != 0 && fate != Fails;
            && (KeyOf(p.projectId, candidate.id) in db'.batches <==> stored)
            && (response.Accepted? <==> stored && fate == Commits)
  {
    hide Lower, ValidBatch, ForeignEntry, ValidUuid, InsertRows, AddUsage, MaySend, EmptyHash;
    MaySendExactly(p, candidate);
  }

  /** A stored batch has the fields of the request, and its rows say what the request's entries say. */
  lemma StoredAsSent(
      db: Db, p: Principal, candidate: Batch, decision: Admission.Decision, dir: Directory, at: int, fate: Fate)
    requires RowsOk(db) && KeyOf(p.projectId, candidate.id) !in db.batches
    requires KeyOf(p.projectId, candidate.id) in AcceptOp(db, p, candidate, decision, dir, at, fate).0.batches
    ensures var db' := AcceptOp(db, p, candidate, decision, dir, at, fate).0;
            var stored := db'.batches[KeyOf(p.projectId, candidate.id)];
            && stored.id == Lower(candidate.id) && stored.projectId == p.projectId
            && stored.agentId == candidate.agentId && stored.pipelineId == candidate.pipelineId
            && stored.sequence == candidate.sequence && stored.hash == candidate.hash
            && stored.entryCount == |candidate.entries| && stored.payloadBytes == candidate.payloadBytes
            && stored.committed && stored.createdAt == candidate.createdAt && stored.committedAt == at
    ensures var db' := AcceptOp(db, p, candidate, decision, dir, at, fate).0;
            && db'.nextEntry == db.nextEntry + |candidate.entries|
            && (forall id :: id in db'.entries <==> id in db.entries || db.nextEntry <= id < db'.nextEntry)
            && (forall id :: id in db.entries ==> id < db.nextEntry && db'.entries[id] == db.entries[id])
            && (forall i :: 0 <= i < |candidate.entries| ==>
                  candidate.entries[i].sequence == i
                  && Says(db'.entries[db.nextEntry + i], p.projectId, candidate, candidate.entries[i]))
  {
    hide Lower, ForeignEntry, ValidUuid, InsertRows, AddUsage, Says, RowsOk, EmptyHash, ValidEntry;
    var b := Owned(candidate, p.projectId);
    if b.payloadBytes >= 0 { InsertSays(db, b, at); }
    forall i | 0 <= i < |candidate.entries|
      ensures Says(InsertRows(db.entries, db.nextEntry, b, |b.entries|)[db.nextEntry + i], p.projectId, b, b.entries[i])
         ==> Says(InsertRows(db.entries, db.nextEntry, b, |b.entries|)[db.nextEntry + i], p.projectId, candidate, candidate.entries[i])
    {
      OwnSays(InsertRows(db.entries, db.nextEntry, b, |b.entries|)[db.nextEntry + i], p.projectId, candidate, candidate.entries[i]);
    }
  }

  /** A request that adds no batch changes nothing at all. */
  lemma NothingStored(
      db: Db, p: Principal, candidate: Batch, decision: Admission.Decision, dir: Directory, at: int, fate: Fate)
    requires var key := KeyOf(p.projectId, candidate.id);
             key in db.batches || key !in AcceptOp(db, p, candidate, decision, dir, at, fate).0.batches
    ensures AcceptOp(db, p, candidate, decision, dir, at, fate).0 == db
  {
    hide Lower, ValidBatch, ForeignEntry, ValidUuid, InsertRows, AddUsage, EmptyHash;
  }

  lemma OwnSays(r: Row, projectId: string, candidate: Batch, e: Entry)
    ensures Says(r, projectId, Owned(candidate, projectId), OwnEntry(e, projectId)) <==> Says(r, projectId, candidate, e)
  {}

  /** Each refusal with its reason, exactly; `at` and the fate of the transaction come last. */
  lemma RefusedBecause(
      db: Db, p: Principal, candidate: Batch, decision: Admission.Decision, dir: Directory, at: int, fate: Fate)
    ensures var response := AcceptOp(db, p, candidate, decision, dir, at, fate).1;
            var ownProject := candidate.projectId == "" || candidate.projectId == p.projectId;
            var ownAgent := p.agentId.Some? ==> p.agentId.value == candidate.agentId;
            && (response == Refused(ScopeDenied) <==> !p.ingest)
            && (response == Refused(ProjectMismatch) <==>
                  p.ingest && (!ownProject || (ValidUuid(candidate.agentId) && ownAgent
                               && exists e :: e in candidate.entries && e.projectId != "" && e.projectId != p.projectId)))
            && (response == Refused(AgentMismatch) <==> p.ingest && ownProject && ValidUuid(candidate.agentId) && !ownAgent)
            && (response == Refused(CapacityExceeded) <==> MaySend(p, candidate) && decision.TooLarge?)
            && (response.Refused? && response.failure.RateLimited? <==> MaySend(p, candidate) && decision.Limited?)
            && (response.Refused? && response.failure.RateLimited? ==> response.failure.retryAfter == decision.retryAfter)
  {
    hide Lower, ValidBatch, ValidUuid, InsertRows, AddUsage, MaySend, EmptyHash;
    MaySendExactly(p, candidate);
    assert ForeignEntry(candidate, p.projectId)
      <==> exists e :: e in candidate.entries && e.projectId != "" && e.projectId != p.projectId;
  }

  /** What administration refuses after admission, each reason exactly, in the order of the checks. */
  lemma TurnedAwayBecause(db: Db, p: Principal, candidate: Batch, dir: Directory, at: int, fate: Fate)
    requires MaySend(p, candidate)
    ensures var response := AcceptOp(db, p, candidate, Admission.Granted, dir, at, fate).1;
            var project, agent := dir.projectActive == Some(true), dir.agentEnabled == Some(true);
            var pipeline := dir.pipeline.Some? && dir.pipeline.value.agentId == candidate.agentId;
            && (response == Refused(NotFound) <==>
                  dir.projectActive.None? || (project && dir.agentEnabled.None?) || (project && agent && dir.pipeline.None?))
            && (response == Refused(ProjectDisabled) <==> dir.projectActive == Some(false))
            && (response == Refused(AgentDisabled) <==> project && dir.agentEnabled == Some(false))
            && (response == Refused(PipelineUnavailable) <==> project && agent && pipeline && !dir.pipeline.value.drains)
            && (Administered(candidate, dir) && at != 0 && KeyOf(p.projectId, candidate.id) !in db.batches ==>
                  (response == Refused(Internal) <==> fate != Commits))
            && (Administered(candidate, dir) && at != 0 && fate == Commits ==> response != Refused(Internal))
            && (project && agent && dir.pipeline.Some? && !pipeline ==> response == Refused(Invalid))
  {
    hide Lower, ValidBatch, ForeignEntry, ValidUuid, InsertRows, AddUsage, MaySend, EmptyHash;
    MaySendExactly(p, candidate);
  }

  /** A positive answer means that a batch with this hash is committed under this id. */
  lemma AnswerMeansStored(
      db: Db, p: Principal, candidate: Batch, decision: Admission.Decision, dir: Directory, at: int, fate: Fate)
    ensures var (db', response) := AcceptOp(db, p, candidate, decision, dir, at, fate);
            var key := KeyOf(p.projectId, candidate.id);
            response.Accepted? || response.Duplicate? ==>
              && response.id == candidate.id
              && key in db'.batches && db'.batches[key].hash == candidate.hash
              && response.entries == db'.batches[key].entryCount
  {
    hide Lower, ValidBatch, ForeignEntry, ValidUuid, InsertRows, AddUsage;
  }

  /**
    The verdict on a batch that is already stored, exactly. The id column gives ids back in lower
    case while VerifyRetry compares text, so a retry is recognized only if its id has no capitals.
  */
  lemma RetryVerdict(
      db: Db, p: Principal, candidate: Batch, dir: Directory, at: int)
    requires DbOk(db) && Refusal(p, candidate).None? && Gate(dir, candidate).None? && at != 0
    requires KeyOf(p.projectId, candidate.id) in db.batches
    ensures var (db', response) := AcceptOp(db, p, candidate, Admission.Granted, dir, at, Commits);
            var stored := db.batches[KeyOf(p.projectId, candidate.id)];
            && db' == db
            && (response.Duplicate? <==> Lower(candidate.id) == candidate.id && stored.hash == candidate.hash)
            && (response == Refused(IdempotencyConflict) <==> Lower(candidate.id) == candidate.id && stored.hash != candidate.hash)
            && (response == Refused(Invalid) <==> Lower(candidate.id) != candidate.id)
  {
    hide Lower, ValidBatch, ForeignEntry, ValidUuid, UsageMatches, RowsOk;
  }

  /** A witness that the case matters: the same batch sent twice with a capital in its id. */
  lemma CapitalIdIsNotRecognized(db: Db, p: Principal, candidate: Batch, dir: Directory, at: int)
    requires DbOk(db) && Refusal(p, candidate).None? && Gate(dir, candidate).None? && at != 0
    requires KeyOf(p.projectId, candidate.id) !in db.batches && Lower(candidate.id) != candidate.id
    ensures var (once, first) := AcceptOp(db, p, candidate, Admission.Granted, dir, at, Commits);
            var (twice, second) := AcceptOp(once, p, candidate, Admission.Granted, dir, at, Commits);
            first.Accepted? && second == Refused(Invalid) && twice == once
  {
    hide Lower, ValidBatch, ForeignEntry, ValidUuid, InsertRows, AddUsage, DbOk;
    AcceptKeepsTables(db, p, candidate, Admission.Granted, dir, at, Commits);
    RetryVerdict(AcceptOp(db, p, candidate, Admission.Granted, dir, at, Commits).0, p, candidate, dir, at);
  }

  /** Accept charges the key one request, and the project the entries and the bytes that were sent. */
  lemma ChargesWhatIsSent(cfg: Admission.Config, st: Admission.State, clock: int, now: int, p: Principal, candidate: Batch)
    requires Admission.ValidConfig(cfg) && Admission.StateOk(cfg, st, clock) && clock <= now
    ensures var (st', d) := Admission.AllowOp(cfg, st, now, Cost(p, candidate), true);
            d.Granted? ==>
              && Admission.KeyLeft(st', p.keyId, Admission.KeyHolding(cfg, st, p.keyId, now) - 1.0, now)
              && Admission.ProjectLeft(st', p.projectId,
                   Admission.EntriesHolding(cfg, st, p.projectId, now) - |candidate.entries| as real,
                   Admission.BytesHolding(cfg, st, p.projectId, now) - candidate.payloadBytes as real,
                   Admission.Inflight(st, p.projectId) + 1, now)
  {
    hide Admission.StateOk, Admission.AllowOp, Admission.KeyHolding, Admission.EntriesHolding, Admission.BytesHolding;
    Admission.TakesExactly(cfg, st, clock, now, Cost(p, candidate));
  }

  // ---- the service

  /** The database as the repositories change it. */
  class Database {
    var batches: map<Key, StoredBatch>
    var entries: map<int, Row>
    var nextEntry: int
    var usage: map<(string, int), Usage>

    constructor ()
      ensures Value() == NEW_DB
    {
      batches := map[];
      entries := map[];
      nextEntry := 1;
      usage := map[];
    }

    ghost function Value(): Db
      reads this
    {
      Db(batches, entries, nextEntry, usage)
    }

    /** InsertBatch: false when the id is taken. */
    method InsertBatch(b: Batch, at: int) returns (inserted: bool)
      modifies `batches
      ensures inserted == (KeyOf(b.projectId, b.id) !in old(batches))
      ensures batches == if inserted then old(batches)[KeyOf(b.projectId, b.id) := Stored(b, at)] else old(batches)
    {
      var key := KeyOf(b.projectId, b.id);
      inserted := key !in batches;
      if inserted { batches := batches[key := Stored(b, at)]; }
    }

    method InsertEntries(b: Batch)
      modifies `entries, `nextEntry
      ensures entries == InsertRows(old(entries), old(nextEntry), b, |b.entries|)
      ensures forall id :: old(nextEntry) <= id < old(nextEntry) + |b.entries| ==>
                id in entries && Says(entries[id], b.projectId, b, b.entries[id - old(nextEntry)])
      ensures nextEntry == old(nextEntry) + |b.entries|
    {
      for i := 0 to |b.entries|
        invariant entries == InsertRows(old(entries), old(nextEntry), b, i) && nextEntry == old(nextEntry) + i
        invariant forall id :: old(nextEntry) <= id < nextEntry ==>
                    id in entries && Says(entries[id], b.projectId, b, b.entries[id - old(nextEntry)])
      {
        entries := entries[nextEntry := RowOf(b, b.entries[i])];
        nextEntry := nextEntry + 1;
      }
    }

    method AddUsage(projectId: string, at: int, newEntries: nat, bytes: nat)
      modifies `usage
      ensures usage == Tables.AddUsage(old(usage), projectId, at, newEntries, bytes)
    {
      var key := (projectId, Minute(at));
      if key in usage {
        usage := usage[key := Usage(usage[key].entries + newEntries, usage[key].bytes + bytes)];
      } else {
        usage := usage[key := Usage(newEntries, bytes)];
      }
    }

    method Rollback(db: Db)
      modifies this
      ensures Value() == db
    {
      batches := db.batches;
      entries := db.entries;
      nextEntry := db.nextEntry;
      usage := db.usage;
    }
  }

  class Service {
    const db: Database
    const limiter: Admission.Limiter

    constructor (db: Database, limiter: Admission.Limiter)
      ensures this.db == db && this.limiter == limiter
    {
      this.db := db;
      this.limiter := limiter;
    }

    /** The closure that Accept hands to the transaction. */
    method RunBody(dir: Directory, b: Batch, at: int) returns (response: Response)
      requires b.payloadBytes >= 0
      modifies db
      ensures (db.Value(), response) == Body(old(db.Value()), dir, b, at)
    {
      hide Gate, Lower, InsertRows, Tables.AddUsage;
      var refused := Gate(dir, b);
      if refused.Some? { return Refused(refused.value); }
      if at == 0 { return Refused(Invalid); }
      var inserted := db.InsertBatch(b, at);
      if !inserted {
        var stored := db.batches[KeyOf(b.projectId, b.id)];
        match VerifyRetry(stored, b)
        case NotCommitted => return Refused(Invalid);
        case HashConflict => return Refused(IdempotencyConflict);
        case Retry => return Duplicate(b.id, stored.entryCount);
      }
      db.InsertEntries(b);
      db.AddUsage(b.projectId, at, |b.entries|, b.payloadBytes);
      return Accepted(b.id, |b.entries|);
    }

    /** withinTx: the changes stay only if the body succeeded and the commit went through. */
    method WithinTx(dir: Directory, b: Batch, at: int, fate: Fate) returns (response: Response)
      requires b.payloadBytes >= 0
      modifies db
      ensures (db.Value(), response) == Transact(old(db.Value()), dir, b, at, fate)
    {
      hide Body;
      var batches, entries, nextEntry, usage := db.batches, db.entries, db.nextEntry, db.usage;
      response := RunBody(dir, b, at);
      if response.Refused? || fate == Fails { db.Rollback(Db(batches, entries, nextEntry, usage)); }
      if !response.Refused? && fate != Commits { response := Refused(Internal); }
    }

    /**
      Accept. The reservation is taken before the transaction and settled once, at the end: its
      cost is kept exactly when the answer is Accepted, and given back otherwise.
    */
    method Accept(p: Principal, candidate: Batch, now: int, dir: Directory, at: int, fate: Fate, later: int)
      returns (response: Response)
      requires Admission.ValidConfig(limiter.cfg)
      modifies db, limiter
      ensures var (admitted, decision) := Admission.AllowOp(limiter.cfg, old(limiter.Value()), now, Cost(p, candidate), true);
              && (db.Value(), response) == AcceptOp(old(db.Value()), p, candidate, decision, dir, at, fate)
              && limiter.Value()
              == if Refusal(p, candidate).Some? then old(limiter.Value())
                 else if decision != Admission.Granted then admitted
                 else Admission.FinishOp(limiter.cfg, admitted, later, Cost(p, candidate), !response.Accepted?)
    {
      hide Refusal, Transact, Admission.AllowOp, Admission.FinishOp, Owned;
      var refused := Refusal(p, candidate);
      if refused.Some? { return Refused(refused.value); }
      var decision := limiter.AllowIngest(now, Cost(p, candidate));
      match decision {
        case Invalid => return Refused(Failure.Invalid);
        case TooLarge => return Refused(CapacityExceeded);
        case Limited(_, retryAfter) => return Refused(RateLimited(retryAfter));
        case Granted =>
      }
      var reservation := new Admission.Reservation(limiter, Cost(p, candidate));
      RefusalPayload(p, candidate);
      response := WithinTx(dir, Owned(candidate, p.projectId), at, fate);
      if response.Accepted? { reservation.Commit(later); }
      reservation.Release(later);
    }
  }

  lemma RefusalPayload(p: Principal, candidate: Batch)
    requires Refusal(p, candidate).None?
    ensures Owned(candidate, p.projectId).payloadBytes >= 0
  {}
}
