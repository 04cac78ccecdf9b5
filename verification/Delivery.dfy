/**
  The delivery protocol as a transition system: one Agent's spool and dispatcher, a network that
  loses and repeats messages, and the server's transactions, some of whose commits go unseen.
*/
module Delivery {
  import opened Prelude
  import opened Framing
  import opened Text
  import opened Spool
  import opened Wal
  import opened Tables
  import opened Ingest
  import Admission
  import Transport

  /**
    What stays fixed: the Agent's codec, how the server reads a request body, and the credential
    the Agent presents.
  */
  datatype Setup = Setup(k: Codec, decode: Bytes -> Option<Tables.Batch>, principal: Principal)

  /** The hash of the canonical payload of a body, if the server can read it. */
  function Digest(s: Setup, payload: Bytes): Option<Bytes> {
    match s.decode(payload) case None => None case Some(b) => Some(b.hash)
  }

  /** Both sides read the same batch id, if the server can read the body. */
  predicate SameId(s: Setup, payload: Bytes) {
    s.decode(payload).Some? ==> s.k.payloadId(payload) == Some(s.decode(payload).value.id)
  }

  /**
    The hypothesis on a body that the Agent spools: it and its compacted form, which is what the log
    stores, say the same to the server. What json.Marshal makes is compact already.
  */
  predicate BodyFaithful(s: Setup, payload: Bytes) {
    && Digest(s, s.k.compact(payload)) == Digest(s, payload)
    && SameId(s, payload) && SameId(s, s.k.compact(payload))
  }

  datatype World = World(
    spool: State,
    inflight: Option<(string, Bytes)>,
    sent: set<Bytes>,
    answers: set<(Bytes, Response)>,
    db: Db,
    spooled: map<string, Option<Bytes>>,
    delivered: set<string>,
    discarded: set<string>,
    inserts: seq<Key>,
    sources: map<Key, Tables.Batch>)

  datatype Step =
    // the Agent
    | Spools(commit: Commit, io: bool)
    | Moves(event: Event)
    | Sends(id: string)
    | Receives(reply: Transport.HttpReply, now: int, date: string -> Option<int>, io: bool, swap: Swap)
    | LosesReply
    | Discards(id: string, io: bool, swap: Swap)
    // the server
    | Serves(payload: Bytes, decision: Admission.Decision, dir: Directory, at: int, fate: Fate)
    | ServesOthers(principal: Principal, candidate: Tables.Batch, decision: Admission.Decision, dir: Directory, at: int, fate: Fate)
    | Retains(doomed: set<int>)

  ghost function Start(maxBytes: nat): World {
    World(State([], EMPTY, maxBytes, false), None, {}, {}, NEW_DB, map[], {}, {}, [], map[])
  }

  // ---- what the spool holds

  function HeldPayload(ix: Index, id: string): Bytes
    requires Active(ix, id)
  {
    if id in ix.pending then ix.pending[id].payload else ix.quarantined[id].commit.payload
  }

  function HeldIds(ix: Index): set<string> { ix.pending.Keys + ix.quarantined.Keys }

  /** What a body says to the server, and whether it says the same when it is compacted. */
  datatype Content = Content(digest: Option<Bytes>, faithful: bool)

  function ContentOf(s: Setup, payload: Bytes): Content { Content(Digest(s, payload), BodyFaithful(s, payload)) }

  /** The batches on the Agent's disk, with the contents of their payloads. */
  function Held(s: Setup, ix: Index): map<string, Content> {
    map id | id in HeldIds(ix) :: ContentOf(s, HeldPayload(ix, id))
  }

  function OwnKey(s: Setup, id: string): Key { KeyOf(s.principal.projectId, id) }

  // ---- the steps

  function ClassOf(w: World, reply: Transport.HttpReply, now: int, date: string -> Option<int>): Transport.Class
    requires w.inflight.Some?
  {
    Transport.Classify(w.inflight.value.0, reply, now, date).kind
  }

  /** Which steps can happen. */
  ghost predicate Enabled(s: Setup, w: World, step: Step) {
    match step
    case Spools(c, _) =>
      // batch ids are random, and written in lower case
      && c.batchId !in w.spooled && OwnKey(s, c.batchId) !in w.db.batches && Lower(c.batchId) == c.batchId
      && BodyFaithful(s, c.payload)
    case Moves(e) => (e.Transitions? || e.Closes? || e.Reopens?) && EventFits(s.k, e)
    case Sends(id) => id in w.spool.live.pending
    case Receives(reply, now, date, _, _) =>
      && w.inflight.Some?
      // no one but the server acknowledges: any other reply is some kind of failure
      && (ClassOf(w, reply, now, date).Accepted? || ClassOf(w, reply, now, date).Duplicate? ==>
            exists r :: (w.inflight.value.1, r) in w.answers && reply == Transport.Render(r))
      && (var result := Transport.Classify(w.inflight.value.0, reply, now, date);
          result.kind.Quarantine? ==>
            EventFits(s.k, Quarantines(w.inflight.value.0, result.status, result.code, now, true)))
    case LosesReply => true
    case Discards(id, _, _) => id in w.spool.live.quarantined
    case Serves(payload, _, _, _, _) => payload in w.sent
    case ServesOthers(p, candidate, _, _, _, _) =>
      forall id :: id in w.spooled ==> KeyOf(p.projectId, candidate.id) != OwnKey(s, id)
    case Retains(_) => true
  }

  /** A batch that left the spool. */
  function Gone(before: Index, after: Index, id: string): set<string> {
    if Active(before, id) && !Active(after, id) then {id} else {}
  }

  function NewKey(before: Db, after: Db, key: Key): seq<Key> {
    if key in after.batches && key !in before.batches then [key] else []
  }

  /** The request that each stored batch came from. */
  function Sources(w: World, after: Db, key: Key, b: Tables.Batch): map<Key, Tables.Batch> {
    if key in after.batches && key !in w.db.batches then w.sources[key := b] else w.sources
  }

  function Answer(s: Setup, db: Db, payload: Bytes, decision: Admission.Decision, dir: Directory, at: int, fate: Fate): (Db, Response) {
    match s.decode(payload)
    case None => (db, Refused(Failure.Invalid))
    case Some(b) => AcceptOp(db, s.principal, b, decision, dir, at, fate)
  }

  ghost function Next(s: Setup, w: World, step: Step): World {
    match step
    case Spools(c, io) =>
      var (spool, out) := CommitOp(s.k, w.spool, c, io);
      w.(spool := spool, spooled := if out == Done then w.spooled[c.batchId := Digest(s, c.payload)] else w.spooled)
    case Moves(e) =>
      w.(spool := Wal.Step(s.k, w.spool, e), inflight := if e.Transitions? then w.inflight else None)
    case Sends(id) =>
      if id !in w.spool.live.pending then w
      else
        var payload := w.spool.live.pending[id].payload;
        w.(inflight := Some((id, payload)), sent := w.sent + {payload})
    case Receives(reply, now, date, io, swap) =>
      if w.inflight.None? then w
      else
        AfterReply(s, w, w.inflight.value.0, Transport.Classify(w.inflight.value.0, reply, now, date), now, io, swap)
    case LosesReply => w.(inflight := None)
    case Discards(id, io, swap) =>
      var spool := AckOp(s.k, w.spool, id, io, swap).0;
      w.(spool := spool, discarded := w.discarded + Gone(w.spool.live, spool.live, id))
    case Serves(payload, decision, dir, at, fate) =>
      var (db, answer) := Answer(s, w.db, payload, decision, dir, at, fate);
      var own := match s.decode(payload) case None => [] case Some(b) => NewKey(w.db, db, OwnKey(s, b.id));
      var sources := match s.decode(payload) case None => w.sources case Some(b) => Sources(w, db, OwnKey(s, b.id), b);
      w.(db := db, answers := w.answers + {(payload, answer)}, inserts := w.inserts + own, sources := sources)
    case ServesOthers(p, candidate, decision, dir, at, fate) =>
      var db := AcceptOp(w.db, p, candidate, decision, dir, at, fate).0;
      var key := KeyOf(p.projectId, candidate.id);
      w.(db := db, inserts := w.inserts + NewKey(w.db, db, key), sources := Sources(w, db, key, candidate))
    case Retains(doomed) => w.(db := DeleteRows(w.db, doomed))
  }

  /** An acknowledgement removes the batch from the spool. */
  function Acknowledge(s: Setup, w: World, id: string, io: bool, swap: Swap): World {
    var spool := AckOp(s.k, w.spool, id, io, swap).0;
    w.(spool := spool, inflight := None, delivered := w.delivered + Gone(w.spool.live, spool.live, id))
  }

  /** The dispatcher's reaction to a classified reply. */
  function AfterReply(s: Setup, w: World, id: string, result: Transport.SendResult, now: int, io: bool, swap: Swap): World {
    match result.kind
    case Accepted => Acknowledge(s, w, id, io, swap)
    case Duplicate => Acknowledge(s, w, id, io, swap)
    case Quarantine =>
      w.(spool := QuarantineOp(s.k, w.spool, id, result.status, result.code, now, io).0, inflight := None)
    case _ => w.(inflight := None)
  }

  // ---- what each operation of the spool does to what it holds

  lemma CommitHolds(s: Setup, st: State, c: Commit, io: bool)
    ensures var (st', out) := CommitOp(s.k, st, c, io);
            && (out != Done ==> st' == st)
            && (out == Done ==> !Active(st.live, c.batchId) || c.batchId !in st.live.seen)
            && (out == Done && !Active(st.live, c.batchId) ==> Held(s, st'.live) == Held(s, st.live)[c.batchId := ContentOf(s, c.payload)])
  {
    hide EncodeCommit, Digest;
  }

  lemma RemoveHolds(s: Setup, ix: Index, id: string)
    ensures Held(s, RemoveActive(ix, id)) == Held(s, ix) - {id}
  {
    hide Digest;
  }

  lemma AckHolds(s: Setup, st: State, id: string, io: bool, swap: Swap)
    ensures var st' := AckOp(s.k, st, id, io, swap).0;
            Held(s, st'.live) == Held(s, st.live) - Gone(st.live, st'.live, id)
  {
    hide Digest, FileBytes, CompactOp, Held;
    RemoveHolds(s, st.live, id);
    CompactLive(s.k, Append(st, Frame(ACK, s.k.putAck(id)), RemoveActive(st.live, id), io).0, swap);
    assert Held(s, st.live) - {} == Held(s, st.live);
  }

  lemma MarkHolds(s: Setup, ix: Index, q: Quarantined)
    requires q.commit.batchId in ix.pending && q.commit == ix.pending[q.commit.batchId]
    ensures Held(s, ApplyQuarantine(ix, q)) == Held(s, ix)
  {
    hide Digest;
    assert HeldIds(ApplyQuarantine(ix, q)) == HeldIds(ix);
  }

  lemma PendingMatches(k: Codec, st: State, id: string)
    requires SpoolOk(k, st) && id in st.live.pending
    ensures st.live.pending[id].batchId == id && k.payloadId(st.live.pending[id].payload) == Some(id)
  {
    assert StoredIn(k, st.live, st.live.pending[id], id);
  }

  lemma QuarantineHolds(s: Setup, st: State, id: string, httpCode: int, code: string, at: int, io: bool)
    requires SpoolOk(s.k, st)
    ensures Held(s, QuarantineOp(s.k, st, id, httpCode, code, at, io).0.live) == Held(s, st.live)
  {
    hide Held, SpoolOk, ApplyQuarantine;
    if id in st.live.pending {
      PendingMatches(s.k, st, id);
      MarkHolds(s, st.live, Quarantined(st.live.pending[id], Mark(id, httpCode, TrimSpace(code), at)));
    }
  }

  lemma ReopenHolds(s: Setup, st: State, st': State)
    requires Faithful(s.k) && Agree(s.k, st'.live, st.live) && HeldFaithful(s, st.live)
    ensures Held(s, st'.live) == Held(s, st.live)
  {
    hide ContentOf, Faithful, PendingIds, QuarantinedIds;
    forall id | id in HeldIds(st.live)
      ensures HeldPayload(st'.live, id) == s.k.compact(HeldPayload(st.live, id))
              && ContentOf(s, HeldPayload(st'.live, id)) == ContentOf(s, HeldPayload(st.live, id))
    {
      assert Held(s, st.live)[id].faithful;
      CompactedContent(s, HeldPayload(st.live, id));
    }
  }

  ghost predicate HeldFaithful(s: Setup, ix: Index) { forall id :: id in Held(s, ix) ==> Held(s, ix)[id].faithful }

  lemma CompactedContent(s: Setup, payload: Bytes)
    requires Faithful(s.k) && ContentOf(s, payload).faithful
    ensures ContentOf(s, s.k.compact(payload)) == ContentOf(s, payload)
  {
    assert PayloadFaithful(s.k, payload);
  }

  lemma MoveHolds(s: Setup, st: State, e: Event)
    requires Faithful(s.k) && SpoolOk(s.k, st) && HeldFaithful(s, st.live)
    requires EventFits(s.k, e) && (e.Transitions? || e.Closes? || e.Reopens?)
    ensures Held(s, Wal.Step(s.k, st, e).live) == Held(s, st.live)
  {
    hide SpoolOk, Faithful, Digest, BodyFaithful;
    match e
    case Transitions(_, _, _) =>
    case Closes =>
    case Reopens(torn, written) =>
      ReopenAgrees(s.k, st, torn, written);
      ReopenHolds(s, st, Wal.Step(s.k, st, e));
  }

  /** After a crash the live index is the replayed one, which agrees with the one that was lost. */
  lemma ReopenAgrees(k: Codec, st: State, torn: Frame, written: nat)
    requires Faithful(k) && SpoolOk(k, st) && EventFits(k, Reopens(torn, written))
    ensures Agree(k, Wal.Step(k, st, Reopens(torn, written)).live, st.live)
  {
    hide WellFormed, Agree, Faithful, TornTail, Scan, Replay, Encode, Concat, Fit;
    var data := Concat(st.frames, k.format) + Encode(torn, k.format)[..written];
    TornOf(k, st, torn, written);
    ScanTornTail(data, st.frames, k.format);
  }

  lemma TornOf(k: Codec, st: State, torn: Frame, written: nat)
    requires SpoolOk(k, st) && EventFits(k, Reopens(torn, written))
    ensures Fit(st.frames, k.format) && |torn.body| < FORMAT_LIMIT && written < |Encode(torn, k.format)|
    ensures TornTail(Concat(st.frames, k.format) + Encode(torn, k.format)[..written], st.frames, k.format)
  {
    hide WellFormed, Agree, Replay, Encode, Concat;
  }

  // ---- the invariant

  /** Every batch on disk is one the Agent spooled, with the content it was spooled with. */
  ghost predicate HeldKnown(s: Setup, w: World) {
    forall id :: id in Held(s, w.spool.live) ==> id in w.spooled && Held(s, w.spool.live)[id] == Content(w.spooled[id], true)
  }

  ghost predicate OwnPayload(s: Setup, w: World, payload: Bytes) {
    BodyFaithful(s, payload) && s.k.payloadId(payload).Some?
    && var id := s.k.payloadId(payload).value;
       id in w.spooled && Digest(s, payload) == w.spooled[id]
  }

  ghost predicate SentKnown(s: Setup, w: World) {
    && (forall p :: p in w.sent ==> OwnPayload(s, w, p))
    && (w.inflight.Some? ==> w.inflight.value.1 in w.sent && s.k.payloadId(w.inflight.value.1) == Some(w.inflight.value.0))
  }

  /** What the server stores under an id of this Agent is what the Agent spooled under it. */
  ghost predicate StoredKnown(s: Setup, w: World) {
    forall id :: id in w.spooled ==>
      Lower(id) == id && (OwnKey(s, id) in w.db.batches ==> Some(w.db.batches[OwnKey(s, id)].hash) == w.spooled[id])
  }

  ghost predicate AnswerTrue(s: Setup, w: World, payload: Bytes, r: Response) {
    && payload in w.sent
    && (r.Refused? ==> !r.failure.IdempotencyConflict?)
    && (!r.Refused? ==> s.k.payloadId(payload) == Some(r.id) && OwnKey(s, r.id) in w.db.batches)
  }

  ghost predicate AnswersTrue(s: Setup, w: World) {
    forall p, r :: (p, r) in w.answers ==> AnswerTrue(s, w, p, r)
  }

  ghost predicate DeliveredStored(s: Setup, w: World) {
    forall id :: id in w.delivered ==> id in w.spooled && OwnKey(s, id) in w.db.batches
  }

  /** No batch is lost: it is on disk, or delivered, or was given up by the operator. */
  ghost predicate Accounted(s: Setup, w: World) {
    forall id :: id in w.spooled ==> id in Held(s, w.spool.live) || id in w.delivered || id in w.discarded
  }

  ghost predicate InsertsMatch(w: World) {
    NoDuplicates(w.inserts) && forall k :: k in w.inserts <==> k in w.db.batches
  }

  ghost predicate AgentSide(s: Setup, w: World) { HeldKnown(s, w) && SentKnown(s, w) && Accounted(s, w) }

  ghost predicate ServerSide(s: Setup, w: World) {
    StoredKnown(s, w) && AnswersTrue(s, w) && DeliveredStored(s, w) && InsertsMatch(w) && DbOk(w.db)
  }

  /** A row says what the entry in its place says, in the request that its batch came from. */
  ghost predicate RowSays(w: World, id: int) {
    id in w.db.entries ==>
      var r := w.db.entries[id];
      var k := (r.projectId, r.batchId);
      k in w.sources && 0 <= r.entry.sequence < |w.sources[k].entries|
      && Says(r, k.0, w.sources[k], w.sources[k].entries[r.entry.sequence])
  }

  /** The request is what the server read in a body that the Agent sent. */
  ghost predicate SentAs(s: Setup, w: World, b: Tables.Batch) { exists p :: p in w.sent && s.decode(p) == Some(b) }

  ghost predicate RowsTrue(s: Setup, w: World) {
    && w.sources.Keys == w.db.batches.Keys
    && (forall id :: RowSays(w, id))
    && (forall id :: id in w.spooled && OwnKey(s, id) in w.sources ==> SentAs(s, w, w.sources[OwnKey(s, id)]))
  }

  ghost predicate Inv(s: Setup, w: World) {
    SpoolOk(s.k, w.spool) && AgentSide(s, w) && ServerSide(s, w) && RowsTrue(s, w)
  }

  /** Steps of the Agent leave the rows alone. */
  lemma RowsTrueKept(s: Setup, w: World, w': World)
    requires RowsTrue(s, w) && w'.db == w.db && w'.sources == w.sources && w.sent <= w'.sent
    requires forall id :: id in w'.spooled ==> id in w.spooled || OwnKey(s, id) !in w.db.batches
    ensures RowsTrue(s, w')
  {
    hide Lower, Says;
    forall id ensures RowSays(w', id) { assert RowSays(w, id); }
    forall id | id in w'.spooled && OwnKey(s, id) in w'.sources ensures SentAs(s, w', w'.sources[OwnKey(s, id)]) {
      assert SentAs(s, w, w.sources[OwnKey(s, id)]);
    }
  }

  /** So does retention, except that it removes some. */
  lemma RowsTrueFewer(s: Setup, w: World, doomed: set<int>)
    requires RowsTrue(s, w)
    ensures RowsTrue(s, w.(db := DeleteRows(w.db, doomed)))
  {
    hide Lower, Says;
    var w' := w.(db := DeleteRows(w.db, doomed));
    forall id ensures RowSays(w', id) {
      assert RowSays(w, id);
      DeleteShows(w.db, doomed, id);
    }
    forall id | id in w'.spooled && OwnKey(s, id) in w'.sources ensures SentAs(s, w', w'.sources[OwnKey(s, id)]) {
      assert SentAs(s, w, w.sources[OwnKey(s, id)]);
    }
  }

  /** A request was served: the rows of a new batch say what its entries say. */
  lemma RowsTrueServed(
      s: Setup, w: World, w': World, p: Principal, b: Tables.Batch, decision: Admission.Decision, dir: Directory, at: int, fate: Fate)
    requires RowsTrue(s, w) && DbOk(w.db) && w'.db == AcceptOp(w.db, p, b, decision, dir, at, fate).0
    requires w'.sources == Sources(w, w'.db, KeyOf(p.projectId, b.id), b) && w'.sent == w.sent && w'.spooled == w.spooled
    requires SentAs(s, w, b) || forall id :: id in w.spooled ==> KeyOf(p.projectId, b.id) != OwnKey(s, id)
    ensures RowsTrue(s, w')
  {
    hide Lower, Says, AcceptOp, DbOk;
    var key := KeyOf(p.projectId, b.id);
    AcceptInsertsOnce(w.db, p, b, decision, dir, at, fate);
    if key in w.db.batches || key !in w'.db.batches {
      NothingStored(w.db, p, b, decision, dir, at, fate);
      RowsTrueKept(s, w, w');
    } else {
      RowsOfOk(w.db);
      StoredAsSent(w.db, p, b, decision, dir, at, fate);
      forall id ensures RowSays(w', id) {
        assert RowSays(w, id);
        if id in w'.db.entries { RowServed(w, w', p, b, id); }
      }
      forall id | id in w'.spooled && OwnKey(s, id) in w'.sources ensures SentAs(s, w', w'.sources[OwnKey(s, id)]) {
        if OwnKey(s, id) != key { assert SentAs(s, w, w.sources[OwnKey(s, id)]); }
      }
    }
  }

  lemma RowServed(w: World, w': World, p: Principal, b: Tables.Batch, id: int)
    requires var key := KeyOf(p.projectId, b.id);
             RowSays(w, id) && key !in w.sources && w'.sources == w.sources[key := b]
    requires id in w'.db.entries && w'.db.nextEntry == w.db.nextEntry + |b.entries|
    requires id in w.db.entries ==> id < w.db.nextEntry && w'.db.entries[id] == w.db.entries[id]
    requires id !in w.db.entries ==> w.db.nextEntry <= id < w'.db.nextEntry
    requires forall i :: w.db.nextEntry <= i < w'.db.nextEntry ==> i in w'.db.entries
    requires forall i :: 0 <= i < |b.entries| ==>
               b.entries[i].sequence == i && Says(w'.db.entries[w.db.nextEntry + i], p.projectId, b, b.entries[i])
    ensures RowSays(w', id)
  {
    hide Lower;
    if id !in w.db.entries {
      var i := id - w.db.nextEntry;
      assert Says(w'.db.entries[w.db.nextEntry + i], p.projectId, b, b.entries[i]);
    }
  }

  lemma RowsOfOk(db: Db)
    requires DbOk(db)
    ensures RowsOk(db)
  {
    hide RowsOk, KeysOk, UsageMatches;
  }

  lemma StartInv(s: Setup, maxBytes: nat)
    requires Faithful(s.k)
    ensures Inv(s, Start(maxBytes))
  {
    EmptySpoolOk(s.k, maxBytes);
    forall p ensures UsageMatches(NEW_DB, p) {
      assert BatchEntries(map[], p) == map[] && BatchBytes(map[], p) == map[];
      assert UsageEntries(map[], p) == map[] && UsageBytes(map[], p) == map[];
    }
  }

  // ---- steps of the Agent

  lemma SpoolsKeeps(s: Setup, w: World, c: Commit, io: bool)
    requires Faithful(s.k) && Inv(s, w) && Enabled(s, w, Spools(c, io))
    ensures Inv(s, Next(s, w, Spools(c, io)))
  {
    hide SpoolOk, CommitOp, Held, Digest, BodyFaithful, DbOk, AnswerTrue, Faithful, Lower, OwnPayload, RowsTrue;
    RowsTrueKept(s, w, Next(s, w, Spools(c, io)));
    CommitKeeps(s.k, w.spool, c, io);
    CommitHolds(s, w.spool, c, io);
    HeldIsActive(s, w.spool.live, c.batchId);
    var w' := Next(s, w, Spools(c, io));
    if CommitOp(s.k, w.spool, c, io).1 == Done {
      assert Held(s, w'.spool.live) == Held(s, w.spool.live)[c.batchId := ContentOf(s, c.payload)];
      AnswersKeep(s, w, w');
      PayloadsKeep(s, w, w');
      assert AgentSide(s, w');
      assert ServerSide(s, w');
    } else {
      SameHoldingKeeps(s, w, w');
    }
  }

  lemma HeldIsActive(s: Setup, ix: Index, id: string)
    ensures id in Held(s, ix) <==> Active(ix, id)
  {}

  lemma AnswersKeep(s: Setup, w: World, w': World)
    requires w.sent <= w'.sent && w.db.batches.Keys <= w'.db.batches.Keys
    ensures forall p, r :: AnswerTrue(s, w, p, r) ==> AnswerTrue(s, w', p, r)
  {}

  /** Steps that change the spool but neither what it holds nor anything else the invariant speaks of. */
  lemma SameHoldingKeeps(s: Setup, w: World, w': World)
    requires Inv(s, w) && SpoolOk(s.k, w'.spool) && Held(s, w'.spool.live) == Held(s, w.spool.live)
    requires w'.sent == w.sent && w'.answers == w.answers && w'.db == w.db && w'.spooled == w.spooled
    requires w'.delivered == w.delivered && w'.discarded == w.discarded && w'.inserts == w.inserts && w'.sources == w.sources
    requires w'.inflight == w.inflight || w'.inflight.None?
    ensures Inv(s, w')
  {
    hide SpoolOk, Held, Digest, DbOk, Lower, OwnPayload, RowsTrue;
    RowsTrueKept(s, w, w');
    assert forall p, r :: AnswerTrue(s, w, p, r) ==> AnswerTrue(s, w', p, r);
    assert forall p :: OwnPayload(s, w, p) ==> OwnPayload(s, w', p) by { PayloadsKeep(s, w, w'); }
  }

  lemma PayloadsKeep(s: Setup, w: World, w': World)
    requires forall id :: id in w.spooled ==> id in w'.spooled && w'.spooled[id] == w.spooled[id]
    ensures forall p :: OwnPayload(s, w, p) ==> OwnPayload(s, w', p)
  {}

  lemma HeldFaithfulOf(s: Setup, w: World)
    requires Inv(s, w)
    ensures HeldFaithful(s, w.spool.live)
  {
    hide SpoolOk, Held, ServerSide, RowsTrue;
  }

  lemma MovesKeeps(s: Setup, w: World, e: Event)
    requires Faithful(s.k) && Inv(s, w) && Enabled(s, w, Moves(e))
    ensures Inv(s, Next(s, w, Moves(e)))
  {
    hide SpoolOk, Held, Digest, BodyFaithful, Faithful, Wal.Step, EventFits, AgentSide, ServerSide, RowsTrue;
    StepKeeps(s.k, w.spool, e);
    HeldFaithfulOf(s, w);
    MoveHolds(s, w.spool, e);
    SameHoldingKeeps(s, w, Next(s, w, Moves(e)));
  }

  lemma SendsKeeps(s: Setup, w: World, id: string)
    requires Faithful(s.k) && Inv(s, w) && Enabled(s, w, Sends(id))
    ensures Inv(s, Next(s, w, Sends(id)))
  {
    hide SpoolOk, Held, Digest, BodyFaithful, DbOk, AnswerTrue, Faithful, Lower, OwnPayload, RowsTrue;
    RowsTrueKept(s, w, Next(s, w, Sends(id)));
    var w' := Next(s, w, Sends(id));
    PendingMatches(s.k, w.spool, id);
    HeldIsActive(s, w.spool.live, id);
    PendingHeld(s, w.spool.live, id);
    OwnPayloadOf(s, w, w.spool.live.pending[id].payload, id);
    AnswersKeep(s, w, w');
    PayloadsKeep(s, w, w');
    assert AgentSide(s, w');
    assert ServerSide(s, w');
  }

  lemma PendingHeld(s: Setup, ix: Index, id: string)
    requires id in ix.pending
    ensures id in Held(s, ix) && Held(s, ix)[id] == ContentOf(s, ix.pending[id].payload)
  {}

  lemma OwnPayloadOf(s: Setup, w: World, payload: Bytes, id: string)
    requires s.k.payloadId(payload) == Some(id) && id in w.spooled && ContentOf(s, payload) == Content(w.spooled[id], true)
    ensures OwnPayload(s, w, payload)
  {}

  /** The answer behind an acknowledgement says that the batch is stored. */
  lemma AcknowledgedIsStored(s: Setup, w: World, reply: Transport.HttpReply, now: int, date: string -> Option<int>, io: bool, swap: Swap)
    requires Inv(s, w) && Enabled(s, w, Receives(reply, now, date, io, swap))
    requires ClassOf(w, reply, now, date).Accepted? || ClassOf(w, reply, now, date).Duplicate?
    ensures w.inflight.value.0 in w.spooled && OwnKey(s, w.inflight.value.0) in w.db.batches
  {
    hide SpoolOk, Held, Digest, DbOk, Lower, Transport.Classify, EventFits, RowsTrue;
    var (id, p) := w.inflight.value;
    Transport.AcknowledgementsNameTheBatch(id, reply, now, date);
    var r :| (p, r) in w.answers && reply == Transport.Render(r);
    assert AnswerTrue(s, w, p, r) && OwnPayload(s, w, p);
  }

  /** Steps that take batches out of the spool and say where they went. */
  lemma RemovalKeeps(s: Setup, w: World, w': World, gone: set<string>)
    requires Inv(s, w) && SpoolOk(s.k, w'.spool) && Held(s, w'.spool.live) == Held(s, w.spool.live) - gone
    requires w'.sent == w.sent && w'.answers == w.answers && w'.db == w.db && w'.spooled == w.spooled && w'.inserts == w.inserts
    requires w'.sources == w.sources
    requires w'.inflight == w.inflight || w'.inflight.None?
    requires w.delivered <= w'.delivered && w.discarded <= w'.discarded && gone <= w'.delivered + w'.discarded
    requires forall id :: id in w'.delivered ==> id in w.delivered || (id in w.spooled && OwnKey(s, id) in w.db.batches)
    ensures Inv(s, w')
  {
    hide SpoolOk, Held, Digest, DbOk, Lower, OwnPayload, AnswerTrue, RowsTrue;
    RowsTrueKept(s, w, w');
    AnswersKeep(s, w, w');
    PayloadsKeep(s, w, w');
    assert AgentSide(s, w');
    assert ServerSide(s, w');
  }

  lemma AcknowledgeKeeps(s: Setup, w: World, id: string, io: bool, swap: Swap)
    requires Faithful(s.k) && Inv(s, w) && id in w.spooled && OwnKey(s, id) in w.db.batches
    ensures Inv(s, Acknowledge(s, w, id, io, swap))
  {
    hide SpoolOk, Held, Digest, BodyFaithful, Faithful, AgentSide, ServerSide, AckOp, RowsTrue;
    AckKeeps(s.k, w.spool, id, io, swap);
    AckHolds(s, w.spool, id, io, swap);
    var w' := Acknowledge(s, w, id, io, swap);
    RemovalKeeps(s, w, w', Gone(w.spool.live, w'.spool.live, id));
  }

  lemma DiscardsKeeps(s: Setup, w: World, id: string, io: bool, swap: Swap)
    requires Faithful(s.k) && Inv(s, w)
    ensures Inv(s, Next(s, w, Discards(id, io, swap)))
  {
    hide SpoolOk, Held, Digest, BodyFaithful, Faithful, AgentSide, ServerSide, AckOp, RowsTrue;
    AckKeeps(s.k, w.spool, id, io, swap);
    AckHolds(s, w.spool, id, io, swap);
    var w' := Next(s, w, Discards(id, io, swap));
    RemovalKeeps(s, w, w', Gone(w.spool.live, w'.spool.live, id));
  }

  lemma QuarantinesKeeps(s: Setup, w: World, id: string, result: Transport.SendResult, now: int, io: bool, swap: Swap)
    requires Faithful(s.k) && Inv(s, w) && result.kind.Quarantine?
    requires EventFits(s.k, Quarantines(id, result.status, result.code, now, true))
    ensures Inv(s, AfterReply(s, w, id, result, now, io, swap))
  {
    hide SpoolOk, Held, Digest, BodyFaithful, Faithful, AgentSide, ServerSide, QuarantineOp, TrimSpace, RowsTrue;
    QuarantineKeeps(s.k, w.spool, id, result.status, result.code, now, io);
    QuarantineHolds(s, w.spool, id, result.status, result.code, now, io);
    SameHoldingKeeps(s, w, AfterReply(s, w, id, result, now, io, swap));
  }

  lemma ReceivesKeeps(s: Setup, w: World, reply: Transport.HttpReply, now: int, date: string -> Option<int>, io: bool, swap: Swap)
    requires Faithful(s.k) && Inv(s, w) && Enabled(s, w, Receives(reply, now, date, io, swap))
    ensures Inv(s, Next(s, w, Receives(reply, now, date, io, swap)))
  {
    hide Inv, Faithful, EventFits, Transport.Classify, Acknowledge, QuarantineOp;
    var result := Transport.Classify(w.inflight.value.0, reply, now, date);
    if result.kind.Accepted? || result.kind.Duplicate? {
      AcknowledgedIsStored(s, w, reply, now, date, io, swap);
      AcknowledgeKeeps(s, w, w.inflight.value.0, io, swap);
    } else if result.kind.Quarantine? {
      QuarantinesKeeps(s, w, w.inflight.value.0, result, now, io, swap);
    } else {
      ForgetsKeeps(s, w);
    }
  }

  lemma ForgetsKeeps(s: Setup, w: World)
    requires Inv(s, w)
    ensures Inv(s, w.(inflight := None))
  {
    hide SpoolOk, Held, Digest, DbOk, AgentSide, ServerSide, RowsTrue;
    OnlySpool(s, w);
    SameHoldingKeeps(s, w, w.(inflight := None));
  }

  lemma OnlySpool(s: Setup, w: World)
    requires Inv(s, w)
    ensures SpoolOk(s.k, w.spool)
  {}

  // ---- steps of the server

  /** Transactions add at most one batch, and change none. */
  lemma NewKeyMatches(w: World, w': World, key: Key)
    requires InsertsMatch(w) && w'.inserts == w.inserts + NewKey(w.db, w'.db, key)
    requires forall k :: k in w.db.batches ==> k in w'.db.batches
    requires forall k :: k in w'.db.batches && k !in w.db.batches ==> k == key
    ensures InsertsMatch(w')
  {}

  lemma ServesKeepsAgent(s: Setup, w: World, w': World)
    requires AgentSide(s, w) && w'.spool == w.spool && w'.sent == w.sent && w'.inflight == w.inflight
    requires w'.spooled == w.spooled && w'.delivered == w.delivered && w'.discarded == w.discarded
    ensures AgentSide(s, w')
  {
    hide Held, OwnPayload, Digest;
    PayloadsKeep(s, w, w');
  }

  /** The answer to one of the Agent's own requests. */
  lemma OwnAnswerTrue(s: Setup, w: World, payload: Bytes, decision: Admission.Decision, dir: Directory, at: int, fate: Fate)
    requires Faithful(s.k) && Inv(s, w) && payload in w.sent && s.decode(payload).Some?
    ensures var b := s.decode(payload).value;
            var (db, r) := AcceptOp(w.db, s.principal, b, decision, dir, at, fate);
            && s.k.payloadId(payload) == Some(b.id)
            && b.id in w.spooled && w.spooled[b.id] == Some(b.hash)
            && (!r.Refused? ==> r.id == b.id && OwnKey(s, b.id) in db.batches)
            && (r.Refused? ==> !r.failure.IdempotencyConflict?)
  {
    hide SpoolOk, Held, DbOk, Lower, AcceptOp, Faithful, RowsTrue;
    assert BodyFaithful(s, payload) && OwnPayload(s, w, payload);
    var b := s.decode(payload).value;
    AnswerMeansStored(w.db, s.principal, b, decision, dir, at, fate);
    NoConflict(w.db, s.principal, b, decision, dir, at, fate);
  }

  lemma NoConflict(db: Db, p: Principal, b: Tables.Batch, decision: Admission.Decision, dir: Directory, at: int, fate: Fate)
    requires KeyOf(p.projectId, b.id) in db.batches ==> db.batches[KeyOf(p.projectId, b.id)].hash == b.hash
    ensures var r := AcceptOp(db, p, b, decision, dir, at, fate).1; r.Refused? ==> !r.failure.IdempotencyConflict?
  {
    hide Lower, ValidBatch, ForeignEntry, ValidUuid, InsertAll;
  }

  lemma ServesKeeps(s: Setup, w: World, payload: Bytes, decision: Admission.Decision, dir: Directory, at: int, fate: Fate)
    requires Faithful(s.k) && Inv(s, w) && payload in w.sent
    ensures Inv(s, Next(s, w, Serves(payload, decision, dir, at, fate)))
  {
    hide Faithful, SpoolOk, Held, DbOk, Lower, AcceptOp, AgentSide, InsertsMatch, AnswerTrue, RowsTrue;
    var w' := Next(s, w, Serves(payload, decision, dir, at, fate));
    ServesKeepsAgent(s, w, w');
    match s.decode(payload)
    case None =>
      assert w'.inserts == w.inserts;
      AnswersKeep(s, w, w');
      RefusedIsTrue(s, w', payload);
      SameInserts(w, w');
      RowsTrueKept(s, w, w');
      assert ServerSide(s, w');
    case Some(b) =>
      SentRead(s, w, payload, b);
      RowsTrueServed(s, w, w', s.principal, b, decision, dir, at, fate);
      var r := AcceptOp(w.db, s.principal, b, decision, dir, at, fate).1;
      OwnAnswerTrue(s, w, payload, decision, dir, at, fate);
      AcceptKeepsTables(w.db, s.principal, b, decision, dir, at, fate);
      AcceptInsertsOnce(w.db, s.principal, b, decision, dir, at, fate);
      NewKeyMatches(w, w', OwnKey(s, b.id));
      AnswersKeep(s, w, w');
      TrueAnswer(s, w', payload, r);
      OwnStored(s, w, w', b.id, b.hash);
      assert ServerSide(s, w');
  }

  lemma SentRead(s: Setup, w: World, payload: Bytes, b: Tables.Batch)
    requires payload in w.sent && s.decode(payload) == Some(b)
    ensures SentAs(s, w, b)
  {}

  lemma SameInserts(w: World, w': World)
    requires InsertsMatch(w) && w'.inserts == w.inserts && w'.db.batches == w.db.batches
    ensures InsertsMatch(w')
  {}

  lemma RefusedIsTrue(s: Setup, w: World, payload: Bytes)
    requires payload in w.sent
    ensures AnswerTrue(s, w, payload, Refused(Failure.Invalid))
  {}

  lemma TrueAnswer(s: Setup, w: World, payload: Bytes, r: Response)
    requires payload in w.sent && (r.Refused? ==> !r.failure.IdempotencyConflict?)
    requires !r.Refused? ==> s.k.payloadId(payload) == Some(r.id) && OwnKey(s, r.id) in w.db.batches
    ensures AnswerTrue(s, w, payload, r)
  {}

  /** A batch newly stored under an own id has the digest that was spooled; other own batches are as before. */
  lemma OwnStored(s: Setup, w: World, w': World, id: string, hash: Bytes)
    requires StoredKnown(s, w) && w'.spooled == w.spooled && id in w.spooled && w.spooled[id] == Some(hash)
    requires forall k :: k in w.db.batches ==> k in w'.db.batches && w'.db.batches[k] == w.db.batches[k]
    requires forall k :: k in w'.db.batches && k !in w.db.batches ==> k == OwnKey(s, id) && w'.db.batches[k].hash == hash
    ensures StoredKnown(s, w')
  {
    hide Lower;
  }

  lemma ServesOthersKeeps(
      s: Setup, w: World, p: Principal, candidate: Tables.Batch, decision: Admission.Decision, dir: Directory, at: int, fate: Fate)
    requires Faithful(s.k) && Inv(s, w) && Enabled(s, w, ServesOthers(p, candidate, decision, dir, at, fate))
    ensures Inv(s, Next(s, w, ServesOthers(p, candidate, decision, dir, at, fate)))
  {
    hide Faithful, SpoolOk, Held, DbOk, Lower, AcceptOp, AgentSide, InsertsMatch, AnswerTrue, RowsTrue;
    var w' := Next(s, w, ServesOthers(p, candidate, decision, dir, at, fate));
    ServesKeepsAgent(s, w, w');
    RowsTrueServed(s, w, w', p, candidate, decision, dir, at, fate);
    AcceptKeepsTables(w.db, p, candidate, decision, dir, at, fate);
    AcceptInsertsOnce(w.db, p, candidate, decision, dir, at, fate);
    NewKeyMatches(w, w', KeyOf(p.projectId, candidate.id));
    AnswersKeep(s, w, w');
    assert ServerSide(s, w');
  }

  lemma RetainsKeeps(s: Setup, w: World, doomed: set<int>)
    requires Faithful(s.k) && Inv(s, w)
    ensures Inv(s, Next(s, w, Retains(doomed)))
  {
    hide Faithful, SpoolOk, Held, DbOk, Lower, AgentSide, InsertsMatch, AnswerTrue, RowsTrue;
    RowsTrueFewer(s, w, doomed);
    var w' := Next(s, w, Retains(doomed));
    ServesKeepsAgent(s, w, w');
    DeleteKeeps(w.db, doomed);
    SameInserts(w, w');
    AnswersKeep(s, w, w');
    assert ServerSide(s, w');
  }

  lemma StepKeepsInv(s: Setup, w: World, step: Step)
    requires Faithful(s.k) && Inv(s, w) && Enabled(s, w, step)
    ensures Inv(s, Next(s, w, step))
  {
    hide Faithful, Inv, Next, Enabled;
    match step
    case Spools(c, io) => SpoolsKeeps(s, w, c, io);
    case Moves(e) => MovesKeeps(s, w, e);
    case Sends(id) => SendsKeeps(s, w, id);
    case Receives(reply, now, date, io, swap) => ReceivesKeeps(s, w, reply, now, date, io, swap);
    case LosesReply => LosesKeeps(s, w);
    case Discards(id, io, swap) => DiscardsKeeps(s, w, id, io, swap);
    case Serves(payload, decision, dir, at, fate) =>
      ServedWasSent(s, w, step);
      ServesKeeps(s, w, payload, decision, dir, at, fate);
    case ServesOthers(p, candidate, decision, dir, at, fate) => ServesOthersKeeps(s, w, p, candidate, decision, dir, at, fate);
    case Retains(doomed) => RetainsKeeps(s, w, doomed);
  }

  lemma LosesKeeps(s: Setup, w: World)
    requires Inv(s, w)
    ensures Inv(s, Next(s, w, LosesReply))
  {
    hide Inv;
    ForgetsKeeps(s, w);
  }

  lemma ServedWasSent(s: Setup, w: World, step: Step)
    requires Enabled(s, w, step) && step.Serves?
    ensures step.payload in w.sent
  {}

  // ---- whole runs

  ghost function Run(s: Setup, maxBytes: nat, steps: seq<Step>): World
    decreases |steps|
  {
    if steps == [] then Start(maxBytes) else Next(s, Run(s, maxBytes, steps[..|steps| - 1]), steps[|steps| - 1])
  }

  ghost predicate Possible(s: Setup, maxBytes: nat, steps: seq<Step>)
    decreases |steps|
  {
    steps == [] ||
    (Possible(s, maxBytes, steps[..|steps| - 1]) && Enabled(s, Run(s, maxBytes, steps[..|steps| - 1]), steps[|steps| - 1]))
  }

  lemma {:induction false} RunInv(s: Setup, maxBytes: nat, steps: seq<Step>)
    requires Faithful(s.k) && Possible(s, maxBytes, steps)
    ensures Inv(s, Run(s, maxBytes, steps))
    decreases |steps|
  {
    hide Inv, Faithful, Enabled, Next, Start;
    if steps == [] {
      StartInv(s, maxBytes);
    } else {
      RunInv(s, maxBytes, steps[..|steps| - 1]);
      StepKeepsInv(s, Run(s, maxBytes, steps[..|steps| - 1]), steps[|steps| - 1]);
    }
  }

  ghost predicate Reachable(s: Setup, maxBytes: nat, w: World) {
    exists steps :: Possible(s, maxBytes, steps) && Run(s, maxBytes, steps) == w
  }

  lemma ReachableInv(s: Setup, maxBytes: nat, w: World)
    requires Faithful(s.k) && Reachable(s, maxBytes, w)
    ensures Inv(s, w)
  {
    hide Inv, Faithful, Possible, Run;
    var steps :| Possible(s, maxBytes, steps) && Run(s, maxBytes, steps) == w;
    RunInv(s, maxBytes, steps);
  }

  /** A batch is inserted at most once, and an acknowledged one is committed as it was spooled. */
  ghost predicate InsertedOnce(s: Setup, w: World, id: string) {
    && NoDuplicates(w.inserts) && (forall k :: k in w.inserts <==> k in w.db.batches)
    && (id in w.delivered ==>
          id in w.spooled && OwnKey(s, id) in w.db.batches
          && Some(w.db.batches[OwnKey(s, id)].hash) == w.spooled[id])
  }

  /** A batch once spooled is on disk, committed on the server, or was discarded by the operator. */
  ghost predicate NotLost(s: Setup, w: World, id: string) {
    id in w.spooled ==>
      Active(w.spool.live, id) || id in w.discarded || (id in w.delivered && OwnKey(s, id) in w.db.batches)
  }

  /**
    At-least-once transport, effectively-once write. In every reachable state, whatever was lost,
    repeated, crashed or committed without being seen: every batch is inserted at most once; a batch
    that an acknowledgement took off the Agent's disk is committed with the content that was spooled;
    no spooled batch is lost; and the Agent's own retries never meet an idempotency conflict.
  */
  lemma EffectivelyOnce(s: Setup, maxBytes: nat, w: World, id: string)
    requires Faithful(s.k) && Reachable(s, maxBytes, w)
    ensures InsertedOnce(s, w, id) && NotLost(s, w, id)
    ensures forall p, r :: (p, r) in w.answers ==> r != Refused(IdempotencyConflict)
  {
    hide Reachable, Held, SpoolOk, DbOk, Faithful, Digest, Lower, RowsTrue;
    ReachableInv(s, maxBytes, w);
    HeldIsActive(s, w.spool.live, id);
    forall p, r | (p, r) in w.answers ensures r != Refused(IdempotencyConflict) { assert AnswerTrue(s, w, p, r); }
  }

  /**
    Usage is conserved in every reachable state: for each project the usage buckets add up to the
    entries and bytes of its committed batches, whatever was repeated, rolled back or deleted by
    retention.
  */
  lemma UsageConserved(s: Setup, maxBytes: nat, w: World, projectId: string)
    requires Faithful(s.k) && Reachable(s, maxBytes, w)
    ensures UsageMatches(w.db, projectId)
  {
    hide Reachable, AgentSide, SpoolOk, Faithful, StoredKnown, AnswersTrue, DeliveredStored, InsertsMatch, UsageMatches, RowsOk, RowsTrue;
    ReachableInv(s, maxBytes, w);
  }

  /**
    What is stored is what was sent. In every reachable state each stored row is an entry of a request
    that the server read, in its place and field by field; the rows of the Agent's own batches come from
    bodies that the Agent sent.
  */
  lemma RowsSayWhatWasSent(s: Setup, maxBytes: nat, w: World, row: int)
    requires Faithful(s.k) && Reachable(s, maxBytes, w) && row in w.db.entries
    ensures var r := w.db.entries[row];
            var k := (r.projectId, r.batchId);
            && k in w.sources && 0 <= r.entry.sequence < |w.sources[k].entries|
            && var e := w.sources[k].entries[r.entry.sequence];
               && r.batchId == Lower(w.sources[k].id)
               && r.entry.agentId == w.sources[k].agentId && r.entry.pipelineId == w.sources[k].pipelineId
               && r.entry.service == e.service && r.entry.host == e.host && r.entry.level == e.level
               && r.entry.message == e.message && r.entry.observedAt == e.observedAt
               && forall id :: id in w.spooled && OwnKey(s, id) == k ==>
                    exists p :: p in w.sent && s.decode(p) == Some(w.sources[k])
  {
    hide Reachable, AgentSide, SpoolOk, Faithful, ServerSide, Lower;
    ReachableInv(s, maxBytes, w);
    assert RowSays(w, row);
    var k := (w.db.entries[row].projectId, w.db.entries[row].batchId);
    forall id | id in w.spooled && OwnKey(s, id) == k ensures exists p :: p in w.sent && s.decode(p) == Some(w.sources[k]) {
      assert SentAs(s, w, w.sources[OwnKey(s, id)]);
    }
  }

  /** No log entry is stored twice, and every stored one belongs to a committed batch. */
  lemma EntriesStoredOnce(s: Setup, maxBytes: nat, w: World)
    requires Faithful(s.k) && Reachable(s, maxBytes, w)
    ensures RowsOk(w.db)
  {
    hide Reachable, AgentSide, SpoolOk, Faithful, StoredKnown, AnswersTrue, DeliveredStored, InsertsMatch, UsageMatches, RowsOk, RowsTrue;
    ReachableInv(s, maxBytes, w);
  }
}
