/**
  The Agent spool as values: the records of the write-ahead log, the index that the live
  process keeps, and the replay that rebuilds an index from the records of a file.
*/
module Spool {
  import opened Prelude
  import opened Framing
  import opened Text

  const COMMIT: byte := 1
  const ACK: byte := 2
  const CHECKPOINT: byte := 3
  const QUARANTINE: byte := 4

  /** Times are instants counted from the zero time. */
  const ZERO_TIME: int := 0

  datatype Checkpoint = Checkpoint(sourceKey: string, fileIdentity: string, offsetBytes: int, observedAt: int)

  datatype Commit = Commit(batchId: string, payload: Bytes, checkpoint: Checkpoint)

  /** The body of a quarantine record. */
  datatype Mark = Mark(batchId: string, httpCode: int, errorCode: string, at: int)

  datatype Quarantined = Quarantined(commit: Commit, mark: Mark)

  /**
    The JSON library, as the functions the spool calls. `compact` is the form json.Marshal
    gives an embedded raw payload; `payloadId` reads the batch_id of a payload that is valid JSON.
  */
  datatype Codec = Codec(
    format: Format,
    payloadId: Bytes -> Option<string>,
    compact: Bytes -> Bytes,
    putCommit: Commit -> Option<Bytes>,
    getCommit: Bytes -> Option<Commit>,
    putAck: string -> Bytes,
    getAck: Bytes -> Option<string>,
    putCheckpoint: Checkpoint -> Option<Bytes>,
    getCheckpoint: Bytes -> Option<Checkpoint>,
    putMark: Mark -> Option<Bytes>,
    getMark: Bytes -> Option<Mark>)

  function Canon(k: Codec, c: Commit): Commit { c.(payload := k.compact(c.payload)) }

  /** A stored commit reads back with its payload compacted, and stores the same again. */
  ghost predicate CommitFaithful(k: Codec, c: Commit) {
    k.putCommit(c).Some? ==>
      var body := k.putCommit(c).value;
      && k.getCommit(body) == Some(Canon(k, c))
      && k.putCommit(Canon(k, c)) == Some(body)
      && |k.putAck(c.batchId)| <= |body|
      && k.putCheckpoint(c.checkpoint).Some?
      && |k.putCheckpoint(c.checkpoint).value| <= |body|
  }

  ghost predicate PayloadFaithful(k: Codec, p: Bytes) {
    k.compact(k.compact(p)) == k.compact(p) && k.payloadId(k.compact(p)) == k.payloadId(p)
  }

  ghost predicate AckFaithful(k: Codec, id: string) { k.getAck(k.putAck(id)) == Some(id) }

  ghost predicate CheckpointFaithful(k: Codec, cp: Checkpoint) {
    k.putCheckpoint(cp).Some? ==>
      k.getCheckpoint(k.putCheckpoint(cp).value) == Some(cp) && |cp.sourceKey| <= |k.putCheckpoint(cp).value|
  }

  ghost predicate MarkFaithful(k: Codec, m: Mark) {
    k.putMark(m).Some? ==> k.getMark(k.putMark(m).value) == Some(m) && |m.errorCode| <= |k.putMark(m).value|
  }

  /** The hypothesis on the JSON library: decoding inverts encoding, and a body is no shorter than its texts. */
  ghost predicate Faithful(k: Codec) {
    && k.format.limit < FORMAT_LIMIT
    && (forall c :: CommitFaithful(k, c))
    && (forall p :: PayloadFaithful(k, p))
    && (forall id :: AckFaithful(k, id))
    && (forall cp :: CheckpointFaithful(k, cp))
    && (forall m :: MarkFaithful(k, m))
  }

  predicate ValidCheckpoint(cp: Checkpoint) {
    !Blank(cp.sourceKey) && !Blank(cp.fileIdentity) && cp.offsetBytes >= 0 && cp.observedAt != ZERO_TIME
  }

  function EncodeCommit(k: Codec, c: Commit): Option<Bytes> {
    if Blank(c.batchId) then None
    else if k.payloadId(c.payload) != Some(c.batchId) then None
    else if !ValidCheckpoint(c.checkpoint) then None
    else k.putCommit(c)
  }

  function DecodeCommit(k: Codec, body: Bytes): Option<Commit> {
    match k.getCommit(body)
    case None => None
    case Some(c) => if EncodeCommit(k, c).Some? then Some(c) else None
  }

  // ---- the index

  datatype Index = Index(
    pending: map<string, Commit>,
    sizes: map<string, nat>,
    order: seq<string>,
    quarantined: map<string, Quarantined>,
    quarantineOrder: seq<string>,
    seen: set<string>,
    checkpoints: map<string, Checkpoint>,
    used: int)

  const EMPTY: Index := Index(map[], map[], [], map[], [], {}, map[], 0)

  function ApplyCommit(ix: Index, c: Commit, recordBytes: nat): Index {
    ix.(pending := ix.pending[c.batchId := c],
        sizes := ix.sizes[c.batchId := recordBytes],
        order := ix.order + [c.batchId],
        seen := ix.seen + {c.batchId},
        checkpoints := ix.checkpoints[c.checkpoint.sourceKey := c.checkpoint],
        used := ix.used + recordBytes)
  }

  predicate Active(ix: Index, id: string) { id in ix.pending || id in ix.quarantined }

  function RemoveActive(ix: Index, id: string): Index {
    ix.(pending := ix.pending - {id},
        quarantined := ix.quarantined - {id},
        used := ix.used - (if id in ix.sizes then ix.sizes[id] else 0),
        sizes := ix.sizes - {id})
  }

  function ApplyQuarantine(ix: Index, q: Quarantined): Index {
    var id := q.commit.batchId;
    ix.(pending := ix.pending - {id},
        quarantined := ix.quarantined[id := q],
        quarantineOrder := ix.quarantineOrder + [id])
  }

  function ApplyCheckpoint(ix: Index, cp: Checkpoint): Index {
    ix.(checkpoints := ix.checkpoints[cp.sourceKey := cp])
  }

  /** applyRecovered: what one record of the file does to the index, or None for a corrupt log. */
  function Recovered(k: Codec, ix: Index, f: Frame): Option<Index> {
    if f.kind == COMMIT then
      match DecodeCommit(k, f.body)
      case None => None
      case Some(c) => if c.batchId in ix.seen then None else Some(ApplyCommit(ix, c, HEADER_BYTES + |f.body|))
    else if f.kind == ACK then
      match k.getAck(f.body)
      case None => None
      case Some(id) => if Active(ix, id) then Some(RemoveActive(ix, id)) else None
    else if f.kind == CHECKPOINT then
      match k.getCheckpoint(f.body)
      case None => None
      case Some(cp) => if ValidCheckpoint(cp) then Some(ApplyCheckpoint(ix, cp)) else None
    else if f.kind == QUARANTINE then
      match k.getMark(f.body)
      case None => None
      case Some(m) =>
        if m.batchId !in ix.pending || m.httpCode < 400 || m.at == ZERO_TIME then None
        else Some(ApplyQuarantine(ix, Quarantined(ix.pending[m.batchId], m)))
    else None
  }

  /** Which records recovery accepts: of a known kind, readable, valid, and about a batch in the right place. */
  lemma RecoveredExact(k: Codec, ix: Index, f: Frame)
    ensures Recovered(k, ix, f).Some? <==>
            || (f.kind == 1 && k.getCommit(f.body).Some?
                && var c := k.getCommit(f.body).value;
                   && TrimSpace(c.batchId) != "" && k.payloadId(c.payload) == Some(c.batchId)
                   && TrimSpace(c.checkpoint.sourceKey) != "" && TrimSpace(c.checkpoint.fileIdentity) != ""
                   && c.checkpoint.offsetBytes >= 0 && c.checkpoint.observedAt != 0
                   && k.putCommit(c).Some? && c.batchId !in ix.seen)
            || (f.kind == 2 && k.getAck(f.body).Some?
                && (k.getAck(f.body).value in ix.pending || k.getAck(f.body).value in ix.quarantined))
            || (f.kind == 3 && k.getCheckpoint(f.body).Some?
                && var cp := k.getCheckpoint(f.body).value;
                   && TrimSpace(cp.sourceKey) != "" && TrimSpace(cp.fileIdentity) != ""
                   && cp.offsetBytes >= 0 && cp.observedAt != 0)
            || (f.kind == 4 && k.getMark(f.body).Some?
                && var m := k.getMark(f.body).value;
                   m.batchId in ix.pending && m.httpCode >= 400 && m.at != 0)
  {
    hide TrimSpace;
  }

  function ReplayFrom(k: Codec, ix: Index, fs: seq<Frame>): Option<Index>
    decreases |fs|
  {
    if fs == [] then Some(ix)
    else
      match Recovered(k, ix, fs[0])
      case None => None
      case Some(next) => ReplayFrom(k, next, fs[1..])
  }

  function Replay(k: Codec, fs: seq<Frame>): Option<Index> { ReplayFrom(k, EMPTY, fs) }

  lemma {:induction false} ReplayConcat(k: Codec, ix: Index, fs: seq<Frame>, gs: seq<Frame>)
    ensures ReplayFrom(k, ix, fs + gs)
         == match ReplayFrom(k, ix, fs) case None => None case Some(mid) => ReplayFrom(k, mid, gs)
    decreases |fs|
  {
    if fs == [] {
      assert fs + gs == gs;
    } else {
      assert (fs + gs)[1..] == fs[1..] + gs;
      match Recovered(k, ix, fs[0])
      case None =>
      case Some(next) => ReplayConcat(k, next, fs[1..], gs);
    }
  }

  lemma ReplaySnoc(k: Codec, fs: seq<Frame>, f: Frame)
    requires Replay(k, fs).Some?
    ensures Replay(k, fs + [f]) == Recovered(k, Replay(k, fs).value, f)
  {
    ReplayConcat(k, EMPTY, fs, [f]);
  }

  // ---- what holds of every index

  ghost predicate StoredCommit(k: Codec, c: Commit, id: string, size: nat) {
    && c.batchId == id
    && EncodeCommit(k, c).Some?
    && |EncodeCommit(k, c).value| <= k.format.limit
    && size == HEADER_BYTES + |EncodeCommit(k, c).value|
  }

  ghost predicate StoredMark(k: Codec, m: Mark, id: string) {
    && m.batchId == id && m.httpCode >= 400 && m.at != ZERO_TIME
    && k.putMark(m).Some? && |k.putMark(m).value| <= k.format.limit
  }

  ghost predicate StoredCheckpoint(k: Codec, cp: Checkpoint, key: string) {
    && cp.sourceKey == key && ValidCheckpoint(cp)
    && k.putCheckpoint(cp).Some? && |k.putCheckpoint(cp).value| <= k.format.limit
  }

  /** Used bytes are the total of the active records. */
  ghost predicate Sized(ix: Index) {
    && ix.pending.Keys !! ix.quarantined.Keys
    && ix.sizes.Keys == ix.pending.Keys + ix.quarantined.Keys
    && ix.used == Total(ix.sizes)
  }

  /** Every batch is committed once and quarantined at most once, in the recorded orders. */
  ghost predicate Ordered(ix: Index) {
    && NoDuplicates(ix.order) && NoDuplicates(ix.quarantineOrder)
    && (forall id :: id in ix.order ==> id in ix.seen)
    && (forall id :: id in ix.quarantineOrder ==> id in ix.seen)
    && (forall id :: id in ix.pending ==> id in ix.order && id !in ix.quarantineOrder)
    && (forall id :: id in ix.quarantined ==> id in ix.quarantineOrder)
  }

  ghost predicate StoredIn(k: Codec, ix: Index, c: Commit, id: string) {
    id in ix.sizes && StoredCommit(k, c, id, ix.sizes[id]) && c.checkpoint.sourceKey in ix.checkpoints
  }

  ghost predicate StoredCommits(k: Codec, ix: Index) {
    && (forall id :: id in ix.pending ==> StoredIn(k, ix, ix.pending[id], id))
    && (forall id :: id in ix.quarantined ==> StoredIn(k, ix, ix.quarantined[id].commit, id))
  }

  /** What the index holds can be written to a log again. */
  ghost predicate Stored(k: Codec, ix: Index) {
    && StoredCommits(k, ix)
    && (forall id :: id in ix.quarantined ==> StoredMark(k, ix.quarantined[id].mark, id))
    && (forall key :: key in ix.checkpoints ==> StoredCheckpoint(k, ix.checkpoints[key], key))
  }

  ghost predicate WellFormed(k: Codec, ix: Index) {
    Sized(ix) && Ordered(ix) && Stored(k, ix)
  }

  function PendingIds(ix: Index): seq<string> { Filter(ix.order, ix.pending.Keys) }

  function QuarantinedIds(ix: Index): seq<string> { Filter(ix.quarantineOrder, ix.quarantined.Keys) }

  function CanonQ(k: Codec, q: Quarantined): Quarantined { q.(commit := Canon(k, q.commit)) }

  ghost predicate PendingAgree(k: Codec, r: Index, live: Index) {
    && r.pending.Keys == live.pending.Keys
    && (forall id :: id in live.pending ==> r.pending[id] == Canon(k, live.pending[id]))
    && PendingIds(r) == PendingIds(live)
  }

  ghost predicate QuarantinedAgree(k: Codec, r: Index, live: Index) {
    && r.quarantined.Keys == live.quarantined.Keys
    && (forall id :: id in live.quarantined ==> r.quarantined[id] == CanonQ(k, live.quarantined[id]))
    && QuarantinedIds(r) == QuarantinedIds(live)
  }

  /**
    `r` shows what `live` shows, up to the compaction of payloads. The two may differ in the ids
    that they only remember (acknowledged batches), which compaction forgets.
  */
  ghost predicate Agree(k: Codec, r: Index, live: Index) {
    && PendingAgree(k, r, live)
    && QuarantinedAgree(k, r, live)
    && r.sizes == live.sizes
    && r.used == live.used
    && r.checkpoints == live.checkpoints
    && r.seen <= live.seen
  }

  lemma EmptyWellFormed(k: Codec)
    ensures WellFormed(k, EMPTY) && Agree(k, EMPTY, EMPTY)
  {}

  // ---- each change keeps the index well formed

  lemma CommitSized(ix: Index, c: Commit, n: nat)
    requires Sized(ix) && !Active(ix, c.batchId)
    ensures Sized(ApplyCommit(ix, c, n))
  {
    TotalInsert(ix.sizes, c.batchId, n);
    var ix' := ApplyCommit(ix, c, n);
    assert ix'.sizes.Keys == ix'.pending.Keys + ix'.quarantined.Keys;
  }

  lemma CommitOrdered(ix: Index, c: Commit, n: nat)
    requires Ordered(ix) && c.batchId !in ix.seen
    ensures Ordered(ApplyCommit(ix, c, n))
  {}

  lemma StoredInMono(k: Codec, ix: Index, ix': Index, c: Commit, id: string)
    requires StoredIn(k, ix, c, id)
    requires id in ix'.sizes && ix'.sizes[id] == ix.sizes[id] && ix.checkpoints.Keys <= ix'.checkpoints.Keys
    ensures StoredIn(k, ix', c, id)
  {}

  lemma CommitStoresCommits(k: Codec, ix: Index, c: Commit, n: nat)
    requires StoredCommits(k, ix) && !Active(ix, c.batchId) && StoredCommit(k, c, c.batchId, n)
    ensures StoredCommits(k, ApplyCommit(ix, c, n))
  {
    hide EncodeCommit;
    var ix' := ApplyCommit(ix, c, n);
    var id := c.batchId;
    assert StoredIn(k, ix', c, id);
    forall x | x in ix'.pending && x != id ensures StoredIn(k, ix', ix'.pending[x], x) {
      StoredInMono(k, ix, ix', ix.pending[x], x);
    }
    forall x | x in ix'.quarantined ensures StoredIn(k, ix', ix'.quarantined[x].commit, x) {
      StoredInMono(k, ix, ix', ix.quarantined[x].commit, x);
    }
  }

  lemma CommitStored(k: Codec, ix: Index, c: Commit, n: nat)
    requires Stored(k, ix) && !Active(ix, c.batchId)
    requires StoredCommit(k, c, c.batchId, n) && StoredCheckpoint(k, c.checkpoint, c.checkpoint.sourceKey)
    ensures Stored(k, ApplyCommit(ix, c, n))
  {
    CommitStoresCommits(k, ix, c, n);
  }

  /** What Commit accepts is stored as a commit, and its checkpoint can be stored alone. */
  lemma EncodedIsStored(k: Codec, c: Commit)
    requires Faithful(k)
    requires EncodeCommit(k, c).Some? && |EncodeCommit(k, c).value| <= k.format.limit
    ensures StoredCommit(k, c, c.batchId, HEADER_BYTES + |EncodeCommit(k, c).value|)
    ensures StoredCheckpoint(k, c.checkpoint, c.checkpoint.sourceKey)
    ensures |k.putAck(c.batchId)| <= k.format.limit
  {
    assert CommitFaithful(k, c);
  }

  lemma CommitWellFormed(k: Codec, ix: Index, c: Commit, n: nat)
    requires WellFormed(k, ix) && c.batchId !in ix.seen
    requires StoredCommit(k, c, c.batchId, n) && StoredCheckpoint(k, c.checkpoint, c.checkpoint.sourceKey)
    ensures WellFormed(k, ApplyCommit(ix, c, n))
  {
    CommitSized(ix, c, n);
    CommitOrdered(ix, c, n);
    CommitStored(k, ix, c, n);
  }

  lemma AckSized(ix: Index, id: string)
    requires Sized(ix) && Active(ix, id)
    ensures Sized(RemoveActive(ix, id))
  {
    TotalRemove(ix.sizes, id);
    var ix' := RemoveActive(ix, id);
    assert ix'.sizes.Keys == ix'.pending.Keys + ix'.quarantined.Keys;
  }

  lemma AckStored(k: Codec, ix: Index, id: string)
    requires Stored(k, ix)
    ensures Stored(k, RemoveActive(ix, id))
  {
    var ix' := RemoveActive(ix, id);
    forall x | x in ix'.pending ensures StoredIn(k, ix', ix'.pending[x], x) {
      StoredInMono(k, ix, ix', ix.pending[x], x);
    }
    forall x | x in ix'.quarantined ensures StoredIn(k, ix', ix'.quarantined[x].commit, x) {
      StoredInMono(k, ix, ix', ix.quarantined[x].commit, x);
    }
  }

  lemma AckWellFormed(k: Codec, ix: Index, id: string)
    requires WellFormed(k, ix) && Active(ix, id)
    ensures WellFormed(k, RemoveActive(ix, id))
  {
    AckSized(ix, id);
    AckStored(k, ix, id);
  }

  lemma QuarantineSized(ix: Index, q: Quarantined)
    requires Sized(ix) && q.commit.batchId in ix.pending
    ensures Sized(ApplyQuarantine(ix, q))
  {
    var ix' := ApplyQuarantine(ix, q);
    assert ix'.sizes.Keys == ix'.pending.Keys + ix'.quarantined.Keys;
  }

  lemma QuarantineOrdered(ix: Index, q: Quarantined)
    requires Ordered(ix) && q.commit.batchId in ix.pending
    ensures Ordered(ApplyQuarantine(ix, q))
  {}

  lemma QuarantineStoresCommits(k: Codec, ix: Index, q: Quarantined)
    requires StoredCommits(k, ix) && q.commit.batchId in ix.pending && q.commit == ix.pending[q.commit.batchId]
    ensures StoredCommits(k, ApplyQuarantine(ix, q))
  {
    var id := q.commit.batchId;
    var ix' := ApplyQuarantine(ix, q);
    StoredInMono(k, ix, ix', ix.pending[id], id);
    forall x | x in ix'.pending ensures StoredIn(k, ix', ix'.pending[x], x) {
      StoredInMono(k, ix, ix', ix.pending[x], x);
    }
    forall x | x in ix'.quarantined && x != id ensures StoredIn(k, ix', ix'.quarantined[x].commit, x) {
      StoredInMono(k, ix, ix', ix.quarantined[x].commit, x);
    }
  }

  lemma QuarantineWellFormed(k: Codec, ix: Index, m: Mark)
    requires WellFormed(k, ix) && m.batchId in ix.pending && StoredMark(k, m, m.batchId)
    ensures WellFormed(k, ApplyQuarantine(ix, Quarantined(ix.pending[m.batchId], m)))
  {
    var q := Quarantined(ix.pending[m.batchId], m);
    assert q.commit.batchId == m.batchId by { assert StoredIn(k, ix, ix.pending[m.batchId], m.batchId); }
    QuarantineSized(ix, q);
    QuarantineOrdered(ix, q);
    QuarantineStoresCommits(k, ix, q);
  }

  lemma CheckpointWellFormed(k: Codec, ix: Index, cp: Checkpoint)
    requires WellFormed(k, ix) && StoredCheckpoint(k, cp, cp.sourceKey)
    ensures WellFormed(k, ApplyCheckpoint(ix, cp))
  {
    var ix' := ApplyCheckpoint(ix, cp);
    forall x | x in ix'.pending ensures StoredIn(k, ix', ix'.pending[x], x) {
      StoredInMono(k, ix, ix', ix.pending[x], x);
    }
    forall x | x in ix'.quarantined ensures StoredIn(k, ix', ix'.quarantined[x].commit, x) {
      StoredInMono(k, ix, ix', ix.quarantined[x].commit, x);
    }
  }

  // ---- each record, replayed, does what the live change did

  lemma CanonEncodes(k: Codec, c: Commit)
    requires Faithful(k) && EncodeCommit(k, c).Some?
    ensures EncodeCommit(k, Canon(k, c)) == EncodeCommit(k, c)
    ensures DecodeCommit(k, EncodeCommit(k, c).value) == Some(Canon(k, c))
  {
    assert CommitFaithful(k, c);
    assert PayloadFaithful(k, c.payload);
  }

  lemma FilterSnoc(xs: seq<string>, x: string, keep: set<string>)
    ensures Filter(xs + [x], keep) == Filter(xs, keep) + (if x in keep then [x] else [])
  {
    FilterConcat(xs, [x], keep);
  }

  lemma CommitAgrees(k: Codec, r: Index, live: Index, c: Commit, n: nat)
    requires Ordered(r) && Ordered(live) && Agree(k, r, live) && c.batchId !in live.seen
    ensures Agree(k, ApplyCommit(r, Canon(k, c), n), ApplyCommit(live, c, n))
  {
    hide Ordered, PendingIds, Filter;
    AddPendingId(r, ApplyCommit(r, Canon(k, c), n), c.batchId);
    AddPendingId(live, ApplyCommit(live, c, n), c.batchId);
  }

  lemma AddPendingId(ix: Index, ix': Index, id: string)
    requires Ordered(ix) && id !in ix.seen
    requires ix'.order == ix.order + [id] && ix'.pending.Keys == ix.pending.Keys + {id}
    ensures PendingIds(ix') == PendingIds(ix) + [id]
  {
    FilterSnoc(ix.order, id, ix'.pending.Keys);
    FilterCong(ix.order, ix.pending.Keys, ix'.pending.Keys);
  }

  lemma AckAgrees(k: Codec, r: Index, live: Index, id: string)
    requires Agree(k, r, live)
    ensures Agree(k, RemoveActive(r, id), RemoveActive(live, id))
  {
    hide PendingIds, QuarantinedIds, Filter;
    DropIds(r, RemoveActive(r, id), id);
    DropIds(live, RemoveActive(live, id), id);
  }

  lemma DropIds(ix: Index, ix': Index, id: string)
    requires ix'.order == ix.order && ix'.pending.Keys == ix.pending.Keys - {id}
    requires ix'.quarantineOrder == ix.quarantineOrder && ix'.quarantined.Keys == ix.quarantined.Keys - {id}
    ensures PendingIds(ix') == Filter(PendingIds(ix), ix'.pending.Keys)
    ensures QuarantinedIds(ix') == Filter(QuarantinedIds(ix), ix'.quarantined.Keys)
  {
    FilterFilter(ix.order, ix.pending.Keys, ix'.pending.Keys);
    assert ix.pending.Keys * ix'.pending.Keys == ix'.pending.Keys;
    FilterFilter(ix.quarantineOrder, ix.quarantined.Keys, ix'.quarantined.Keys);
    assert ix.quarantined.Keys * ix'.quarantined.Keys == ix'.quarantined.Keys;
  }

  lemma QuarantineAgrees(k: Codec, r: Index, live: Index, m: Mark)
    requires Ordered(r) && Ordered(live) && Agree(k, r, live) && m.batchId in live.pending
    requires r.pending[m.batchId].batchId == live.pending[m.batchId].batchId == m.batchId
    ensures var qr, ql := Quarantined(r.pending[m.batchId], m), Quarantined(live.pending[m.batchId], m);
            Agree(k, ApplyQuarantine(r, qr), ApplyQuarantine(live, ql))
  {
    hide Ordered, PendingIds, QuarantinedIds, Filter;
    MoveId(r, Quarantined(r.pending[m.batchId], m));
    MoveId(live, Quarantined(live.pending[m.batchId], m));
  }

  lemma MoveId(ix: Index, q: Quarantined)
    requires Ordered(ix) && q.commit.batchId in ix.pending
    ensures var ix' := ApplyQuarantine(ix, q);
            && PendingIds(ix') == Filter(PendingIds(ix), ix'.pending.Keys)
            && QuarantinedIds(ix') == QuarantinedIds(ix) + [q.commit.batchId]
  {
    var ix' := ApplyQuarantine(ix, q);
    FilterFilter(ix.order, ix.pending.Keys, ix'.pending.Keys);
    assert ix.pending.Keys * ix'.pending.Keys == ix'.pending.Keys;
    FilterSnoc(ix.quarantineOrder, q.commit.batchId, ix'.quarantined.Keys);
    FilterCong(ix.quarantineOrder, ix.quarantined.Keys, ix'.quarantined.Keys);
  }

  /** The record an operation appends, replayed on `r`, does to `r` what the operation does live. */
  lemma RecoveredCommit(k: Codec, r: Index, c: Commit)
    requires Faithful(k) && EncodeCommit(k, c).Some? && c.batchId !in r.seen
    ensures var body := EncodeCommit(k, c).value;
            Recovered(k, r, Frame(COMMIT, body)) == Some(ApplyCommit(r, Canon(k, c), HEADER_BYTES + |body|))
  {
    CanonEncodes(k, c);
  }

  lemma RecoveredAck(k: Codec, r: Index, id: string)
    requires Faithful(k) && Active(r, id)
    ensures Recovered(k, r, Frame(ACK, k.putAck(id))) == Some(RemoveActive(r, id))
  {
    assert AckFaithful(k, id);
  }

  lemma RecoveredMark(k: Codec, r: Index, m: Mark)
    requires Faithful(k) && m.batchId in r.pending && StoredMark(k, m, m.batchId)
    ensures Recovered(k, r, Frame(QUARANTINE, k.putMark(m).value))
         == Some(ApplyQuarantine(r, Quarantined(r.pending[m.batchId], m)))
  {
    assert MarkFaithful(k, m);
  }

  lemma RecoveredCheckpoint(k: Codec, r: Index, cp: Checkpoint)
    requires Faithful(k) && StoredCheckpoint(k, cp, cp.sourceKey)
    ensures Recovered(k, r, Frame(CHECKPOINT, k.putCheckpoint(cp).value)) == Some(ApplyCheckpoint(r, cp))
  {
    assert CheckpointFaithful(k, cp);
  }
}
