/**
  The operations of the spool on its durable log and live index, what every operation keeps,
  and what a crash and a reopening give back.
*/
module Wal {
  import opened Prelude
  import opened Framing
  import opened Text
  import opened Spool
  import opened Compaction

  const COMPACTION_FLOOR: nat := 65536

  datatype Outcome =
    | Done | Closed | Rejected | TooLarge | AlreadyPresent | Full | Conflict | UnknownBatch | IoFailed

  /** How a compaction ended: which file is in place, and whether it could be opened again. */
  datatype Swap = Swapped | Kept | SwappedClosed | KeptClosed

  /** The records on disk and what the running process remembers. */
  datatype State = State(frames: seq<Frame>, live: Index, maxBytes: nat, closed: bool)

  function FileBytes(fs: seq<Frame>): nat {
    if fs == [] then 0 else HEADER_BYTES + |fs[0].body| + FileBytes(fs[1..])
  }

  lemma {:induction false} FileBytesConcat(fs: seq<Frame>, w: Format)
    requires Fit(fs, w)
    ensures |Concat(fs, w)| == FileBytes(fs)
  {
    if fs != [] { FileBytesConcat(fs[1..], w); }
  }

  /** appendRecord: a record that cannot be framed, written and synced leaves the file as it was. */
  function Append(st: State, f: Frame, next: Index, io: bool): (State, Outcome) {
    if |f.body| >= FORMAT_LIMIT || !io then (st, IoFailed)
    else (st.(frames := st.frames + [f], live := next), Done)
  }

  function CommitOp(k: Codec, st: State, c: Commit, io: bool): (State, Outcome) {
    match EncodeCommit(k, c)
    case None => (st, Rejected)
    case Some(body) =>
      var n := HEADER_BYTES + |body|;
      if |body| > k.format.limit then (st, TooLarge)
      else if st.closed then (st, Closed)
      else if c.batchId in st.live.seen then (st, AlreadyPresent)
      else if n > st.maxBytes - st.live.used then (st, Full)
      else Append(st, Frame(COMMIT, body), ApplyCommit(st.live, c, n), io)
  }

  predicate Framable(fs: seq<Frame>) { forall f :: f in fs ==> |f.body| < FORMAT_LIMIT }

  /** compactLocked: a record that cannot be marshalled or framed abandons the new file. */
  function CompactOp(k: Codec, st: State, swap: Swap): State {
    if !Writable(k, st.live) || !Framable(CompactFrames(k, st.live)) then st
    else
      match swap
      case Swapped => st.(frames := CompactFrames(k, st.live))
      case Kept => st
      case SwappedClosed => st.(frames := CompactFrames(k, st.live), closed := true)
      case KeptClosed => st.(closed := true)
  }

  function AckOp(k: Codec, st: State, id: string, io: bool, swap: Swap): (State, Outcome) {
    if st.closed then (st, Closed)
    else if !Active(st.live, id) then (st, Done)
    else
      var (st', out) := Append(st, Frame(ACK, k.putAck(id)), RemoveActive(st.live, id), io);
      if out != Done then (st', out)
      else if FileBytes(st'.frames) > (if st.maxBytes > COMPACTION_FLOOR then st.maxBytes else COMPACTION_FLOOR) then
        var compacted := CompactOp(k, st', swap);
        (compacted, if compacted.closed then Closed else Done)
      else (st', Done)
  }

  function QuarantineOp(k: Codec, st: State, id: string, httpCode: int, code: string, at: int, io: bool): (State, Outcome) {
    var m := Mark(id, httpCode, TrimSpace(code), at);
    if Blank(id) || httpCode < 400 || at == ZERO_TIME || k.putMark(m).None? then (st, Rejected)
    else if st.closed then (st, Closed)
    else if id in st.live.pending then
      Append(st, Frame(QUARANTINE, k.putMark(m).value),
             ApplyQuarantine(st.live, Quarantined(st.live.pending[id], m)), io)
    else if id in st.live.quarantined then (st, Done)
    else (st, UnknownBatch)
  }

  predicate SamePosition(a: Checkpoint, b: Checkpoint) {
    a.sourceKey == b.sourceKey && a.fileIdentity == b.fileIdentity && a.offsetBytes == b.offsetBytes
  }

  function TransitionOp(k: Codec, st: State, expected: Option<Checkpoint>, next: Checkpoint, io: bool): (State, Outcome) {
    if !ValidCheckpoint(next) || k.putCheckpoint(next).None? then (st, Rejected)
    else if st.closed then (st, Closed)
    else
      var known := next.sourceKey in st.live.checkpoints;
      var matches :=
        match expected
        case None => !known
        case Some(e) => known && SamePosition(st.live.checkpoints[next.sourceKey], e);
      if !matches then (st, Conflict)
      else Append(st, Frame(CHECKPOINT, k.putCheckpoint(next).value), ApplyCheckpoint(st.live, next), io)
  }

  /** Open on the bytes of the main file. */
  ghost function OpenOp(k: Codec, data: Bytes, maxBytes: nat): Option<State> {
    match Scan(data, k.format)
    case Corrupt(_) => None
    case Intact(fs, _) =>
      match Replay(k, fs)
      case None => None
      case Some(ix) => Some(State(fs, ix, maxBytes, false))
  }

  // ---- the invariant

  /** The log is readable, and what it replays to shows what the process shows. */
  ghost predicate Durable(k: Codec, st: State) {
    && Fit(st.frames, k.format)
    && Replay(k, st.frames).Some?
    && WellFormed(k, Replay(k, st.frames).value)
    && Agree(k, Replay(k, st.frames).value, st.live)
  }

  ghost predicate SpoolOk(k: Codec, st: State) {
    Durable(k, st) && WellFormed(k, st.live) && st.live.used <= st.maxBytes
  }

  lemma EmptySpoolOk(k: Codec, maxBytes: nat)
    requires Faithful(k)
    ensures SpoolOk(k, State([], EMPTY, maxBytes, false))
  {
    EmptyWellFormed(k);
  }

  /** One more record whose replay follows the live change keeps the log durable. */
  lemma AppendKeeps(k: Codec, st: State, f: Frame, r': Index, live': Index)
    requires Durable(k, st) && |f.body| <= k.format.limit
    requires Recovered(k, Replay(k, st.frames).value, f) == Some(r')
    requires WellFormed(k, r') && Agree(k, r', live')
    ensures Durable(k, st.(frames := st.frames + [f], live := live'))
  {
    hide WellFormed, Agree, Recovered;
    ReplaySnoc(k, st.frames, f);
  }

  lemma CommitRecordKeeps(k: Codec, st: State, c: Commit, body: Bytes)
    requires Faithful(k) && SpoolOk(k, st) && c.batchId !in st.live.seen
    requires EncodeCommit(k, c) == Some(body) && |body| <= k.format.limit
    requires HEADER_BYTES + |body| <= st.maxBytes - st.live.used
    ensures SpoolOk(k, st.(frames := st.frames + [Frame(COMMIT, body)],
                           live := ApplyCommit(st.live, c, HEADER_BYTES + |body|)))
  {
    var n := HEADER_BYTES + |body|;
    var r := Replay(k, st.frames).value;
    assert c.batchId !in r.seen && Ordered(r) && Ordered(st.live);
    hide WellFormed, Agree, Faithful, Ordered, EncodeCommit, Recovered;
    EncodedIsStored(k, c);
    RecoveredCommit(k, r, c);
    CanonEncodes(k, c);
    EncodedIsStored(k, Canon(k, c));
    CommitWellFormed(k, st.live, c, n);
    CommitWellFormed(k, r, Canon(k, c), n);
    CommitAgrees(k, r, st.live, c, n);
    AppendKeeps(k, st, Frame(COMMIT, body), ApplyCommit(r, Canon(k, c), n), ApplyCommit(st.live, c, n));
  }

  lemma CommitKeeps(k: Codec, st: State, c: Commit, io: bool)
    requires Faithful(k) && SpoolOk(k, st)
    ensures SpoolOk(k, CommitOp(k, st, c, io).0)
  {
    hide SpoolOk, Faithful, EncodeCommit;
    if CommitOp(k, st, c, io).1 == Done { CommitRecordKeeps(k, st, c, EncodeCommit(k, c).value); }
  }

  /** The acknowledgement of a stored batch is no longer than its commit, so it fits. */
  lemma ActiveAckFits(k: Codec, ix: Index, id: string)
    requires Faithful(k) && Stored(k, ix) && Active(ix, id)
    ensures |k.putAck(id)| <= k.format.limit
  {
    if id in ix.pending {
      assert StoredIn(k, ix, ix.pending[id], id);
      EncodedIsStored(k, ix.pending[id]);
    } else {
      assert StoredIn(k, ix, ix.quarantined[id].commit, id);
      EncodedIsStored(k, ix.quarantined[id].commit);
    }
  }

  lemma AckRecordKeeps(k: Codec, st: State, id: string)
    requires Faithful(k) && SpoolOk(k, st) && Active(st.live, id)
    ensures SpoolOk(k, st.(frames := st.frames + [Frame(ACK, k.putAck(id))], live := RemoveActive(st.live, id)))
  {
    var r := Replay(k, st.frames).value;
    assert Active(r, id) && id in st.live.sizes;
    ActiveAckFits(k, st.live, id);
    hide WellFormed, Agree, Faithful;
    AckWellFormed(k, st.live, id);
    AckWellFormed(k, r, id);
    RecoveredAck(k, r, id);
    AckAgrees(k, r, st.live, id);
    AppendKeeps(k, st, Frame(ACK, k.putAck(id)), RemoveActive(r, id), RemoveActive(st.live, id));
  }

  lemma CompactKeeps(k: Codec, st: State, swap: Swap)
    requires Faithful(k) && SpoolOk(k, st)
    ensures SpoolOk(k, CompactOp(k, st, swap))
    ensures CompactOp(k, st, swap).live == st.live
  {
    hide WellFormed, Agree, Faithful, Replay, CompactFrames;
    CompactFits(k, st.live);
    var r := CompactReplays(k, st.live);
  }

  lemma AckKeeps(k: Codec, st: State, id: string, io: bool, swap: Swap)
    requires Faithful(k) && SpoolOk(k, st)
    ensures SpoolOk(k, AckOp(k, st, id, io, swap).0)
  {
    hide SpoolOk, Faithful, CompactOp, FileBytes;
    if !st.closed && Active(st.live, id) {
      AckRecordKeeps(k, st, id);
      CompactKeeps(k, Append(st, Frame(ACK, k.putAck(id)), RemoveActive(st.live, id), io).0, swap);
    }
  }

  /**
    Quarantine writes its record without checking its size, while recovery checks it. The log
    stays readable exactly when the record fits the reader's limit.
  */
  lemma QuarantineKeeps(k: Codec, st: State, id: string, httpCode: int, code: string, at: int, io: bool)
    requires Faithful(k) && SpoolOk(k, st)
    ensures var (st', out) := QuarantineOp(k, st, id, httpCode, code, at, io);
            var m := Mark(id, httpCode, TrimSpace(code), at);
            if out == Done && id in st.live.pending then
              k.putMark(m).Some? && (SpoolOk(k, st') <==> |k.putMark(m).value| <= k.format.limit)
            else st' == st
  {
    hide Faithful, SpoolOk, TrimSpace, Blank;
    var (st', out) := QuarantineOp(k, st, id, httpCode, code, at, io);
    var m := Mark(id, httpCode, TrimSpace(code), at);
    if out == Done && id in st.live.pending {
      var f := Frame(QUARANTINE, k.putMark(m).value);
      if |f.body| <= k.format.limit {
        QuarantineRecordKeeps(k, st, m);
      } else {
        OversizeBreaks(k, st, f, st'.live);
      }
    }
  }

  /** A record above the limit makes the whole log unreadable. */
  lemma OversizeBreaks(k: Codec, st: State, f: Frame, next: Index)
    requires SpoolOk(k, st) && k.format.limit < |f.body| < FORMAT_LIMIT
    ensures var st' := st.(frames := st.frames + [f], live := next);
            !SpoolOk(k, st') && OpenOp(k, Concat(st.frames, k.format) + Encode(f, k.format), st.maxBytes).None?
  {
    OversizeRejected(st.frames, f, [], k.format);
    hide Scan, Encode, WellFormed, Agree;
    assert Concat(st.frames, k.format) + Encode(f, k.format) + [] == Concat(st.frames, k.format) + Encode(f, k.format);
    var st' := st.(frames := st.frames + [f], live := next);
    assert f in st'.frames;
  }

  /**
    Quarantine does write such records: on every readable spool with a pending batch, an error code
    longer than the record limit is written and reported as done, and the log cannot be opened again.
  */
  lemma QuarantineCanBreak(k: Codec, st: State, id: string, httpCode: int, code: string, at: int)
    requires Faithful(k) && SpoolOk(k, st) && !st.closed && id in st.live.pending && httpCode >= 400 && at != ZERO_TIME
    requires k.format.limit < |TrimSpace(code)|
    requires var body := k.putMark(Mark(id, httpCode, TrimSpace(code), at)); body.Some? && |body.value| < FORMAT_LIMIT
    ensures var (st', out) := QuarantineOp(k, st, id, httpCode, code, at, true);
            var f := Frame(QUARANTINE, k.putMark(Mark(id, httpCode, TrimSpace(code), at)).value);
            && out == Done && st'.frames == st.frames + [f]
            && OpenOp(k, Concat(st.frames, k.format) + Encode(f, k.format), st.maxBytes).None?
  {
    hide Faithful, SpoolOk, TrimSpace, Blank, Encode, Concat;
    BodiesAreLong(k, Mark(id, httpCode, TrimSpace(code), at), st.live.pending[id].checkpoint);
    HeldIdNotBlank(k, st, id);
    OversizeBreaks(k, st, Frame(QUARANTINE, k.putMark(Mark(id, httpCode, TrimSpace(code), at)).value), st.live);
  }

  lemma BodiesAreLong(k: Codec, m: Mark, cp: Checkpoint)
    requires Faithful(k)
    ensures k.putMark(m).Some? ==> |m.errorCode| <= |k.putMark(m).value|
    ensures k.putCheckpoint(cp).Some? ==> |cp.sourceKey| <= |k.putCheckpoint(cp).value|
  {
    assert MarkFaithful(k, m) && CheckpointFaithful(k, cp);
  }

  lemma HeldIdNotBlank(k: Codec, st: State, id: string)
    requires SpoolOk(k, st) && id in st.live.pending
    ensures !Blank(id)
  {
    hide Blank;
    assert StoredIn(k, st.live, st.live.pending[id], id);
  }

  lemma HeldKeysAreShort(k: Codec, st: State, key: string)
    requires Faithful(k) && SpoolOk(k, st) && key in st.live.checkpoints
    ensures |key| <= k.format.limit
  {
    assert StoredCheckpoint(k, st.live.checkpoints[key], key);
    assert CheckpointFaithful(k, st.live.checkpoints[key]);
  }

  /** So does Transition, for a source key longer than the record limit. */
  lemma TransitionCanBreak(k: Codec, st: State, next: Checkpoint)
    requires Faithful(k) && SpoolOk(k, st) && !st.closed && ValidCheckpoint(next)
    requires k.format.limit < |next.sourceKey|
    requires k.putCheckpoint(next).Some? && |k.putCheckpoint(next).value| < FORMAT_LIMIT
    ensures var (st', out) := TransitionOp(k, st, None, next, true);
            var f := Frame(CHECKPOINT, k.putCheckpoint(next).value);
            && out == Done && st'.frames == st.frames + [f]
            && OpenOp(k, Concat(st.frames, k.format) + Encode(f, k.format), st.maxBytes).None?
  {
    hide Faithful, SpoolOk, Encode, Concat, ValidCheckpoint;
    BodiesAreLong(k, Mark("", 0, "", 0), next);
    if next.sourceKey in st.live.checkpoints { HeldKeysAreShort(k, st, next.sourceKey); }
    OversizeBreaks(k, st, Frame(CHECKPOINT, k.putCheckpoint(next).value), st.live);
  }

  lemma PendingIdMatches(k: Codec, ix: Index, id: string)
    requires StoredCommits(k, ix) && id in ix.pending
    ensures ix.pending[id].batchId == id
  {
    assert StoredIn(k, ix, ix.pending[id], id);
  }

  lemma QuarantineRecordKeeps(k: Codec, st: State, m: Mark)
    requires Faithful(k) && SpoolOk(k, st) && m.batchId in st.live.pending && StoredMark(k, m, m.batchId)
    ensures SpoolOk(k, st.(frames := st.frames + [Frame(QUARANTINE, k.putMark(m).value)],
                           live := ApplyQuarantine(st.live, Quarantined(st.live.pending[m.batchId], m))))
  {
    var r := Replay(k, st.frames).value;
    assert m.batchId in r.pending && Ordered(r) && Ordered(st.live) && StoredCommits(k, r) && StoredCommits(k, st.live);
    hide WellFormed, Agree, Faithful, Ordered;
    PendingIdMatches(k, r, m.batchId);
    PendingIdMatches(k, st.live, m.batchId);
    hide StoredCommits;
    QuarantineWellFormed(k, st.live, m);
    QuarantineWellFormed(k, r, m);
    RecoveredMark(k, r, m);
    QuarantineAgrees(k, r, st.live, m);
    AppendKeeps(k, st, Frame(QUARANTINE, k.putMark(m).value), ApplyQuarantine(r, Quarantined(r.pending[m.batchId], m)),
                ApplyQuarantine(st.live, Quarantined(st.live.pending[m.batchId], m)));
  }

  /** The same holds of Transition: its record is checked by recovery only. */
  lemma TransitionKeeps(k: Codec, st: State, expected: Option<Checkpoint>, next: Checkpoint, io: bool)
    requires Faithful(k) && SpoolOk(k, st)
    ensures var (st', out) := TransitionOp(k, st, expected, next, io);
            && (out != Done ==> st' == st)
            && (out == Done ==>
                  k.putCheckpoint(next).Some?
                  && (SpoolOk(k, st') <==> |k.putCheckpoint(next).value| <= k.format.limit))
  {
    var (st', out) := TransitionOp(k, st, expected, next, io);
    if out == Done {
      var f := Frame(CHECKPOINT, k.putCheckpoint(next).value);
      hide Faithful, SpoolOk;
      if |f.body| <= k.format.limit {
        CheckpointRecordKeeps(k, st, next);
      } else {
        OversizeBreaks(k, st, f, st'.live);
      }
    }
  }

  lemma CheckpointRecordKeeps(k: Codec, st: State, cp: Checkpoint)
    requires Faithful(k) && SpoolOk(k, st) && StoredCheckpoint(k, cp, cp.sourceKey)
    ensures SpoolOk(k, st.(frames := st.frames + [Frame(CHECKPOINT, k.putCheckpoint(cp).value)],
                           live := ApplyCheckpoint(st.live, cp)))
  {
    var r := Replay(k, st.frames).value;
    CheckpointAgrees(k, r, st.live, cp);
    hide WellFormed, Agree, Faithful;
    CheckpointWellFormed(k, st.live, cp);
    CheckpointWellFormed(k, r, cp);
    RecoveredCheckpoint(k, r, cp);
    AppendKeeps(k, st, Frame(CHECKPOINT, k.putCheckpoint(cp).value), ApplyCheckpoint(r, cp), ApplyCheckpoint(st.live, cp));
  }

  lemma CheckpointAgrees(k: Codec, r: Index, live: Index, cp: Checkpoint)
    requires Agree(k, r, live)
    ensures Agree(k, ApplyCheckpoint(r, cp), ApplyCheckpoint(live, cp))
  {}

  // ---- what each operation shows

  /** The other batches are where they were. */
  ghost predicate OthersSame(before: Index, after: Index, id: string) {
    && (forall x :: x != id ==> (x in before.pending <==> x in after.pending))
    && (forall x :: x != id && x in before.pending ==> after.pending[x] == before.pending[x])
    && (forall x :: x != id ==> (x in before.quarantined <==> x in after.quarantined))
    && (forall x :: x != id && x in before.quarantined ==> after.quarantined[x] == before.quarantined[x])
  }

  /** A commit that is accepted is the newest pending batch, and its checkpoint is the source's. */
  lemma CommitShows(k: Codec, st: State, c: Commit, io: bool)
    requires SpoolOk(k, st)
    ensures var (st', out) := CommitOp(k, st, c, io);
            var body := EncodeCommit(k, c);
            && (out == Done <==>
                  && body.Some? && |body.value| <= k.format.limit && |body.value| < FORMAT_LIMIT && io
                  && !st.closed && c.batchId !in st.live.seen
                  && HEADER_BYTES + |body.value| <= st.maxBytes - st.live.used)
            && (out != Done ==> st' == st)
            && (out == Done ==>
                  && PendingIds(st'.live) == PendingIds(st.live) + [c.batchId]
                  && st'.live.pending[c.batchId] == c && OthersSame(st.live, st'.live, c.batchId)
                  && QuarantinedIds(st'.live) == QuarantinedIds(st.live)
                  && st'.live.used == st.live.used + HEADER_BYTES + |body.value|
                  && st'.live.checkpoints == st.live.checkpoints[c.checkpoint.sourceKey := c.checkpoint])
  {
    hide EncodeCommit, Durable, Sized, Stored, Filter;
    if CommitOp(k, st, c, io).1 == Done {
      OrderedOfOk(k, st);
      AddPendingId(st.live, CommitOp(k, st, c, io).0.live, c.batchId);
    }
  }

  lemma OrderedOfOk(k: Codec, st: State)
    requires SpoolOk(k, st)
    ensures Ordered(st.live) && Sized(st.live)
  {}

  /**
    Why a commit is refused, each reason exactly: bad arguments, a record above the limit, a closed
    spool, an id that was used, no space (the one reason to wait), or the file.
  */
  lemma CommitRefused(k: Codec, st: State, c: Commit, io: bool)
    ensures var out := CommitOp(k, st, c, io).1;
            var cp := c.checkpoint;
            var bad := || TrimSpace(c.batchId) == "" || k.payloadId(c.payload) != Some(c.batchId)
                       || TrimSpace(cp.sourceKey) == "" || TrimSpace(cp.fileIdentity) == ""
                       || cp.offsetBytes < 0 || cp.observedAt == 0 || k.putCommit(c).None?;
            && (out == Rejected <==> bad)
            && (!bad ==>
                  var bytes := |k.putCommit(c).value|;
                  var unused := bytes <= k.format.limit && !st.closed && c.batchId !in st.live.seen;
                  var room := st.live.used + 16 + bytes <= st.maxBytes;
                  && (out == TooLarge <==> bytes > k.format.limit)
                  && (out == Closed <==> bytes <= k.format.limit && st.closed)
                  && (out == AlreadyPresent <==> bytes <= k.format.limit && !st.closed && c.batchId in st.live.seen)
                  && (out == Full <==> unused && !room)
                  && (out == IoFailed <==> unused && room && (!io || bytes >= FORMAT_LIMIT)))
  {
    hide TrimSpace;
  }

  /** The file holds more than the bound above which an acknowledgement starts a compaction. */
  predicate Overgrown(fs: seq<Frame>, maxBytes: nat) { FileBytes(fs) > maxBytes && FileBytes(fs) > 65536 }

  /**
    An acknowledgement of a batch on disk takes it off exactly if its record was written; a failed
    write changes nothing, and only a compaction that could not reopen the file closes the spool.
  */
  lemma AckExact(k: Codec, st: State, id: string, io: bool, swap: Swap)
    requires Faithful(k) && SpoolOk(k, st) && !st.closed && Active(st.live, id)
    ensures var (st', out) := AckOp(k, st, id, io, swap);
            var written := st.frames + [Frame(ACK, k.putAck(id))];
            && (io <==> !Active(st'.live, id))
            && (!io ==> (st', out) == (st, IoFailed))
            && (io && !Overgrown(written, st.maxBytes) ==> st'.frames == written && !st'.closed && out == Done)
            && (io && Overgrown(written, st.maxBytes) ==>
                  (st'.closed <==> swap.SwappedClosed? || swap.KeptClosed?) && out == if st'.closed then Closed else Done)
  {
    hide Faithful, SpoolOk, FileBytes, CompactFrames, Writable, Fit;
    AckRecordKeeps(k, st, id);
    AckFits(k, st, id);
    var appended := st.(frames := st.frames + [Frame(ACK, k.putAck(id))], live := RemoveActive(st.live, id));
    CompactLive(k, appended, swap);
    WritableOfOk(k, appended);
  }

  lemma AckFits(k: Codec, st: State, id: string)
    requires Faithful(k) && SpoolOk(k, st) && Active(st.live, id)
    ensures |k.putAck(id)| < FORMAT_LIMIT
  {
    ActiveAckFits(k, st.live, id);
  }

  lemma WritableOfOk(k: Codec, st: State)
    requires Faithful(k) && SpoolOk(k, st)
    ensures Writable(k, st.live) && Framable(CompactFrames(k, st.live))
  {
    hide Writable, CompactFrames, WellFormed;
    CompactFits(k, st.live);
  }

  /** With the spool closed, or the batch not on disk, nothing happens. */
  lemma AckIdle(k: Codec, st: State, id: string, io: bool, swap: Swap)
    requires st.closed || !Active(st.live, id)
    ensures AckOp(k, st, id, io, swap) == (st, if st.closed then Closed else Done)
  {}

  /**
    Compaction reclaims: the new log has one record for each pending batch, two for each quarantined
    one and one for each checkpoint, and none for what was acknowledged.
  */
  lemma CompactReclaims(k: Codec, st: State, swap: Swap)
    requires Faithful(k) && SpoolOk(k, st)
    ensures var st' := CompactOp(k, st, swap);
            && (swap.Kept? || swap.KeptClosed? ==> st'.frames == st.frames)
            && (swap.Swapped? || swap.SwappedClosed? ==>
                  && |st'.frames| == |PendingIds(st.live)| + 2 * |QuarantinedIds(st.live)| + |st.live.checkpoints|
                  && forall f :: f in st'.frames ==> f.kind != ACK)
            && (st'.closed <==> st.closed || swap.SwappedClosed? || swap.KeptClosed?)
  {
    hide Faithful, SpoolOk, Fit, CompactFrames, Writable;
    WritableOfOk(k, st);
    CompactSize(k, st.live);
  }

  /** An acknowledged batch is gone from both queues and its bytes are free; the rest keeps its order. */
  lemma AckShows(k: Codec, st: State, id: string, io: bool, swap: Swap)
    requires Faithful(k) && SpoolOk(k, st) && !st.closed && Active(st.live, id) && io
    ensures var st' := AckOp(k, st, id, io, swap).0;
            && !Active(st'.live, id)
            && OthersSame(st.live, st'.live, id)
            && PendingIds(st'.live) == Filter(PendingIds(st.live), st.live.pending.Keys - {id})
            && QuarantinedIds(st'.live) == Filter(QuarantinedIds(st.live), st.live.quarantined.Keys - {id})
            && id in st.live.sizes && st'.live.used == st.live.used - st.live.sizes[id]
            && st'.live.checkpoints == st.live.checkpoints
  {
    hide Faithful, SpoolOk, Filter, FileBytes, CompactOp, PendingIds, QuarantinedIds, Ordered, Total;
    AckFits(k, st, id);
    var appended := Append(st, Frame(ACK, k.putAck(id)), RemoveActive(st.live, id), io).0;
    CompactLive(k, appended, swap);
    DropIds(st.live, RemoveActive(st.live, id), id);
    OrderedOfOk(k, st);
  }

  lemma CompactLive(k: Codec, st: State, swap: Swap)
    ensures CompactOp(k, st, swap).live == st.live
  {
    hide Writable, CompactFrames;
  }

  /** A quarantined batch leaves the pending queue for the end of the other, with its bytes still counted. */
  lemma QuarantineShows(k: Codec, st: State, id: string, httpCode: int, code: string, at: int, io: bool)
    requires SpoolOk(k, st) && id in st.live.pending
    requires QuarantineOp(k, st, id, httpCode, code, at, io).1 == Done
    ensures var st' := QuarantineOp(k, st, id, httpCode, code, at, io).0;
            && httpCode >= 400 && OthersSame(st.live, st'.live, id)
            && PendingIds(st'.live) == Filter(PendingIds(st.live), st.live.pending.Keys - {id})
            && QuarantinedIds(st'.live) == QuarantinedIds(st.live) + [id]
            && st'.live.quarantined[id].commit == st.live.pending[id]
            && st'.live.used == st.live.used && st'.live.checkpoints == st.live.checkpoints
  {
    hide Durable, TrimSpace, Filter, Stored, PendingIds, QuarantinedIds;
    PendingIdOf(k, st, id);
    OrderedOfOk(k, st);
    MoveId(st.live, Quarantined(st.live.pending[id], Mark(id, httpCode, TrimSpace(code), at)));
  }

  /** Why a quarantine is refused, and what is kept of the reply that asked for it. */
  lemma QuarantineExact(k: Codec, st: State, id: string, httpCode: int, code: string, at: int, io: bool)
    requires SpoolOk(k, st)
    ensures var (st', out) := QuarantineOp(k, st, id, httpCode, code, at, io);
            var m := Mark(id, httpCode, TrimSpace(code), at);
            var bad := TrimSpace(id) == "" || httpCode < 400 || at == 0 || k.putMark(m).None?;
            && (out == Rejected <==> bad)
            && (out == Closed <==> !bad && st.closed)
            && (out == UnknownBatch <==> !bad && !st.closed && id !in st.live.pending && id !in st.live.quarantined)
            && (out == IoFailed <==>
                  !bad && !st.closed && id in st.live.pending && (!io || |k.putMark(m).value| >= FORMAT_LIMIT))
            && (out == Done <==>
                  !bad && !st.closed && (if id in st.live.pending then io && |k.putMark(m).value| < FORMAT_LIMIT
                                         else id in st.live.quarantined))
            && (out != Done || id !in st.live.pending ==> st' == st)
            && (out == Done && id in st.live.pending ==>
                  && id !in st'.live.pending && id in st'.live.quarantined
                  && st'.live.quarantined[id] == Quarantined(st.live.pending[id], m)
                  && st'.frames == st.frames + [Frame(QUARANTINE, k.putMark(m).value)])
  {
    hide SpoolOk, TrimSpace;
    if id in st.live.pending { PendingIdOf(k, st, id); }
  }

  /**
    A transition is a compare-and-set: it conflicts exactly if the source has a checkpoint that was not
    expected, or none where one was, or one at another key, file or offset. When it is done only the
    source's checkpoint is new.
  */
  lemma TransitionExact(k: Codec, st: State, expected: Option<Checkpoint>, next: Checkpoint, io: bool)
    ensures var (st', out) := TransitionOp(k, st, expected, next, io);
            var bad := || TrimSpace(next.sourceKey) == "" || TrimSpace(next.fileIdentity) == ""
                       || next.offsetBytes < 0 || next.observedAt == 0 || k.putCheckpoint(next).None?;
            var known := next.sourceKey in st.live.checkpoints;
            var met :=
              if expected.None? then !known
              else
                known
                && (var c, e := st.live.checkpoints[next.sourceKey], expected.value;
                    (c.sourceKey, c.fileIdentity, c.offsetBytes) == (e.sourceKey, e.fileIdentity, e.offsetBytes));
            && (out == Rejected <==> bad)
            && (out == Closed <==> !bad && st.closed)
            && (out == Conflict <==> !bad && !st.closed && !met)
            && (out == Done <==> !bad && !st.closed && met && io && |k.putCheckpoint(next).value| < FORMAT_LIMIT)
            && (out != Done ==> st' == st)
            && (out == Done ==>
                  && st'.frames == st.frames + [Frame(CHECKPOINT, k.putCheckpoint(next).value)]
                  && st'.live.checkpoints == st.live.checkpoints[next.sourceKey := next]
                  && st' == st.(frames := st'.frames, live := st.live.(checkpoints := st'.live.checkpoints)))
  {
    hide TrimSpace;
  }

  lemma PendingIdOf(k: Codec, st: State, id: string)
    requires SpoolOk(k, st) && id in st.live.pending
    ensures st.live.pending[id].batchId == id
  {
    PendingIdMatches(k, st.live, id);
  }

  /** Only an acknowledgement takes a batch off the disk, and only its own. */
  lemma AckHeld(k: Codec, st: State, id: string, io: bool, swap: Swap, x: string)
    requires x != id
    ensures Active(AckOp(k, st, id, io, swap).0.live, x) <==> Active(st.live, x)
  {
    hide FileBytes, CompactOp;
    CompactLive(k, Append(st, Frame(ACK, k.putAck(id)), RemoveActive(st.live, id), io).0, swap);
  }

  lemma QuarantineHeld(k: Codec, st: State, id: string, httpCode: int, code: string, at: int, io: bool, x: string)
    requires SpoolOk(k, st)
    ensures Active(QuarantineOp(k, st, id, httpCode, code, at, io).0.live, x) <==> Active(st.live, x)
  {
    hide SpoolOk, TrimSpace;
    if id in st.live.pending { PendingIdOf(k, st, id); }
  }

  // ---- crash and reopening

  /** What the spool shows to the rest of the Agent, with payloads in compacted form. */
  datatype View = View(
    pending: seq<Commit>, quarantined: seq<Quarantined>, checkpoints: map<string, Checkpoint>, used: int)

  function ListPending(k: Codec, ix: Index, ids: seq<string>): seq<Commit>
    requires forall id :: id in ids ==> id in ix.pending
  {
    if ids == [] then [] else [Canon(k, ix.pending[ids[0]])] + ListPending(k, ix, ids[1..])
  }

  function ListQuarantined(k: Codec, ix: Index, ids: seq<string>): seq<Quarantined>
    requires forall id :: id in ids ==> id in ix.quarantined
  {
    if ids == [] then [] else [CanonQ(k, ix.quarantined[ids[0]])] + ListQuarantined(k, ix, ids[1..])
  }

  function ViewOf(k: Codec, ix: Index): View {
    FilterMembers(ix.order, ix.pending.Keys);
    FilterMembers(ix.quarantineOrder, ix.quarantined.Keys);
    View(ListPending(k, ix, PendingIds(ix)), ListQuarantined(k, ix, QuarantinedIds(ix)), ix.checkpoints, ix.used)
  }

  /** The view is what it says: every batch on disk, in the order of its queue, with its compacted payload. */
  lemma ViewExact(k: Codec, ix: Index)
    ensures var v, ps, qs := ViewOf(k, ix), PendingIds(ix), QuarantinedIds(ix);
            && |v.pending| == |ps| && |v.quarantined| == |qs| && v.checkpoints == ix.checkpoints && v.used == ix.used
            && (forall i :: 0 <= i < |ps| ==>
                  ps[i] in ix.pending && v.pending[i] == ix.pending[ps[i]].(payload := k.compact(ix.pending[ps[i]].payload)))
            && (forall i :: 0 <= i < |qs| ==>
                  qs[i] in ix.quarantined && v.quarantined[i].mark == ix.quarantined[qs[i]].mark
                  && v.quarantined[i].commit
                     == ix.quarantined[qs[i]].commit.(payload := k.compact(ix.quarantined[qs[i]].commit.payload)))
  {
    hide Filter;
    FilterMembers(ix.order, ix.pending.Keys);
    FilterMembers(ix.quarantineOrder, ix.quarantined.Keys);
    ListPendingAt(k, ix, PendingIds(ix));
    ListQuarantinedAt(k, ix, QuarantinedIds(ix));
    forall i | 0 <= i < |PendingIds(ix)| ensures PendingIds(ix)[i] in ix.pending {
      assert PendingIds(ix)[i] in PendingIds(ix);
    }
    forall i | 0 <= i < |QuarantinedIds(ix)| ensures QuarantinedIds(ix)[i] in ix.quarantined {
      assert QuarantinedIds(ix)[i] in QuarantinedIds(ix);
    }
  }

  lemma {:induction false} ListPendingAt(k: Codec, ix: Index, ids: seq<string>)
    requires forall id :: id in ids ==> id in ix.pending
    ensures |ListPending(k, ix, ids)| == |ids|
    ensures forall i :: 0 <= i < |ids| ==> ids[i] in ix.pending && ListPending(k, ix, ids)[i] == Canon(k, ix.pending[ids[i]])
  {
    hide Canon;
    if ids != [] {
      ListPendingAt(k, ix, ids[1..]);
      forall i | 0 <= i < |ids| ensures ids[i] in ix.pending && ListPending(k, ix, ids)[i] == Canon(k, ix.pending[ids[i]]) {
        if i > 0 { assert ids[1..][i - 1] == ids[i]; }
      }
    }
  }

  lemma {:induction false} ListQuarantinedAt(k: Codec, ix: Index, ids: seq<string>)
    requires forall id :: id in ids ==> id in ix.quarantined
    ensures |ListQuarantined(k, ix, ids)| == |ids|
    ensures forall i :: 0 <= i < |ids| ==>
              ids[i] in ix.quarantined && ListQuarantined(k, ix, ids)[i] == CanonQ(k, ix.quarantined[ids[i]])
  {
    hide CanonQ;
    if ids != [] {
      ListQuarantinedAt(k, ix, ids[1..]);
      forall i | 0 <= i < |ids|
        ensures ids[i] in ix.quarantined && ListQuarantined(k, ix, ids)[i] == CanonQ(k, ix.quarantined[ids[i]])
      {
        if i > 0 { assert ids[1..][i - 1] == ids[i]; }
      }
    }
  }

  lemma CanonTwice(k: Codec, c: Commit)
    requires Faithful(k)
    ensures Canon(k, Canon(k, c)) == Canon(k, c)
  {
    assert PayloadFaithful(k, c.payload);
  }

  lemma {:induction false} ListPendingAgrees(k: Codec, r: Index, live: Index, ids: seq<string>)
    requires Faithful(k) && PendingAgree(k, r, live) && forall id :: id in ids ==> id in live.pending
    ensures ListPending(k, r, ids) == ListPending(k, live, ids)
  {
    if ids != [] {
      hide Faithful;
      assert ids[0] in ids;
      CanonTwice(k, live.pending[ids[0]]);
      ListPendingAgrees(k, r, live, ids[1..]);
    }
  }

  lemma {:induction false} ListQuarantinedAgrees(k: Codec, r: Index, live: Index, ids: seq<string>)
    requires Faithful(k) && QuarantinedAgree(k, r, live) && forall id :: id in ids ==> id in live.quarantined
    ensures ListQuarantined(k, r, ids) == ListQuarantined(k, live, ids)
  {
    if ids != [] {
      hide Faithful;
      assert ids[0] in ids;
      CanonTwice(k, live.quarantined[ids[0]].commit);
      ListQuarantinedAgrees(k, r, live, ids[1..]);
    }
  }

  /** Agreement is what an observer can see. */
  lemma AgreeShowsSame(k: Codec, r: Index, live: Index)
    requires Faithful(k) && Agree(k, r, live)
    ensures ViewOf(k, r) == ViewOf(k, live)
  {
    hide Faithful;
    FilterMembers(live.order, live.pending.Keys);
    FilterMembers(live.quarantineOrder, live.quarantined.Keys);
    ListPendingAgrees(k, r, live, PendingIds(live));
    ListQuarantinedAgrees(k, r, live, QuarantinedIds(live));
  }

  lemma {:induction false} AgreeSelf(k: Codec, r: Index, live: Index)
    requires Faithful(k) && Agree(k, r, live)
    ensures Agree(k, r, r)
  {
    forall id | id in r.pending ensures r.pending[id] == Canon(k, r.pending[id]) {
      CanonTwice(k, live.pending[id]);
    }
    forall id | id in r.quarantined ensures r.quarantined[id] == CanonQ(k, r.quarantined[id]) {
      CanonTwice(k, live.quarantined[id].commit);
    }
  }

  /** A file of readable records and a torn tail. */
  ghost predicate TornTail(data: Bytes, fs: seq<Frame>, w: Format) {
    && Fit(fs, w)
    && (data == Concat(fs, w)
        || exists f: Frame, n: nat ::
             |f.body| <= w.limit && n < |Encode(f, w)| && data == Concat(fs, w) + Encode(f, w)[..n])
  }

  lemma ScanTornTail(data: Bytes, fs: seq<Frame>, w: Format)
    requires TornTail(data, fs, w)
    ensures Scan(data, w) == Intact(fs, |Concat(fs, w)|)
  {
    hide Scan, Encode;
    if data == Concat(fs, w) {
      ScanWritten(fs, w);
    } else {
      var f: Frame, n: nat :| |f.body| <= w.limit && n < |Encode(f, w)| && data == Concat(fs, w) + Encode(f, w)[..n];
      ScanTorn(fs, f, n, w);
    }
  }

  /**
    Reopening after a crash: recovery accepts the log, cuts the torn tail, and shows exactly
    what the process showed; the reopened spool satisfies the same invariant.
  */
  lemma ReopenShowsSame(k: Codec, st: State, data: Bytes)
    requires Faithful(k) && SpoolOk(k, st) && TornTail(data, st.frames, k.format)
    ensures var re := OpenOp(k, data, st.maxBytes);
            && re.Some?
            && re.value.frames == st.frames
            && SpoolOk(k, re.value)
            && ViewOf(k, re.value.live) == ViewOf(k, st.live)
            && re.value.live.sizes == st.live.sizes
  {
    var r := Replay(k, st.frames).value;
    ScanTornTail(data, st.frames, k.format);
    AgreeSelf(k, r, st.live);
    AgreeShowsSame(k, r, st.live);
    hide WellFormed, Faithful, ViewOf, Scan, Replay, TornTail;
  }

  /** A batch id committed in the file is in `seen`, so the live process refuses it again. */
  lemma {:induction false} SeenFrom(k: Codec, ix: Index, fs: seq<Frame>, f: Frame)
    requires ReplayFrom(k, ix, fs).Some?
    ensures ix.seen <= ReplayFrom(k, ix, fs).value.seen
    ensures f in fs && f.kind == COMMIT ==>
              DecodeCommit(k, f.body).Some? && DecodeCommit(k, f.body).value.batchId in ReplayFrom(k, ix, fs).value.seen
    decreases |fs|
  {
    if fs != [] {
      SeenFrom(k, Recovered(k, ix, fs[0]).value, fs[1..], f);
    }
  }

  lemma SeenCoversFile(k: Codec, st: State, f: Frame)
    requires SpoolOk(k, st) && f in st.frames && f.kind == COMMIT
    ensures DecodeCommit(k, f.body).Some? && DecodeCommit(k, f.body).value.batchId in st.live.seen
  {
    SeenFrom(k, EMPTY, st.frames, f);
  }

  // ---- whole runs

  datatype Event =
    | Commits(commit: Commit, io: bool)
    | Acks(id: string, io: bool, swap: Swap)
    | Quarantines(id: string, httpCode: int, code: string, at: int, io: bool)
    | Transitions(expected: Option<Checkpoint>, next: Checkpoint, io: bool)
    | Closes
    | Reopens(torn: Frame, written: nat)

  /** The hypothesis on record sizes that Quarantine and Transition do not check themselves. */
  ghost predicate EventFits(k: Codec, e: Event) {
    match e
    case Quarantines(id, httpCode, code, at, _) =>
      var m := Mark(id, httpCode, TrimSpace(code), at);
      k.putMark(m).Some? ==> |k.putMark(m).value| <= k.format.limit
    case Transitions(_, next, _) => k.putCheckpoint(next).Some? ==> |k.putCheckpoint(next).value| <= k.format.limit
    case Reopens(torn, written) => |torn.body| <= k.format.limit < FORMAT_LIMIT && written < |Encode(torn, k.format)|
    case _ => true
  }

  ghost function Step(k: Codec, st: State, e: Event): State {
    match e
    case Commits(c, io) => CommitOp(k, st, c, io).0
    case Acks(id, io, swap) => AckOp(k, st, id, io, swap).0
    case Quarantines(id, httpCode, code, at, io) => QuarantineOp(k, st, id, httpCode, code, at, io).0
    case Transitions(expected, next, io) => TransitionOp(k, st, expected, next, io).0
    case Closes => st.(closed := true)
    case Reopens(torn, written) =>
      if !Fit(st.frames, k.format) || |torn.body| >= FORMAT_LIMIT || written > |Encode(torn, k.format)| then st
      else
        var re := OpenOp(k, Concat(st.frames, k.format) + Encode(torn, k.format)[..written], st.maxBytes);
        if re.Some? then re.value else st
  }

  lemma StepKeeps(k: Codec, st: State, e: Event)
    requires Faithful(k) && SpoolOk(k, st) && EventFits(k, e)
    ensures SpoolOk(k, Step(k, st, e))
    ensures e.Reopens? ==>
              && OpenOp(k, Concat(st.frames, k.format) + Encode(e.torn, k.format)[..e.written], st.maxBytes).Some?
              && ViewOf(k, Step(k, st, e).live) == ViewOf(k, st.live)
  {
    match e
    case Commits(c, io) =>
      hide SpoolOk, Faithful;
      CommitKeeps(k, st, c, io);
    case Acks(id, io, swap) =>
      hide SpoolOk, Faithful;
      AckKeeps(k, st, id, io, swap);
    case Quarantines(id, httpCode, code, at, io) =>
      hide SpoolOk, Faithful;
      QuarantineKeeps(k, st, id, httpCode, code, at, io);
    case Transitions(expected, next, io) =>
      hide SpoolOk, Faithful;
      TransitionKeeps(k, st, expected, next, io);
    case Closes =>
      hide WellFormed, Agree;
    case Reopens(torn, written) =>
      var data := Concat(st.frames, k.format) + Encode(torn, k.format)[..written];
      hide WellFormed, Agree, Faithful, OpenOp, ViewOf, Encode, Concat;
      assert TornTail(data, st.frames, k.format);
      hide TornTail;
      ReopenShowsSame(k, st, data);
  }

  /** A run from the opening of an empty file. It never gets stuck: every reopening is accepted. */
  ghost function Run(k: Codec, maxBytes: nat, es: seq<Event>): State
    decreases |es|
  {
    if es == [] then State([], EMPTY, maxBytes, false)
    else Step(k, Run(k, maxBytes, es[..|es| - 1]), es[|es| - 1])
  }

  lemma {:induction false} RunKeeps(k: Codec, maxBytes: nat, es: seq<Event>)
    requires Faithful(k) && forall e :: e in es ==> EventFits(k, e)
    ensures SpoolOk(k, Run(k, maxBytes, es)) && Run(k, maxBytes, es).maxBytes == maxBytes
    decreases |es|
  {
    hide SpoolOk, Faithful, EventFits, Step;
    if es == [] {
      EmptySpoolOk(k, maxBytes);
    } else {
      var last := es[|es| - 1];
      assert last in es;
      forall e | e in es[..|es| - 1] ensures EventFits(k, e) { assert e in es; }
      RunKeeps(k, maxBytes, es[..|es| - 1]);
      StepKeeps(k, Run(k, maxBytes, es[..|es| - 1]), last);
      StepLimit(k, Run(k, maxBytes, es[..|es| - 1]), last);
    }
  }

  lemma StepLimit(k: Codec, st: State, e: Event)
    ensures Step(k, st, e).maxBytes == st.maxBytes
  {
    hide EncodeCommit, Writable, CompactFrames, Replay, Scan;
  }

  /** The states of a spool that was opened empty; only record sizes are taken on trust. */
  ghost predicate Reachable(k: Codec, maxBytes: nat, st: State) {
    exists es :: AllFit(k, es) && Run(k, maxBytes, es) == st
  }

  ghost predicate AllFit(k: Codec, es: seq<Event>) { forall e :: e in es ==> EventFits(k, e) }

  lemma ReachableOk(k: Codec, maxBytes: nat, st: State)
    requires Faithful(k) && Reachable(k, maxBytes, st)
    ensures SpoolOk(k, st) && st.maxBytes == maxBytes
  {
    hide SpoolOk, Faithful, EventFits, Run;
    var es :| AllFit(k, es) && Run(k, maxBytes, es) == st;
    RunKeeps(k, maxBytes, es);
  }

  /** Recovery refines the live index: in every reachable state reopening shows exactly what was live. */
  lemma ReachableIsRecoverable(k: Codec, maxBytes: nat, st: State, data: Bytes)
    requires Faithful(k) && Reachable(k, maxBytes, st) && TornTail(data, st.frames, k.format)
    ensures var re := OpenOp(k, data, maxBytes);
            re.Some? && ViewOf(k, re.value.live) == ViewOf(k, st.live)
  {
    hide Reachable, SpoolOk, Faithful, ViewOf, OpenOp, TornTail;
    ReachableOk(k, maxBytes, st);
    ReopenShowsSame(k, st, data);
  }

  /** Used bytes are the total of the active records, one for each held batch, and within the limit. */
  lemma UsedBytesExact(k: Codec, maxBytes: nat, st: State)
    requires Faithful(k) && Reachable(k, maxBytes, st)
    ensures st.live.used == Total(st.live.sizes) <= maxBytes
    ensures st.live.sizes.Keys == st.live.pending.Keys + st.live.quarantined.Keys
  {
    hide Reachable, Faithful, Durable, Total;
    ReachableOk(k, maxBytes, st);
  }

  /** No batch id that is committed in the file can be committed again. */
  lemma FileIdsAreSeen(k: Codec, maxBytes: nat, st: State, f: Frame)
    requires Faithful(k) && Reachable(k, maxBytes, st) && f in st.frames && f.kind == COMMIT
    ensures DecodeCommit(k, f.body).Some? && DecodeCommit(k, f.body).value.batchId in st.live.seen
  {
    hide Reachable, Faithful, SpoolOk, DecodeCommit;
    ReachableOk(k, maxBytes, st);
    SeenCoversFile(k, st, f);
  }
}
