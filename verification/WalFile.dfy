/**
  The WAL object itself: maps, orders and counters updated in place over a growing file, proved
  against the operations of module Wal.
*/
module WalFile {
  import opened Prelude
  import opened Framing
  import opened Text
  import opened Spool
  import opened Compaction
  import opened Wal

  class WAL {
    const k: Codec
    const maxBytes: nat

    var file: Bytes
    var used: int
    var closed: bool
    var pending: map<string, Commit>
    var sizes: map<string, nat>
    var order: seq<string>
    var quarantined: map<string, Quarantined>
    var quarantineOrder: seq<string>
    var seen: set<string>
    var checkpoints: map<string, Checkpoint>

    /** The records that the file holds. */
    ghost var frames: seq<Frame>

    ghost function Live(): Index
      reads `pending, `sizes, `order, `quarantined, `quarantineOrder, `seen, `checkpoints, `used
    {
      Index(pending, sizes, order, quarantined, quarantineOrder, seen, checkpoints, used)
    }

    ghost function Value(): State
      reads this
    {
      State(frames, Live(), maxBytes, closed)
    }

    /** The bytes are the records, and the live index is what they replay to. */
    ghost predicate Valid()
      reads this
    {
      && Faithful(k) && SpoolOk(k, Value())
      && Fit(frames, k.format) && file == Concat(frames, k.format)
    }

    /** A WAL on the bytes of a file, before recover() has run. */
    constructor (k: Codec, maxBytes: nat, data: Bytes)
      ensures this.k == k && this.maxBytes == maxBytes && file == data
      ensures Value() == State([], EMPTY, maxBytes, false)
    {
      this.k := k;
      this.maxBytes := maxBytes;
      file := data;
      used := 0;
      closed := false;
      pending := map[];
      sizes := map[];
      order := [];
      quarantined := map[];
      quarantineOrder := [];
      seen := {};
      checkpoints := map[];
      frames := [];
    }

    // ---- the index

    method ApplyCommitHere(c: Commit, recordBytes: nat)
      modifies this`pending, this`sizes, this`order, this`seen, this`checkpoints, this`used
      ensures Live() == ApplyCommit(old(Live()), c, recordBytes)
    {
      pending := pending[c.batchId := c];
      sizes := sizes[c.batchId := recordBytes];
      order := order + [c.batchId];
      seen := seen + {c.batchId};
      checkpoints := checkpoints[c.checkpoint.sourceKey := c.checkpoint];
      used := used + recordBytes;
    }

    method RemoveActiveHere(id: string)
      modifies this`pending, this`quarantined, this`sizes, this`used
      ensures Live() == RemoveActive(old(Live()), id)
    {
      pending := pending - {id};
      quarantined := quarantined - {id};
      used := used - (if id in sizes then sizes[id] else 0);
      sizes := sizes - {id};
    }

    method ApplyQuarantineHere(q: Quarantined)
      modifies this`pending, this`quarantined, this`quarantineOrder
      ensures Live() == ApplyQuarantine(old(Live()), q)
    {
      var id := q.commit.batchId;
      pending := pending - {id};
      quarantined := quarantined[id := q];
      quarantineOrder := quarantineOrder + [id];
    }

    /** One record of the file, as recovery applies it. */
    method ApplyRecovered(f: Frame) returns (ok: bool)
      modifies this`pending, this`sizes, this`order, this`quarantined, this`quarantineOrder, this`seen, this`checkpoints, this`used
      ensures ok <==> Recovered(k, old(Live()), f).Some?
      ensures ok ==> Live() == Recovered(k, old(Live()), f).value
    {
      hide DecodeCommit;
      if f.kind == COMMIT {
        var c := DecodeCommit(k, f.body);
        if c.None? || c.value.batchId in seen { return false; }
        ApplyCommitHere(c.value, HEADER_BYTES + |f.body|);
      } else if f.kind == ACK {
        var id := k.getAck(f.body);
        if id.None? || (id.value !in pending && id.value !in quarantined) { return false; }
        RemoveActiveHere(id.value);
      } else if f.kind == CHECKPOINT {
        var cp := k.getCheckpoint(f.body);
        if cp.None? || !ValidCheckpoint(cp.value) { return false; }
        checkpoints := checkpoints[cp.value.sourceKey := cp.value];
      } else if f.kind == QUARANTINE {
        var m := k.getMark(f.body);
        if m.None? || m.value.batchId !in pending || m.value.httpCode < 400 || m.value.at == ZERO_TIME { return false; }
        ApplyQuarantineHere(Quarantined(pending[m.value.batchId], m.value));
      } else {
        return false;
      }
      return true;
    }

    /** recover(): read records until the end of the file, cutting a torn tail. */
    method Recover() returns (ok: bool)
      requires k.format.limit < FORMAT_LIMIT && Value() == State([], EMPTY, maxBytes, false)
      modifies this
      ensures OpenOp(k, old(file), maxBytes) == if ok then Some(Value()) else None
      ensures ok ==> Fit(frames, k.format) && file == Concat(frames, k.format)
    {
      hide Recovered, ReadTo, ReadAt, OpenOp, Fit, Concat;
      var data := file;
      var offset := 0;
      NothingRead(k, data);
      var read := ReadAt(data, 0, k.format);
      while read.Whole?
        invariant file == data && !closed && offset <= |data| && read == ReadAt(data, offset, k.format)
        invariant ReadTo(k, data, offset, frames, Live())
        decreases |data| - offset
      {
        ReadsNext(k, data, offset, frames, Live(), maxBytes);
        var applied := ApplyRecovered(read.frame);
        if !applied { return false; }
        frames := frames + [read.frame];
        offset := offset + HEADER_BYTES + |read.frame.body|;
        read := ReadAt(data, offset, k.format);
      }
      StopsReading(k, data, offset, frames, Live(), maxBytes);
      ok := read.Torn?;
      if ok { file := data[..offset]; }
    }

    // ---- operations

    method AppendRecord(f: Frame, io: bool) returns (ok: bool)
      requires k.format.limit < FORMAT_LIMIT && Fit(frames, k.format) && file == Concat(frames, k.format)
      modifies this`file, this`frames
      ensures ok <==> |f.body| < FORMAT_LIMIT && io
      ensures frames == if ok then old(frames) + [f] else old(frames)
      ensures Fit(frames, k.format) ==> file == Concat(frames, k.format)
      ensures ok ==> file == old(file) + Encode(f, k.format)
      ensures !ok ==> file == old(file)
    {
      if |f.body| >= FORMAT_LIMIT || !io { return false; }
      if |f.body| <= k.format.limit {
        ConcatAppend(frames, [f], k.format);
        assert Concat([f], k.format) == Encode(f, k.format) + [];
      } else {
        assert f in frames + [f];
      }
      file := file + Encode(f, k.format);
      frames := frames + [f];
      return true;
    }

    method Commit(c: Spool.Commit, io: bool) returns (out: Outcome)
      requires Valid()
      modifies this
      ensures Valid()
      ensures (Value(), out) == CommitOp(k, old(Value()), c, io)
    {
      hide SpoolOk, Faithful, EncodeCommit, Fit;
      CommitKeeps(k, Value(), c, io);
      LimitsOfOk(k, Value());
      var body := EncodeCommit(k, c);
      if body.None? { return Rejected; }
      if |body.value| > k.format.limit { return TooLarge; }
      if closed { return Closed; }
      if c.batchId in seen { return AlreadyPresent; }
      var n := HEADER_BYTES + |body.value|;
      if n > maxBytes - used { return Full; }
      var ok := AppendRecord(Frame(COMMIT, body.value), io);
      if !ok { return IoFailed; }
      ApplyCommitHere(c, n);
      FitOfOk(k, Value());
      return Done;
    }

    /** The size hypothesis is on Quarantine and Transition only; see Wal.QuarantineKeeps. */
    method Quarantine(id: string, httpCode: int, code: string, at: int, io: bool) returns (out: Outcome)
      requires Valid()
      modifies this
      ensures (Value(), out) == QuarantineOp(k, old(Value()), id, httpCode, code, at, io)
      ensures var m := Mark(id, httpCode, TrimSpace(code), at);
              (k.putMark(m).Some? ==> |k.putMark(m).value| <= k.format.limit) ==> Valid()
    {
      hide SpoolOk, Faithful, TrimSpace, Blank, Fit;
      QuarantineKeeps(k, Value(), id, httpCode, code, at, io);
      LimitsOfOk(k, Value());
      var m := Mark(id, httpCode, TrimSpace(code), at);
      var body := k.putMark(m);
      if Blank(id) || httpCode < 400 || at == ZERO_TIME || body.None? { return Rejected; }
      if closed { return Closed; }
      if id !in pending {
        if id in quarantined { return Done; }
        return UnknownBatch;
      }
      var ok := AppendRecord(Frame(QUARANTINE, body.value), io);
      if !ok { return IoFailed; }
      ApplyQuarantineHere(Quarantined(pending[id], m));
      if |body.value| <= k.format.limit { FitOfOk(k, Value()); }
      return Done;
    }

    method Transition(expected: Option<Checkpoint>, next: Checkpoint, io: bool) returns (out: Outcome)
      requires Valid()
      modifies this
      ensures (Value(), out) == TransitionOp(k, old(Value()), expected, next, io)
      ensures (k.putCheckpoint(next).Some? ==> |k.putCheckpoint(next).value| <= k.format.limit) ==> Valid()
    {
      hide SpoolOk, Faithful, ValidCheckpoint, Fit;
      TransitionKeeps(k, Value(), expected, next, io);
      LimitsOfOk(k, Value());
      var body := k.putCheckpoint(next);
      if !ValidCheckpoint(next) || body.None? { return Rejected; }
      if closed { return Closed; }
      var current := if next.sourceKey in checkpoints then Some(checkpoints[next.sourceKey]) else None;
      if expected.None? {
        if current.Some? { return Conflict; }
      } else if current.None? || !SamePosition(current.value, expected.value) {
        return Conflict;
      }
      var ok := AppendRecord(Frame(CHECKPOINT, body.value), io);
      if !ok { return IoFailed; }
      checkpoints := checkpoints[next.sourceKey := next];
      if |body.value| <= k.format.limit { FitOfOk(k, Value()); }
      return Done;
    }

    method Ack(id: string, io: bool, swap: Swap) returns (out: Outcome)
      requires Valid()
      modifies this
      ensures Valid()
      ensures (Value(), out) == AckOp(k, old(Value()), id, io, swap)
      ensures !old(closed) && (id in old(pending) || id in old(quarantined)) ==>
                (io <==> id !in pending && id !in quarantined) && (out == IoFailed <==> !io)
    {
      hide Faithful, SpoolOk, FileBytes, CompactOp, Fit;
      if !closed && (id in pending || id in quarantined) { AckExact(k, Value(), id, io, swap); }
      AckKeeps(k, Value(), id, io, swap);
      LimitsOfOk(k, Value());
      if closed { return Closed; }
      if id !in pending && id !in quarantined { return Done; }
      AckRecordKeeps(k, Value(), id);
      var ok := AppendRecord(Frame(ACK, k.putAck(id)), io);
      if !ok { return IoFailed; }
      RemoveActiveHere(id);
      FitOfOk(k, Value());
      FileBytesConcat(frames, k.format);
      if |file| > (if maxBytes > COMPACTION_FLOOR then maxBytes else COMPACTION_FLOOR) {
        CompactLocked(swap);
        if closed { return Closed; }
      }
      return Done;
    }

    method WritePending() returns (out: Bytes)
      requires Faithful(k) && Stored(k, Live()) && Writable(k, Live())
      ensures var fs := PendingFrames(k, Live(), (ActivePendingMembers(Live()); PendingIds(Live())));
              Fit(fs, k.format) && out == Concat(fs, k.format)
    {
      hide Faithful, Stored, Writable, EncodeCommit, Encode, Filter, Fit;
      ghost var ix := Live();
      ghost var ids: seq<string> := [];
      out := [];
      PendingFramesFit(k, ix, []);
      assert order[..0] == [];
      FilterEmpty(pending.Keys);
      for i := 0 to |order|
        invariant ids == Filter(order[..i], pending.Keys) && forall x :: x in ids ==> x in pending
        invariant Fit(PendingFrames(k, ix, ids), k.format) && out == Concat(PendingFrames(k, ix, ids), k.format)
      {
        var id := order[i];
        PrefixFilter(order, i, pending.Keys);
        if id in pending {
          WritableAt(k, ix, id);
          var f := Frame(COMMIT, EncodeCommit(k, pending[id]).value);
          PendingFramesSnoc(k, ix, ids, id);
          PendingFramesFit(k, ix, ids + [id]);
          ConcatSnoc(PendingFrames(k, ix, ids), f, k.format);
          FitAt(PendingFrames(k, ix, ids), f, k.format);
          out := out + Encode(f, k.format);
          ids := ids + [id];
        } else {
          assert ids + [] == ids;
        }
      }
      assert order[..|order|] == order;
    }

    method WriteQuarantined() returns (out: Bytes)
      requires Faithful(k) && Stored(k, Live()) && Writable(k, Live())
      ensures var fs := QuarantineFrames(k, Live(), (ActiveQuarantinedMembers(Live()); QuarantinedIds(Live())));
              Fit(fs, k.format) && out == Concat(fs, k.format)
    {
      hide Faithful, Stored, Writable, EncodeCommit, Encode, Filter, Fit;
      ghost var ix := Live();
      ghost var ids: seq<string> := [];
      out := [];
      QuarantineFramesFit(k, ix, []);
      assert quarantineOrder[..0] == [];
      FilterEmpty(quarantined.Keys);
      for i := 0 to |quarantineOrder|
        invariant ids == Filter(quarantineOrder[..i], quarantined.Keys) && forall x :: x in ids ==> x in quarantined
        invariant Fit(QuarantineFrames(k, ix, ids), k.format) && out == Concat(QuarantineFrames(k, ix, ids), k.format)
      {
        var id := quarantineOrder[i];
        PrefixFilter(quarantineOrder, i, quarantined.Keys);
        if id in quarantined {
          WritableAt(k, ix, id);
          var q := quarantined[id];
          var f, g := Frame(COMMIT, EncodeCommit(k, q.commit).value), Frame(QUARANTINE, k.putMark(q.mark).value);
          QuarantineFramesSnoc(k, ix, ids, id);
          assert QuarantineFrames(k, ix, ids + [id]) == QuarantineFrames(k, ix, ids) + [f] + [g];
          QuarantineFramesFit(k, ix, ids + [id]);
          ConcatSnoc(QuarantineFrames(k, ix, ids) + [f], g, k.format);
          ConcatSnoc(QuarantineFrames(k, ix, ids), f, k.format);
          FitAt(QuarantineFrames(k, ix, ids) + [f], g, k.format);
          FitAt(QuarantineFrames(k, ix, ids), f, k.format);
          out := out + Encode(f, k.format);
          out := out + Encode(g, k.format);
          ids := ids + [id];
        } else {
          assert ids + [] == ids;
        }
      }
      assert quarantineOrder[..|quarantineOrder|] == quarantineOrder;
    }

    method WriteCheckpoints() returns (out: Bytes)
      requires Faithful(k) && Stored(k, Live()) && Writable(k, Live())
      ensures var fs := CheckpointFrames(k, Live(), SortedKeys(checkpoints.Keys));
              Fit(fs, k.format) && out == Concat(fs, k.format)
    {
      hide Faithful, Stored, Writable, Encode, Fit;
      ghost var ix := Live();
      var keys := SortedKeys(checkpoints.Keys);
      out := [];
      CheckpointFramesFit(k, ix, []);
      assert keys[..0] == [];
      for i := 0 to |keys|
        invariant Fit(CheckpointFrames(k, ix, keys[..i]), k.format)
        invariant out == Concat(CheckpointFrames(k, ix, keys[..i]), k.format)
      {
        var key := keys[i];
        CheckpointWritableAt(k, ix, key);
        var f := Frame(CHECKPOINT, k.putCheckpoint(checkpoints[key]).value);
        assert keys[..i + 1] == keys[..i] + [key];
        CheckpointFramesSnoc(k, ix, keys[..i], key);
        CheckpointFramesFit(k, ix, keys[..i + 1]);
        ConcatSnoc(CheckpointFrames(k, ix, keys[..i]), f, k.format);
        FitAt(CheckpointFrames(k, ix, keys[..i]), f, k.format);
        out := out + Encode(f, k.format);
      }
      assert keys[..|keys|] == keys;
    }

    /** Writes the live part of the index to a new file and swaps it in. */
    method CompactLocked(swap: Swap)
      requires Valid()
      modifies this`file, this`frames, this`closed
      ensures Valid()
      ensures Value() == CompactOp(k, old(Value()), swap)
    {
      ghost var was := Value();
      hide Faithful, SpoolOk, Stored, Writable, CompactFrames, Fit, WellFormed;
      StoredOfOk(k, was);
      CompactKeeps(k, was, swap);
      CompactFits(k, Live());
      var a := WritePending();
      var b := WriteQuarantined();
      var c := WriteCheckpoints();
      ConcatCompact(k, Live());
      if swap.Swapped? || swap.SwappedClosed? {
        file := a + b + c;
        frames := CompactFrames(k, Live());
      }
      closed := closed || swap.SwappedClosed? || swap.KeptClosed?;
      FitOfOk(k, Value());
    }

    // ---- reading

    /** Pending(): the batches still to be delivered, oldest first. */
    method Pending() returns (result: seq<Spool.Commit>)
      ensures |result| == |PendingIds(Live())|
      ensures forall i :: 0 <= i < |result| ==>
                PendingIds(Live())[i] in pending && result[i] == pending[PendingIds(Live())[i]]
    {
      result := [];
      ghost var ids: seq<string> := [];
      assert order[..0] == [];
      for i := 0 to |order|
        invariant ids == Filter(order[..i], pending.Keys) && |ids| == |result|
        invariant forall j :: 0 <= j < |ids| ==> ids[j] in pending && result[j] == pending[ids[j]]
      {
        PrefixFilter(order, i, pending.Keys);
        if order[i] in pending {
          result := result + [pending[order[i]]];
          ids := ids + [order[i]];
        } else {
          assert ids + [] == ids;
        }
      }
      assert order[..|order|] == order;
    }

    /** Peek(): the first of them, without the rest. */
    method Peek() returns (first: Option<Spool.Commit>)
      ensures first.None? <==> PendingIds(Live()) == []
      ensures first.Some? ==> PendingIds(Live())[0] in pending && first.value == pending[PendingIds(Live())[0]]
    {
      assert order[..0] == [];
      for i := 0 to |order|
        invariant Filter(order[..i], pending.Keys) == []
      {
        PrefixFilter(order, i, pending.Keys);
        if order[i] in pending {
          assert order == order[..i + 1] + order[i + 1..];
          FilterConcat(order[..i + 1], order[i + 1..], pending.Keys);
          return Some(pending[order[i]]);
        }
      }
      assert order[..|order|] == order;
      return None;
    }
  }

  // ---- facts the methods use

  lemma FilterEmpty(keep: set<string>)
    ensures Filter([], keep) == []
  {}

  lemma ActivePendingMembers(ix: Index)
    ensures forall id :: id in PendingIds(ix) ==> id in ix.pending
  {
    FilterMembers(ix.order, ix.pending.Keys);
  }

  lemma ActiveQuarantinedMembers(ix: Index)
    ensures forall id :: id in QuarantinedIds(ix) ==> id in ix.quarantined
  {
    FilterMembers(ix.quarantineOrder, ix.quarantined.Keys);
  }

  lemma WritableAt(k: Codec, ix: Index, id: string)
    requires Writable(k, ix)
    ensures id in ix.pending ==> EncodeCommit(k, ix.pending[id]).Some?
    ensures id in ix.quarantined ==>
              EncodeCommit(k, ix.quarantined[id].commit).Some? && k.putMark(ix.quarantined[id].mark).Some?
  {}

  lemma CheckpointWritableAt(k: Codec, ix: Index, key: string)
    requires Writable(k, ix) && key in ix.checkpoints
    ensures k.putCheckpoint(ix.checkpoints[key]).Some?
  {}

  lemma FitAt(fs: seq<Frame>, f: Frame, w: Format)
    requires Fit(fs + [f], w)
    ensures |f.body| < FORMAT_LIMIT
  {
    assert f in fs + [f];
  }

  lemma FitOfOk(k: Codec, st: State)
    requires SpoolOk(k, st)
    ensures Fit(st.frames, k.format)
  {}

  lemma LimitsOfOk(k: Codec, st: State)
    requires Faithful(k) && SpoolOk(k, st)
    ensures k.format.limit < FORMAT_LIMIT && st.live.used <= st.maxBytes
  {}

  lemma StoredOfOk(k: Codec, st: State)
    requires SpoolOk(k, st)
    ensures Stored(k, st.live) && WellFormed(k, st.live)
  {}

  lemma FramableOfFit(fs: seq<Frame>, w: Format)
    requires Fit(fs, w)
    ensures Framable(fs)
  {}

  /** The bytes of the compacted file, part by part. */
  lemma ConcatCompact(k: Codec, ix: Index)
    requires Faithful(k) && Stored(k, ix) && Writable(k, ix) && Fit(CompactFrames(k, ix), k.format)
    ensures forall id :: id in PendingIds(ix) ==> id in ix.pending
    ensures forall id :: id in QuarantinedIds(ix) ==> id in ix.quarantined
    ensures Framable(CompactFrames(k, ix))
    ensures var a, b := PendingFrames(k, ix, PendingIds(ix)), QuarantineFrames(k, ix, QuarantinedIds(ix));
            var c := CheckpointFrames(k, ix, SortedKeys(ix.checkpoints.Keys));
            && Fit(a, k.format) && Fit(b, k.format) && Fit(c, k.format)
            && Concat(CompactFrames(k, ix), k.format) == Concat(a, k.format) + Concat(b, k.format) + Concat(c, k.format)
  {
    FramableOfFit(CompactFrames(k, ix), k.format);
    ActivePendingMembers(ix);
    ActiveQuarantinedMembers(ix);
    hide Faithful, Stored, Fit, PendingIds, QuarantinedIds, Framable;
    PendingFramesFit(k, ix, PendingIds(ix));
    QuarantineFramesFit(k, ix, QuarantinedIds(ix));
    CheckpointFramesFit(k, ix, SortedKeys(ix.checkpoints.Keys));
    hide Writable, PendingFrames, QuarantineFrames, CheckpointFrames;
    var a, b := PendingFrames(k, ix, PendingIds(ix)), QuarantineFrames(k, ix, QuarantinedIds(ix));
    ConcatAppend(a, b, k.format);
    ConcatAppend(a + b, CheckpointFrames(k, ix, SortedKeys(ix.checkpoints.Keys)), k.format);
  }

  /** recover() has read `done`, which is `frames`, which replay to `ix`; `rest` is to come. */
  ghost predicate ReadSoFar(k: Codec, data: Bytes, done: Bytes, rest: Bytes, frames: seq<Frame>, ix: Index) {
    && Fit(frames, k.format) && done == Concat(frames, k.format)
    && Scan(data, k.format) == AfterAll(frames, Scan(rest, k.format))
    && Replay(k, frames) == Some(ix)
  }

  function ReadAt(data: Bytes, offset: nat, w: Format): (r: Read)
    requires offset <= |data|
    ensures r.Whole? ==> offset + HEADER_BYTES + |r.frame.body| <= |data|
  {
    ReadFrame(data[offset..], w)
  }

  ghost predicate ReadTo(k: Codec, data: Bytes, offset: nat, frames: seq<Frame>, ix: Index)
    requires offset <= |data|
  {
    ReadSoFar(k, data, data[..offset], data[offset..], frames, ix)
  }

  lemma NothingRead(k: Codec, data: Bytes)
    requires k.format.limit < FORMAT_LIMIT
    ensures ReadTo(k, data, 0, [], EMPTY)
  {
    hide Scan;
    assert data[..0] == [] && data[0..] == data;
  }

  lemma Advance(data: Bytes, offset: nat, n: nat)
    requires offset + n <= |data|
    ensures data[offset..][n..] == data[offset + n..]
    ensures data[..offset] + data[offset..][..n] == data[..offset + n]
  {}

  /** The end of the file, a torn tail, or damage ends the pass with the verdict of OpenOp. */
  lemma StopsReading(k: Codec, data: Bytes, offset: nat, frames: seq<Frame>, ix: Index, maxBytes: nat)
    requires offset <= |data| && ReadTo(k, data, offset, frames, ix) && !ReadAt(data, offset, k.format).Whole?
    ensures Fit(frames, k.format) && data[..offset] == Concat(frames, k.format)
    ensures OpenOp(k, data, maxBytes)
         == if ReadAt(data, offset, k.format).Torn? then Some(State(frames, ix, maxBytes, false)) else None
  {
    hide ReadFrame, Replay;
    AfterAllShape(frames, Scan(data[offset..], k.format), k.format);
    assert frames + [] == frames;
  }

  /** One whole frame: refused, and then the log is refused, or replayed. */
  lemma ReadsNext(k: Codec, data: Bytes, offset: nat, frames: seq<Frame>, ix: Index, maxBytes: nat)
    requires offset <= |data| && ReadTo(k, data, offset, frames, ix) && ReadAt(data, offset, k.format).Whole?
    ensures var f := ReadAt(data, offset, k.format).frame;
            match Recovered(k, ix, f)
            case None => OpenOp(k, data, maxBytes).None?
            case Some(next) => ReadTo(k, data, offset + HEADER_BYTES + |f.body|, frames + [f], next)
  {
    hide ReadFrame, Recovered, ReadSoFar, OpenOp;
    var done, rest := data[..offset], data[offset..];
    var f := ReadFrame(rest, k.format).frame;
    ReadsOne(k, data, done, rest, frames, ix, maxBytes);
    Advance(data, offset, HEADER_BYTES + |f.body|);
  }

  lemma ReadsOne(k: Codec, data: Bytes, done: Bytes, rest: Bytes, frames: seq<Frame>, ix: Index, maxBytes: nat)
    requires ReadSoFar(k, data, done, rest, frames, ix) && ReadFrame(rest, k.format).Whole?
    ensures var f := ReadFrame(rest, k.format).frame;
            var n := HEADER_BYTES + |f.body|;
            match Recovered(k, ix, f)
            case None => OpenOp(k, data, maxBytes).None?
            case Some(next) => ReadSoFar(k, data, done + rest[..n], rest[n..], frames + [f], next)
  {
    var f := ReadFrame(rest, k.format).frame;
    var tail := rest[HEADER_BYTES + |f.body|..];
    WholeFrame(k, data, done, rest, frames, f);
    hide ReadFrame, Recovered, Scan, OpenOp, Concat, AfterAll, Fit;
    ReplaySnoc(k, frames, f);
    if Recovered(k, ix, f).None? {
      RefusedRecord(k, data, frames, f, Scan(tail, k.format), maxBytes);
    }
  }

  lemma WholeFrame(k: Codec, data: Bytes, done: Bytes, rest: Bytes, frames: seq<Frame>, f: Frame)
    requires Fit(frames, k.format) && done == Concat(frames, k.format)
    requires Scan(data, k.format) == AfterAll(frames, Scan(rest, k.format))
    requires ReadFrame(rest, k.format) == Whole(f)
    ensures var n := HEADER_BYTES + |f.body|;
            && Fit(frames + [f], k.format) && done + rest[..n] == Concat(frames + [f], k.format)
            && Scan(data, k.format) == AfterAll(frames + [f], Scan(rest[n..], k.format))
  {
    var tail := rest[HEADER_BYTES + |f.body|..];
    ReadWhole(rest, k.format);
    assert Scan(rest, k.format) == After(f, Scan(tail, k.format));
    hide ReadFrame, Encode, Scan, After;
    AfterAllSnoc(frames, f, Scan(tail, k.format));
    assert Fit(frames + [f], k.format);
    hide AfterAll, Fit, Concat;
    ConcatSnoc(frames, f, k.format);
  }

  lemma RefusedRecord(k: Codec, data: Bytes, frames: seq<Frame>, f: Frame, s: Scanned, maxBytes: nat)
    requires Fit(frames + [f], k.format) && Replay(k, frames + [f]).None?
    requires Scan(data, k.format) == AfterAll(frames + [f], s)
    ensures OpenOp(k, data, maxBytes).None?
  {
    hide Scan, Recovered;
    AfterAllShape(frames + [f], s, k.format);
    if s.Intact? { ReplayConcat(k, EMPTY, frames + [f], s.frames); }
  }

  lemma {:induction false} AfterAllSnoc(fs: seq<Frame>, f: Frame, s: Scanned)
    ensures AfterAll(fs + [f], s) == AfterAll(fs, After(f, s))
  {
    if fs != [] {
      assert (fs + [f])[1..] == fs[1..] + [f];
      AfterAllSnoc(fs[1..], f, s);
    }
  }
}
