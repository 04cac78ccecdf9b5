/**
  Compaction writes a new log that holds only the live part of the index. Replaying it shows
  what the index shows.
*/
module Compaction {
  import opened Prelude
  import opened Framing
  import opened Text
  import opened Spool

  /** json.Marshal succeeds on everything that would be written. */
  predicate Writable(k: Codec, ix: Index) {
    && (forall id :: id in ix.pending ==> EncodeCommit(k, ix.pending[id]).Some?)
    && (forall id :: id in ix.quarantined ==>
          EncodeCommit(k, ix.quarantined[id].commit).Some? && k.putMark(ix.quarantined[id].mark).Some?)
    && (forall key :: key in ix.checkpoints ==> k.putCheckpoint(ix.checkpoints[key]).Some?)
  }

  function PendingFrames(k: Codec, ix: Index, ids: seq<string>): seq<Frame>
    requires Writable(k, ix) && forall id :: id in ids ==> id in ix.pending
  {
    if ids == [] then []
    else [Frame(COMMIT, EncodeCommit(k, ix.pending[ids[0]]).value)] + PendingFrames(k, ix, ids[1..])
  }

  /** A quarantined batch is written as its commit and its mark. */
  function BatchFrames(k: Codec, ix: Index, id: string): seq<Frame>
    requires Writable(k, ix) && id in ix.quarantined
  {
    var q := ix.quarantined[id];
    [Frame(COMMIT, EncodeCommit(k, q.commit).value)] + [Frame(QUARANTINE, k.putMark(q.mark).value)]
  }

  function QuarantineFrames(k: Codec, ix: Index, ids: seq<string>): seq<Frame>
    requires Writable(k, ix) && forall id :: id in ids ==> id in ix.quarantined
  {
    if ids == [] then [] else BatchFrames(k, ix, ids[0]) + QuarantineFrames(k, ix, ids[1..])
  }

  function CheckpointFrames(k: Codec, ix: Index, keys: seq<string>): seq<Frame>
    requires Writable(k, ix) && forall key :: key in keys ==> key in ix.checkpoints
  {
    if keys == [] then []
    else [Frame(CHECKPOINT, k.putCheckpoint(ix.checkpoints[keys[0]]).value)] + CheckpointFrames(k, ix, keys[1..])
  }

  /** The records of the compacted file: pending commits, quarantined batches, checkpoints. */
  function CompactFrames(k: Codec, ix: Index): seq<Frame>
    requires Writable(k, ix)
  {
    FilterMembers(ix.order, ix.pending.Keys);
    FilterMembers(ix.quarantineOrder, ix.quarantined.Keys);
    PendingFrames(k, ix, PendingIds(ix))
    + QuarantineFrames(k, ix, QuarantinedIds(ix))
    + CheckpointFrames(k, ix, SortedKeys(ix.checkpoints.Keys))
  }

  function Members(ids: seq<string>): set<string> { set id | id in ids }

  lemma MembersSnoc(ids: seq<string>, id: string)
    ensures Members(ids + [id]) == Members(ids) + {id}
  {}

  /** `r` has replayed the pending batches `ps` of `ix` and then its quarantined batches `qs`. */
  ghost predicate Stage(k: Codec, ix: Index, r: Index, ps: seq<string>, qs: seq<string>) {
    && r.order == ps + qs && r.quarantineOrder == qs
    && r.seen == Members(ps) + Members(qs)
    && r.pending.Keys == Members(ps) <= ix.pending.Keys
    && (forall id :: id in r.pending ==> r.pending[id] == Canon(k, ix.pending[id]))
    && r.quarantined.Keys == Members(qs) <= ix.quarantined.Keys
    && (forall id :: id in r.quarantined ==> r.quarantined[id] == CanonQ(k, ix.quarantined[id]))
    && (forall id :: id in r.sizes ==> id in ix.sizes && r.sizes[id] == ix.sizes[id])
    && r.checkpoints.Keys <= ix.checkpoints.Keys
  }

  lemma StagePending(k: Codec, ix: Index, r: Index, ps: seq<string>, id: string)
    requires Stage(k, ix, r, ps, []) && id in ix.pending && id in ix.sizes
    requires ix.pending[id].batchId == id && ix.pending[id].checkpoint.sourceKey in ix.checkpoints
    ensures Stage(k, ix, ApplyCommit(r, Canon(k, ix.pending[id]), ix.sizes[id]), ps + [id], [])
  {
    MembersSnoc(ps, id);
    assert r.order + [id] == (ps + [id]) + [];
  }

  lemma StageQuarantined(k: Codec, ix: Index, r: Index, ps: seq<string>, qs: seq<string>, id: string)
    requires Stage(k, ix, r, ps, qs) && id in ix.quarantined && id in ix.sizes && id !in ps
    requires var c := ix.quarantined[id].commit; c.batchId == id && c.checkpoint.sourceKey in ix.checkpoints
    ensures var q := CanonQ(k, ix.quarantined[id]);
            Stage(k, ix, ApplyQuarantine(ApplyCommit(r, q.commit, ix.sizes[id]), q), ps, qs + [id])
  {
    MembersSnoc(qs, id);
    var q := CanonQ(k, ix.quarantined[id]);
    var last := ApplyQuarantine(ApplyCommit(r, q.commit, ix.sizes[id]), q);
    assert last.order == ps + (qs + [id]);
    assert last.pending == r.pending;
  }

  /** A stored commit of `ix`, replayed on an index that has not seen it. */
  lemma ReplayStoredCommit(k: Codec, ix: Index, r: Index, c: Commit)
    requires Faithful(k) && WellFormed(k, r) && StoredIn(k, ix, c, c.batchId) && c.batchId !in r.seen
    ensures Recovered(k, r, Frame(COMMIT, EncodeCommit(k, c).value))
         == Some(ApplyCommit(r, Canon(k, c), ix.sizes[c.batchId]))
    ensures WellFormed(k, ApplyCommit(r, Canon(k, c), ix.sizes[c.batchId]))
  {
    RecoveredCommit(k, r, c);
    CanonEncodes(k, c);
    EncodedIsStored(k, Canon(k, c));
    CommitWellFormed(k, r, Canon(k, c), ix.sizes[c.batchId]);
  }

  lemma ReplayFirstPending(k: Codec, ix: Index, r: Index, ps: seq<string>, ids: seq<string>)
    requires Faithful(k) && StoredCommits(k, ix) && Writable(k, ix) && WellFormed(k, r) && Stage(k, ix, r, ps, [])
    requires ids != [] && ids[0] !in ps && forall id :: id in ids ==> id in ix.pending
    ensures ids[0] in ix.sizes && ix.pending[ids[0]].batchId == ids[0]
    ensures ix.pending[ids[0]].checkpoint.sourceKey in ix.checkpoints
    ensures var next := ApplyCommit(r, Canon(k, ix.pending[ids[0]]), ix.sizes[ids[0]]);
            && WellFormed(k, next) && Stage(k, ix, next, ps + [ids[0]], [])
            && ReplayFrom(k, r, PendingFrames(k, ix, ids)) == ReplayFrom(k, next, PendingFrames(k, ix, ids[1..]))
  {
    hide EncodeCommit;
    hide WellFormed, Faithful, Writable;
    assert StoredIn(k, ix, ix.pending[ids[0]], ids[0]);
    ReplayStoredCommit(k, ix, r, ix.pending[ids[0]]);
    StagePending(k, ix, r, ps, ids[0]);
  }

  lemma {:induction false} ReplayPendingFrames(k: Codec, ix: Index, r: Index, ps: seq<string>, ids: seq<string>)
    returns (out: Index)
    requires Faithful(k) && StoredCommits(k, ix) && Writable(k, ix) && WellFormed(k, r) && Stage(k, ix, r, ps, [])
    requires NoDuplicates(ids) && forall id :: id in ids ==> id in ix.pending && id !in ps
    ensures ReplayFrom(k, r, PendingFrames(k, ix, ids)) == Some(out)
    ensures WellFormed(k, out) && Stage(k, ix, out, ps + ids, [])
    decreases |ids|
  {
    hide WellFormed, Writable, Faithful, StoredCommits, Stage, Recovered, EncodeCommit;
    if ids == [] {
      assert ps + ids == ps;
      out := r;
    } else {
      var id := ids[0];
      ReplayFirstPending(k, ix, r, ps, ids);
      assert ps + [id] + ids[1..] == ps + ids;
      out := ReplayPendingFrames(k, ix, ApplyCommit(r, Canon(k, ix.pending[id]), ix.sizes[id]), ps + [id], ids[1..]);
    }
  }

  /** The two records of one quarantined batch. */
  lemma ReplayStoredQuarantine(k: Codec, ix: Index, r: Index, q: Quarantined)
    requires Faithful(k) && WellFormed(k, r)
    requires StoredIn(k, ix, q.commit, q.commit.batchId) && StoredMark(k, q.mark, q.commit.batchId)
    requires q.commit.batchId !in r.seen
    ensures var f, g := Frame(COMMIT, EncodeCommit(k, q.commit).value), Frame(QUARANTINE, k.putMark(q.mark).value);
            var last := ApplyQuarantine(ApplyCommit(r, Canon(k, q.commit), ix.sizes[q.commit.batchId]), CanonQ(k, q));
            ReplayFrom(k, r, [f] + [g]) == Some(last) && WellFormed(k, last)
  {
    var f, g := Frame(COMMIT, EncodeCommit(k, q.commit).value), Frame(QUARANTINE, k.putMark(q.mark).value);
    ReplayStoredCommit(k, ix, r, q.commit);
    var mid := ApplyCommit(r, Canon(k, q.commit), ix.sizes[q.commit.batchId]);
    RecoveredMark(k, mid, q.mark);
    QuarantineWellFormed(k, mid, q.mark);
    ReplayTwo(k, r, f, g);
  }

  lemma ReplayTwo(k: Codec, r: Index, f: Frame, g: Frame)
    requires Recovered(k, r, f).Some? && Recovered(k, Recovered(k, r, f).value, g).Some?
    ensures ReplayFrom(k, r, [f] + [g]) == Recovered(k, Recovered(k, r, f).value, g)
  {
    var mid := Recovered(k, r, f).value;
    ReplayConcat(k, r, [f], [g]);
    assert ReplayFrom(k, r, [f]) == Some(mid);
    assert ReplayFrom(k, mid, [g]) == Recovered(k, mid, g);
  }

  lemma ReplayFirstQuarantined(
    k: Codec, ix: Index, r: Index, ps: seq<string>, qs: seq<string>, ids: seq<string>)
    requires Faithful(k) && Stored(k, ix) && Writable(k, ix) && WellFormed(k, r) && Stage(k, ix, r, ps, qs)
    requires ids != [] && ids[0] !in ps && ids[0] !in qs && forall id :: id in ids ==> id in ix.quarantined
    ensures ids[0] in ix.sizes && ix.quarantined[ids[0]].commit.batchId == ids[0]
    ensures ix.quarantined[ids[0]].commit.checkpoint.sourceKey in ix.checkpoints
    ensures var q := CanonQ(k, ix.quarantined[ids[0]]);
            var next := ApplyQuarantine(ApplyCommit(r, q.commit, ix.sizes[ids[0]]), q);
            && WellFormed(k, next) && Stage(k, ix, next, ps, qs + [ids[0]])
            && ReplayFrom(k, r, QuarantineFrames(k, ix, ids)) == ReplayFrom(k, next, QuarantineFrames(k, ix, ids[1..]))
  {
    hide WellFormed, Faithful, Writable;
    var q := ix.quarantined[ids[0]];
    assert StoredIn(k, ix, q.commit, ids[0]);
    assert StoredMark(k, q.mark, ids[0]);
    ReplayStoredQuarantine(k, ix, r, q);
    StageQuarantined(k, ix, r, ps, qs, ids[0]);
    ReplayConcat(k, r, BatchFrames(k, ix, ids[0]), QuarantineFrames(k, ix, ids[1..]));
  }

  lemma {:induction false} ReplayQuarantineFrames(
    k: Codec, ix: Index, r: Index, ps: seq<string>, qs: seq<string>, ids: seq<string>)
    returns (out: Index)
    requires Faithful(k) && Stored(k, ix) && Writable(k, ix) && WellFormed(k, r) && Stage(k, ix, r, ps, qs)
    requires NoDuplicates(ids) && forall id :: id in ids ==> id in ix.quarantined && id !in ps && id !in qs
    ensures ReplayFrom(k, r, QuarantineFrames(k, ix, ids)) == Some(out)
    ensures WellFormed(k, out) && Stage(k, ix, out, ps, qs + ids)
    decreases |ids|
  {
    hide WellFormed, Writable, Faithful, Stored, Stage, Recovered, EncodeCommit;
    if ids == [] {
      assert qs + ids == qs;
      out := r;
    } else {
      var id := ids[0];
      ReplayFirstQuarantined(k, ix, r, ps, qs, ids);
      assert qs + [id] + ids[1..] == qs + ids;
      var q := CanonQ(k, ix.quarantined[id]);
      out := ReplayQuarantineFrames(k, ix, ApplyQuarantine(ApplyCommit(r, q.commit, ix.sizes[id]), q), ps, qs + [id], ids[1..]);
    }
  }

  /** `m` with the entries of `from` written over it, key by key. */
  function Overwrite(m: map<string, Checkpoint>, from: map<string, Checkpoint>, keys: seq<string>): map<string, Checkpoint>
    requires forall key :: key in keys ==> key in from
    decreases |keys|
  {
    if keys == [] then m else Overwrite(m[keys[0] := from[keys[0]]], from, keys[1..])
  }

  lemma {:induction false} OverwriteReads(m: map<string, Checkpoint>, from: map<string, Checkpoint>, keys: seq<string>)
    requires forall key :: key in keys ==> key in from
    ensures var o := Overwrite(m, from, keys);
            && o.Keys == m.Keys + Members(keys)
            && (forall key :: key in keys ==> o[key] == from[key])
            && (forall key :: key in m && key !in keys ==> o[key] == m[key])
    decreases |keys|
  {
    if keys != [] { OverwriteReads(m[keys[0] := from[keys[0]]], from, keys[1..]); }
  }

  lemma {:induction false} ReplayCheckpointFrames(k: Codec, ix: Index, r: Index, keys: seq<string>)
    requires Faithful(k) && Stored(k, ix) && Writable(k, ix) && WellFormed(k, r)
    requires forall key :: key in keys ==> key in ix.checkpoints
    ensures var out := r.(checkpoints := Overwrite(r.checkpoints, ix.checkpoints, keys));
            ReplayFrom(k, r, CheckpointFrames(k, ix, keys)) == Some(out) && WellFormed(k, out)
    decreases |keys|
  {
    if keys != [] {
      var cp := ix.checkpoints[keys[0]];
      assert StoredCheckpoint(k, cp, keys[0]);
      RecoveredCheckpoint(k, r, cp);
      CheckpointWellFormed(k, r, cp);
      ReplayCheckpointFrames(k, ix, ApplyCheckpoint(r, cp), keys[1..]);
    }
  }

  lemma StoredIsWritable(k: Codec, ix: Index)
    requires Stored(k, ix)
    ensures Writable(k, ix)
  {
    forall id | id in ix.pending ensures EncodeCommit(k, ix.pending[id]).Some? {
      assert StoredIn(k, ix, ix.pending[id], id);
    }
    forall id | id in ix.quarantined ensures EncodeCommit(k, ix.quarantined[id].commit).Some? {
      assert StoredIn(k, ix, ix.quarantined[id].commit, id);
    }
  }

  lemma ActiveIds(ix: Index)
    requires Sized(ix) && Ordered(ix)
    ensures forall id :: id in PendingIds(ix) <==> id in ix.pending
    ensures forall id :: id in QuarantinedIds(ix) <==> id in ix.quarantined
    ensures NoDuplicates(PendingIds(ix)) && NoDuplicates(QuarantinedIds(ix))
  {
    FilterMembers(ix.order, ix.pending.Keys);
    FilterMembers(ix.quarantineOrder, ix.quarantined.Keys);
  }

  /** The batches of the new log, before its checkpoints. */
  lemma ReplayBatches(k: Codec, ix: Index) returns (r: Index)
    requires Faithful(k) && WellFormed(k, ix) && Writable(k, ix)
    requires forall id :: id in PendingIds(ix) ==> id in ix.pending
    requires forall id :: id in QuarantinedIds(ix) ==> id in ix.quarantined
    ensures Replay(k, PendingFrames(k, ix, PendingIds(ix)) + QuarantineFrames(k, ix, QuarantinedIds(ix))) == Some(r)
    ensures WellFormed(k, r) && Stage(k, ix, r, PendingIds(ix), QuarantinedIds(ix))
  {
    hide Faithful, Writable, StoredCommits, Ordered, PendingIds, QuarantinedIds, NoDuplicates, Recovered, EncodeCommit;
    ActiveIds(ix);
    EmptyWellFormed(k);
    var ps, qs := PendingIds(ix), QuarantinedIds(ix);
    var mid := ReplayPendingFrames(k, ix, EMPTY, [], ps);
    hide WellFormed;
    assert [] + ps == ps && [] + qs == qs;
    r := ReplayQuarantineFrames(k, ix, mid, ps, [], qs);
    ReplayConcat(k, EMPTY, PendingFrames(k, ix, ps), QuarantineFrames(k, ix, qs));
  }

  lemma CheckpointsRestored(k: Codec, ix: Index, r: Index)
    requires Faithful(k) && Stored(k, ix) && Writable(k, ix) && WellFormed(k, r)
    requires r.checkpoints.Keys <= ix.checkpoints.Keys
    ensures var out := r.(checkpoints := ix.checkpoints);
            && ReplayFrom(k, r, CheckpointFrames(k, ix, SortedKeys(ix.checkpoints.Keys))) == Some(out)
            && WellFormed(k, out)
  {
    hide WellFormed, Writable, Faithful, Stored, Recovered;
    var keys := SortedKeys(ix.checkpoints.Keys);
    ReplayCheckpointFrames(k, ix, r, keys);
    OverwriteReads(r.checkpoints, ix.checkpoints, keys);
    assert Overwrite(r.checkpoints, ix.checkpoints, keys) == ix.checkpoints;
  }

  /** Compaction preserves meaning: the new log replays to an index that agrees with the old one. */
  lemma CompactReplays(k: Codec, ix: Index) returns (out: Index)
    requires Faithful(k) && WellFormed(k, ix)
    ensures Writable(k, ix)
    ensures Replay(k, CompactFrames(k, ix)) == Some(out) && WellFormed(k, out) && Agree(k, out, ix)
  {
    StoredIsWritable(k, ix);
    ActiveIds(ix);
    var r := ReplayBatches(k, ix);
    CheckpointsRestored(k, ix, r);
    CompactAgrees(k, ix, r);
    out := r.(checkpoints := ix.checkpoints);
    ReplayConcat(k, EMPTY, PendingFrames(k, ix, PendingIds(ix)) + QuarantineFrames(k, ix, QuarantinedIds(ix)),
                 CheckpointFrames(k, ix, SortedKeys(ix.checkpoints.Keys)));
  }

  lemma CompactAgrees(k: Codec, ix: Index, r: Index)
    requires Sized(ix) && Ordered(ix) && Sized(r) && Stage(k, ix, r, PendingIds(ix), QuarantinedIds(ix))
    ensures Agree(k, r.(checkpoints := ix.checkpoints), ix)
  {
    ActiveIds(ix);
    StageKeys(k, ix, r);
    StageIds(ix, r, PendingIds(ix), QuarantinedIds(ix));
  }

  lemma StageKeys(k: Codec, ix: Index, r: Index)
    requires Sized(ix) && Ordered(ix) && Sized(r) && Stage(k, ix, r, PendingIds(ix), QuarantinedIds(ix))
    requires forall id :: id in PendingIds(ix) <==> id in ix.pending
    requires forall id :: id in QuarantinedIds(ix) <==> id in ix.quarantined
    ensures r.pending.Keys == ix.pending.Keys && r.quarantined.Keys == ix.quarantined.Keys
    ensures r.sizes == ix.sizes && r.seen <= ix.seen
  {
    hide Filter, NoDuplicates;
    hide PendingIds, QuarantinedIds;
    assert r.pending.Keys == ix.pending.Keys;
    assert r.quarantined.Keys == ix.quarantined.Keys;
  }

  lemma StageIds(ix: Index, r: Index, ps: seq<string>, qs: seq<string>)
    requires r.order == ps + qs && r.quarantineOrder == qs
    requires forall id :: id in ps ==> id in r.pending
    requires forall id :: id in qs ==> id in r.quarantined && id !in r.pending
    ensures PendingIds(r) == ps && QuarantinedIds(r) == qs
  {
    FilterConcat(ps, qs, r.pending.Keys);
    FilterAll(ps, r.pending.Keys);
    FilterCong(qs, r.pending.Keys, {});
    FilterNone(qs);
    FilterAll(qs, r.quarantined.Keys);
  }

  lemma {:induction false} FilterNone(xs: seq<string>)
    ensures Filter(xs, {}) == []
  {
    if xs != [] { FilterNone(xs[1..]); }
  }

  /** Every record of the new log fits the reader's limit. */
  lemma CompactFits(k: Codec, ix: Index)
    requires Faithful(k) && WellFormed(k, ix)
    ensures Writable(k, ix) && Fit(CompactFrames(k, ix), k.format)
  {
    StoredIsWritable(k, ix);
    ActiveIds(ix);
    PendingFramesFit(k, ix, PendingIds(ix));
    QuarantineFramesFit(k, ix, QuarantinedIds(ix));
    CheckpointFramesFit(k, ix, SortedKeys(ix.checkpoints.Keys));
  }

  ghost predicate NoAck(fs: seq<Frame>) { forall f :: f in fs ==> f.kind != ACK }

  lemma {:induction false} PendingSize(k: Codec, ix: Index, ids: seq<string>)
    requires Writable(k, ix) && forall id :: id in ids ==> id in ix.pending
    ensures |PendingFrames(k, ix, ids)| == |ids| && NoAck(PendingFrames(k, ix, ids))
  {
    hide Writable, EncodeCommit;
    if ids != [] { PendingSize(k, ix, ids[1..]); }
  }

  lemma {:induction false} QuarantineSize(k: Codec, ix: Index, ids: seq<string>)
    requires Writable(k, ix) && forall id :: id in ids ==> id in ix.quarantined
    ensures |QuarantineFrames(k, ix, ids)| == 2 * |ids| && NoAck(QuarantineFrames(k, ix, ids))
  {
    hide Writable, EncodeCommit;
    if ids != [] { QuarantineSize(k, ix, ids[1..]); }
  }

  lemma {:induction false} CheckpointSize(k: Codec, ix: Index, keys: seq<string>)
    requires Writable(k, ix) && forall key :: key in keys ==> key in ix.checkpoints
    ensures |CheckpointFrames(k, ix, keys)| == |keys| && NoAck(CheckpointFrames(k, ix, keys))
  {
    hide Writable;
    if keys != [] { CheckpointSize(k, ix, keys[1..]); }
  }

  /** How many records a compacted log has, and that none is an acknowledgement. */
  lemma CompactSize(k: Codec, ix: Index)
    requires Writable(k, ix)
    ensures |CompactFrames(k, ix)| == |PendingIds(ix)| + 2 * |QuarantinedIds(ix)| + |ix.checkpoints|
    ensures NoAck(CompactFrames(k, ix))
  {
    hide Writable, Filter;
    FilterMembers(ix.order, ix.pending.Keys);
    FilterMembers(ix.quarantineOrder, ix.quarantined.Keys);
    PendingSize(k, ix, PendingIds(ix));
    QuarantineSize(k, ix, QuarantinedIds(ix));
    CheckpointSize(k, ix, SortedKeys(ix.checkpoints.Keys));
    SortedSize(ix.checkpoints.Keys);
    assert |ix.checkpoints.Keys| == |ix.checkpoints|;
  }

  lemma {:induction false} PendingFramesFit(k: Codec, ix: Index, ids: seq<string>)
    requires Faithful(k) && Stored(k, ix) && Writable(k, ix) && forall id :: id in ids ==> id in ix.pending
    ensures Fit(PendingFrames(k, ix, ids), k.format)
  {
    hide EncodeCommit;
    if ids != [] {
      assert StoredIn(k, ix, ix.pending[ids[0]], ids[0]);
      PendingFramesFit(k, ix, ids[1..]);
    }
  }

  lemma {:induction false} QuarantineFramesFit(k: Codec, ix: Index, ids: seq<string>)
    requires Faithful(k) && Stored(k, ix) && Writable(k, ix) && forall id :: id in ids ==> id in ix.quarantined
    ensures Fit(QuarantineFrames(k, ix, ids), k.format)
  {
    hide EncodeCommit;
    if ids != [] {
      assert StoredIn(k, ix, ix.quarantined[ids[0]].commit, ids[0]);
      assert StoredMark(k, ix.quarantined[ids[0]].mark, ids[0]);
      QuarantineFramesFit(k, ix, ids[1..]);
    }
  }

  lemma {:induction false} CheckpointFramesFit(k: Codec, ix: Index, keys: seq<string>)
    requires Faithful(k) && Stored(k, ix) && Writable(k, ix) && forall key :: key in keys ==> key in ix.checkpoints
    ensures Fit(CheckpointFrames(k, ix, keys), k.format)
  {
    if keys != [] {
      assert StoredCheckpoint(k, ix.checkpoints[keys[0]], keys[0]);
      CheckpointFramesFit(k, ix, keys[1..]);
    }
  }

  // ---- one more record at the end of each part

  lemma {:induction false} PendingFramesSnoc(k: Codec, ix: Index, ids: seq<string>, id: string)
    requires Writable(k, ix) && id in ix.pending && forall x :: x in ids ==> x in ix.pending
    ensures PendingFrames(k, ix, ids + [id])
         == PendingFrames(k, ix, ids) + [Frame(COMMIT, EncodeCommit(k, ix.pending[id]).value)]
  {
    hide EncodeCommit;
    if ids == [] {
      assert [id][1..] == [];
    } else {
      assert (ids + [id])[1..] == ids[1..] + [id];
      PendingFramesSnoc(k, ix, ids[1..], id);
    }
  }

  lemma {:induction false} QuarantineFramesSnoc(k: Codec, ix: Index, ids: seq<string>, id: string)
    requires Writable(k, ix) && id in ix.quarantined && forall x :: x in ids ==> x in ix.quarantined
    ensures QuarantineFrames(k, ix, ids + [id]) == QuarantineFrames(k, ix, ids) + BatchFrames(k, ix, id)
  {
    hide EncodeCommit, BatchFrames, Writable;
    if ids != [] {
      assert (ids + [id])[1..] == ids[1..] + [id];
      QuarantineFramesSnoc(k, ix, ids[1..], id);
    } else {
      assert [id][1..] == [];
    }
  }

  lemma {:induction false} CheckpointFramesSnoc(k: Codec, ix: Index, keys: seq<string>, key: string)
    requires Writable(k, ix) && key in ix.checkpoints && forall x :: x in keys ==> x in ix.checkpoints
    ensures CheckpointFrames(k, ix, keys + [key])
         == CheckpointFrames(k, ix, keys) + [Frame(CHECKPOINT, k.putCheckpoint(ix.checkpoints[key]).value)]
  {
    if keys != [] {
      assert (keys + [key])[1..] == keys[1..] + [key];
      CheckpointFramesSnoc(k, ix, keys[1..], key);
    }
  }

  /** How a filtered order grows as a loop walks it. */
  lemma PrefixFilter(order: seq<string>, i: nat, keep: set<string>)
    requires i < |order|
    ensures Filter(order[..i + 1], keep) == Filter(order[..i], keep) + (if order[i] in keep then [order[i]] else [])
    ensures forall x :: x in Filter(order[..i + 1], keep) ==> x in keep
    ensures forall x :: x in Filter(order[..i], keep) ==> x in keep
  {
    assert order[..i + 1] == order[..i] + [order[i]];
    FilterConcat(order[..i], [order[i]], keep);
    FilterMembers(order[..i + 1], keep);
    FilterMembers(order[..i], keep);
  }
}
