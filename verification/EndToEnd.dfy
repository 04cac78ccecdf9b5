/**
  The file, the spool and the server as one system: the tailing pipeline commits through the spool
  that the dispatcher delivers from, so every committed line can be followed to where it is.
*/
module EndToEnd {
  import opened Prelude
  import opened Framing
  import opened Text
  import opened Spool
  import opened Wal
  import opened Tables
  import Ingest
  import Transport
  import T = Tailing
  import D = Delivery
  import CanonicalPayload
  import Dispatcher
  import opened WalFile

  /** `build` makes the payload of a batch from its records; `key` is the pipeline's source key. */
  datatype Setup = Setup(wire: D.Setup, key: string, build: (string, seq<T.Record>) -> Bytes)

  /** A batch as the pipeline made it. */
  datatype Flushed = Flushed(id: string, records: seq<T.Record>)

  datatype World = World(tail: T.World, wire: D.World, batches: seq<Flushed>)

  ghost function Start(path: string, maxBytes: nat): World { World(T.Start(path), D.Start(maxBytes), []) }

  datatype Step =
    | Tails(tail: T.Step)
    | Flushes(id: string, at: int, io: bool)
    | Opens(at: int, io: bool)
    | Rotates(at: int, io: bool)
    | Ends(event: Event)
    | Delivers(wire: D.Step)

  function Flatten(bs: seq<Flushed>): seq<T.Record> {
    if bs == [] then [] else Flatten(bs[..|bs| - 1]) + bs[|bs| - 1].records
  }

  /** The durable checkpoint of the source, as the pipeline sees it. */
  function Anchor(s: Setup, ix: Index): Option<T.Position> {
    if s.key in ix.checkpoints && ix.checkpoints[s.key].offsetBytes >= 0 then
      Some(T.Position(ix.checkpoints[s.key].fileIdentity, ix.checkpoints[s.key].offsetBytes))
    else None
  }

  function CheckpointAt(s: Setup, p: T.Position, at: int): Checkpoint { Checkpoint(s.key, p.identity, p.offset, at) }

  /** What flush hands to the spool. */
  function BatchCommit(s: Setup, id: string, entries: seq<T.Record>, at: int): Commit
    requires entries != []
  {
    var last := entries[|entries| - 1];
    Commit(id, s.build(id, entries), CheckpointAt(s, T.Position(last.identity, last.end), at))
  }

  /** The transition that anchors a new epoch of the path. */
  function NewEpoch(s: Setup, expected: Option<T.Position>, path: string, at: int, io: bool): Event {
    Transitions(match expected case None => None case Some(p) => Some(CheckpointAt(s, p, at)),
                CheckpointAt(s, T.Position(path, 0), at), io)
  }

  /** Opening finds the checkpoint where the file stands, so no transition is needed. */
  predicate Resumes(t: T.World) {
    t.checkpoint.Some? && t.checkpoint.value.identity == t.path && t.path in t.files
    && t.checkpoint.value.offset <= |t.files[t.path]|
  }

  /** Steps of the pipeline that touch nothing durable. */
  ghost predicate Volatile(t: T.World, step: T.Step) {
    match step
    case Starts => false
    case Flushes(_) => false
    case Rotates(_) => false
    // before the error of an unterminated record the pipeline flushes, which is a commit of its own
    case Detects(_) => t.agent.Running? && (t.agent.entries == [] || T.DetectRotation(t.agent.source, t.path).Some?)
    case _ => true
  }

  /** Steps of the dispatcher, the server and other pipelines, which have other source keys. */
  predicate Elsewhere(s: Setup, step: D.Step) {
    match step
    case Spools(c, _) => c.checkpoint.sourceKey != s.key
    case Moves(e) => e.Transitions? && e.next.sourceKey != s.key
    case _ => true
  }

  ghost predicate Enabled(s: Setup, w: World, step: Step) {
    match step
    case Tails(t) => T.Enabled(w.tail, t) && Volatile(w.tail, t)
    case Flushes(id, at, io) =>
      w.tail.agent.Running? && w.tail.agent.entries != []
      && D.Enabled(s.wire, w.wire, D.Spools(BatchCommit(s, id, w.tail.agent.entries, at), io))
    case Opens(at, io) =>
      w.tail.agent.Stopped?
      && (Resumes(w.tail) || D.Enabled(s.wire, w.wire, D.Moves(NewEpoch(s, w.tail.checkpoint, w.tail.path, at, io))))
    case Rotates(at, io) =>
      T.Enabled(w.tail, T.Rotates(io))
      && (w.tail.path == w.tail.agent.source.identity
          || D.Enabled(s.wire, w.wire, D.Moves(RotationEvent(s, w, at, io))))
    case Ends(e) => (e.Reopens? || e.Closes?) && D.Enabled(s.wire, w.wire, D.Moves(e))
    case Delivers(d) => Elsewhere(s, d) && D.Enabled(s.wire, w.wire, d)
  }

  function RotationEvent(s: Setup, w: World, at: int, io: bool): Event
    requires w.tail.agent.Running?
  {
    var src := w.tail.agent.source;
    NewEpoch(s, Some(T.Position(src.identity, src.readOffset)), w.tail.path, at, io)
  }

  function TransitionOutcome(k: Codec, st: State, e: Event): Outcome
    requires e.Transitions?
  {
    TransitionOp(k, st, e.expected, e.next, e.io).1
  }

  ghost function Next(s: Setup, w: World, step: Step): World
    requires Enabled(s, w, step)
  {
    match step
    case Tails(t) => w.(tail := T.Next(w.tail, t))
    case Flushes(id, at, io) =>
      var entries := w.tail.agent.entries;
      var c := BatchCommit(s, id, entries, at);
      var out := CommitOp(s.wire.k, w.wire.spool, c, io).1;
      // a full spool is waited for; any other refusal ends the pipeline
      if out == Full then w
      else if out == Done then
        World(T.Flush(w.tail, true), D.Next(s.wire, w.wire, D.Spools(c, io)), w.batches + [Flushed(id, entries)])
      else w.(tail := T.Flush(w.tail, false))
    case Opens(at, io) =>
      var e := NewEpoch(s, w.tail.checkpoint, w.tail.path, at, io);
      if Resumes(w.tail) then w.(tail := T.StartAgent(w.tail))
      else if TransitionOutcome(s.wire.k, w.wire.spool, e) == Done then
        w.(tail := T.StartAgent(w.tail), wire := D.Next(s.wire, w.wire, D.Moves(e)))
      else w
    case Rotates(at, io) =>
      var e := RotationEvent(s, w, at, io);
      if w.tail.path != w.tail.agent.source.identity && TransitionOutcome(s.wire.k, w.wire.spool, e) == Done then
        w.(tail := T.Rotate(w.tail, true), wire := D.Next(s.wire, w.wire, D.Moves(e)))
      else w.(tail := T.Rotate(w.tail, false))
    case Ends(e) => w.(tail := w.tail.(agent := T.Stopped), wire := D.Next(s.wire, w.wire, D.Moves(e)))
    case Delivers(d) => w.(wire := D.Next(s.wire, w.wire, d))
  }

  // ---- the invariant

  ghost predicate BatchKnown(s: Setup, d: D.World, b: Flushed) {
    b.id in d.spooled && d.spooled[b.id] == D.Digest(s.wire, s.build(b.id, b.records))
  }

  /** The pipeline's checkpoint is the spool's, and its committed records are those of its batches. */
  ghost predicate Linked(s: Setup, w: World) {
    && w.tail.checkpoint == Anchor(s, w.wire.spool.live)
    && w.tail.committed == Flatten(w.batches)
    && (forall i :: 0 <= i < |w.batches| ==> BatchKnown(s, w.wire, w.batches[i]))
    && (forall i, j :: 0 <= i < j < |w.batches| ==> w.batches[i].id != w.batches[j].id)
  }

  ghost predicate Inv(s: Setup, w: World) { T.Inv(w.tail) && D.Inv(s.wire, w.wire) && Linked(s, w) }

  lemma StartInv(s: Setup, path: string, maxBytes: nat)
    requires Faithful(s.wire.k)
    ensures Inv(s, Start(path, maxBytes))
  {
    hide T.Inv, D.Inv, Faithful;
    T.StartInv(path);
    D.StartInv(s.wire, maxBytes);
  }

  // ---- the checkpoint of the source, step by step

  lemma FlattenSnoc(bs: seq<Flushed>, b: Flushed)
    ensures Flatten(bs + [b]) == Flatten(bs) + b.records
  {
    assert (bs + [b])[..|bs|] == bs;
  }

  /** What a commit through the spool leaves behind. */
  lemma CommittedAnchor(s: Setup, st: State, c: Commit, io: bool)
    requires c.checkpoint.sourceKey == s.key && CommitOp(s.wire.k, st, c, io).1 == Done
    ensures var st' := CommitOp(s.wire.k, st, c, io).0;
            Anchor(s, st'.live) == Some(T.Position(c.checkpoint.fileIdentity, c.checkpoint.offsetBytes))
    ensures c.checkpoint.offsetBytes >= 0
  {
    hide Blank;
  }

  /** What a transition of this source leaves behind. */
  lemma TransitionAnchor(s: Setup, st: State, e: Event)
    requires e.Transitions? && e.next.sourceKey == s.key && TransitionOutcome(s.wire.k, st, e) == Done
    ensures var st' := Wal.Step(s.wire.k, st, e);
            Anchor(s, st'.live) == Some(T.Position(e.next.fileIdentity, e.next.offsetBytes))
    ensures e.next.offsetBytes >= 0
  {
    hide Blank;
  }

  /** Acknowledging, quarantining and reopening leave every checkpoint alone. */
  lemma AckAnchor(s: Setup, st: State, id: string, io: bool, swap: Swap)
    ensures Anchor(s, AckOp(s.wire.k, st, id, io, swap).0.live) == Anchor(s, st.live)
  {
    hide FileBytes, CompactOp;
    CompactLive(s.wire.k, Append(st, Frame(ACK, s.wire.k.putAck(id)), RemoveActive(st.live, id), io).0, swap);
  }

  lemma QuarantineAnchor(s: Setup, st: State, id: string, httpCode: int, code: string, at: int, io: bool)
    ensures Anchor(s, QuarantineOp(s.wire.k, st, id, httpCode, code, at, io).0.live) == Anchor(s, st.live)
  {
    hide TrimSpace, Blank;
  }

  lemma EndAnchor(s: Setup, st: State, e: Event)
    requires Faithful(s.wire.k) && SpoolOk(s.wire.k, st) && EventFits(s.wire.k, e) && (e.Reopens? || e.Closes?)
    ensures Anchor(s, Wal.Step(s.wire.k, st, e).live) == Anchor(s, st.live)
  {
    hide Faithful, SpoolOk;
    if e.Reopens? { D.ReopenAgrees(s.wire.k, st, e.torn, e.written); }
  }

  lemma OtherCommitAnchor(s: Setup, st: State, c: Commit, io: bool)
    requires c.checkpoint.sourceKey != s.key
    ensures Anchor(s, CommitOp(s.wire.k, st, c, io).0.live) == Anchor(s, st.live)
  {
    hide EncodeCommit;
  }

  lemma OtherTransitionAnchor(s: Setup, st: State, e: Event)
    requires e.Transitions? && e.next.sourceKey != s.key
    ensures Anchor(s, Wal.Step(s.wire.k, st, e).live) == Anchor(s, st.live)
  {
    hide ValidCheckpoint;
  }

  /** Whatever happens elsewhere, the source's checkpoint stays and no spooled batch is forgotten. */
  lemma ElsewhereKeeps(s: Setup, d: D.World, step: D.Step)
    requires Faithful(s.wire.k) && D.Inv(s.wire, d) && D.Enabled(s.wire, d, step) && Elsewhere(s, step)
    ensures var d' := D.Next(s.wire, d, step);
            && Anchor(s, d'.spool.live) == Anchor(s, d.spool.live)
            && (forall id :: id in d.spooled ==> id in d'.spooled && d'.spooled[id] == d.spooled[id])
  {
    hide Faithful, D.Inv, Anchor, CommitOp, AckOp, QuarantineOp, Wal.Step, D.Answer, Ingest.AcceptOp, EventFits, D.Digest, D.ClassOf;
    match step
    case Spools(c, io) => OtherCommitAnchor(s, d.spool, c, io);
    case Moves(e) => OtherTransitionAnchor(s, d.spool, e);
    case Receives(reply, now, date, io, swap) =>
      var (id, result) := (d.inflight.value.0, Transport.Classify(d.inflight.value.0, reply, now, date));
      AckAnchor(s, d.spool, id, io, swap);
      QuarantineAnchor(s, d.spool, id, result.status, result.code, now, io);
    case Discards(id, io, swap) => AckAnchor(s, d.spool, id, io, swap);
    case _ =>
  }

  lemma KnownLater(s: Setup, d: D.World, d': D.World, b: Flushed)
    requires BatchKnown(s, d, b) && forall id :: id in d.spooled ==> id in d'.spooled && d'.spooled[id] == d.spooled[id]
    ensures BatchKnown(s, d', b)
  {}

  /** A change of the tail alone, or of the wire alone, keeps the link if the shared facts stay. */
  lemma LinkedKept(s: Setup, w: World, w': World)
    requires Linked(s, w) && w'.batches == w.batches
    requires w'.tail.committed == w.tail.committed && w'.tail.checkpoint == w.tail.checkpoint
    requires Anchor(s, w'.wire.spool.live) == Anchor(s, w.wire.spool.live)
    requires forall id :: id in w.wire.spooled ==> id in w'.wire.spooled && w'.wire.spooled[id] == w.wire.spooled[id]
    ensures Linked(s, w')
  {
    hide Anchor, Flatten, BatchKnown;
    forall i | 0 <= i < |w'.batches| ensures BatchKnown(s, w'.wire, w'.batches[i]) {
      KnownLater(s, w.wire, w'.wire, w.batches[i]);
    }
  }

  lemma VolatileKeepsDurable(t: T.World, step: T.Step)
    requires T.Enabled(t, step) && Volatile(t, step)
    ensures T.Next(t, step).committed == t.committed && T.Next(t, step).checkpoint == t.checkpoint
  {}

  lemma TailsKeeps(s: Setup, w: World, step: T.Step)
    requires Faithful(s.wire.k) && Inv(s, w) && Enabled(s, w, Tails(step))
    ensures Inv(s, Next(s, w, Tails(step)))
  {
    hide T.Inv, D.Inv, Faithful, Linked, T.Next, T.Enabled, Volatile;
    T.StepKeeps(w.tail, step);
    VolatileKeepsDurable(w.tail, step);
    LinkedKept(s, w, Next(s, w, Tails(step)));
  }

  lemma DeliversKeeps(s: Setup, w: World, step: D.Step)
    requires Faithful(s.wire.k) && Inv(s, w) && Enabled(s, w, Delivers(step))
    ensures Inv(s, Next(s, w, Delivers(step)))
  {
    hide T.Inv, D.Inv, Faithful, Linked, D.Next, D.Enabled, Elsewhere, Anchor;
    D.StepKeepsInv(s.wire, w.wire, step);
    ElsewhereKeeps(s, w.wire, step);
    LinkedKept(s, w, Next(s, w, Delivers(step)));
  }

  /** A committed batch: the spool has it, the tail's mark moved, and the link extends by it. */
  lemma FlushesLinked(s: Setup, w: World, id: string, at: int, io: bool)
    requires Faithful(s.wire.k) && Inv(s, w) && Enabled(s, w, Flushes(id, at, io))
    requires CommitOp(s.wire.k, w.wire.spool, BatchCommit(s, id, w.tail.agent.entries, at), io).1 == Done
    ensures Linked(s, Next(s, w, Flushes(id, at, io)))
  {
    hide T.Inv, D.Inv, Faithful, CommitOp, Anchor, D.Digest, Flatten;
    var c := BatchCommit(s, id, w.tail.agent.entries, at);
    CommittedAnchor(s, w.wire.spool, c, io);
    FlattenSnoc(w.batches, Flushed(id, w.tail.agent.entries));
    var w' := Next(s, w, Flushes(id, at, io));
    assert id !in w.wire.spooled;
    assert w'.wire.spooled == w.wire.spooled[id := D.Digest(s.wire, c.payload)];
  }

  lemma FlushesKeeps(s: Setup, w: World, id: string, at: int, io: bool)
    requires Faithful(s.wire.k) && Inv(s, w) && Enabled(s, w, Flushes(id, at, io))
    ensures Inv(s, Next(s, w, Flushes(id, at, io)))
  {
    hide T.Inv, D.Inv, Faithful, CommitOp, Linked, D.Next, T.Flush;
    var c := BatchCommit(s, id, w.tail.agent.entries, at);
    var out := CommitOp(s.wire.k, w.wire.spool, c, io).1;
    T.FlushesKeeps(w.tail, out == Done);
    if out == Done {
      D.StepKeepsInv(s.wire, w.wire, D.Spools(c, io));
      FlushesLinked(s, w, id, at, io);
    } else if out != Full {
      FailedFlush(w.tail);
      LinkedKept(s, w, Next(s, w, Flushes(id, at, io)));
    }
  }

  lemma FailedFlush(t: T.World)
    requires t.agent.Running? && t.agent.entries != []
    ensures T.Flush(t, false).committed == t.committed && T.Flush(t, false).checkpoint == t.checkpoint
  {}

  /** A new epoch is durable in the spool and in the tail alike. */
  lemma EpochLinked(s: Setup, w: World, w': World, e: Event)
    requires Linked(s, w) && w'.batches == w.batches && w'.tail.committed == w.tail.committed
    requires e.Transitions? && e.next.sourceKey == s.key && TransitionOutcome(s.wire.k, w.wire.spool, e) == Done
    requires e.next.offsetBytes >= 0
    requires w'.tail.checkpoint == Some(T.Position(e.next.fileIdentity, e.next.offsetBytes))
    requires w'.wire.spool == Wal.Step(s.wire.k, w.wire.spool, e) && w'.wire.spooled == w.wire.spooled
    ensures Linked(s, w')
  {
    hide Wal.Step, Anchor, Flatten, D.Digest, TransitionOutcome;
    TransitionAnchor(s, w.wire.spool, e);
  }

  lemma OpensKeeps(s: Setup, w: World, at: int, io: bool)
    requires Faithful(s.wire.k) && Inv(s, w) && Enabled(s, w, Opens(at, io))
    ensures Inv(s, Next(s, w, Opens(at, io)))
  {
    hide T.Inv, D.Inv, Faithful, Linked, TransitionOutcome, Wal.Step, EventFits, Anchor;
    var e := NewEpoch(s, w.tail.checkpoint, w.tail.path, at, io);
    T.StartsKeeps(w.tail);
    var w' := Next(s, w, Opens(at, io));
    if Resumes(w.tail) {
      LinkedKept(s, w, w');
    } else if TransitionOutcome(s.wire.k, w.wire.spool, e) == Done {
      D.StepKeepsInv(s.wire, w.wire, D.Moves(e));
      EpochLinked(s, w, w', e);
    }
  }

  lemma RotatesKeeps(s: Setup, w: World, at: int, io: bool)
    requires Faithful(s.wire.k) && Inv(s, w) && Enabled(s, w, Rotates(at, io))
    ensures Inv(s, Next(s, w, Rotates(at, io)))
  {
    hide T.Inv, D.Inv, Faithful, Linked, TransitionOutcome, Wal.Step, EventFits, Anchor;
    var e := RotationEvent(s, w, at, io);
    var w' := Next(s, w, Rotates(at, io));
    if w.tail.path != w.tail.agent.source.identity && TransitionOutcome(s.wire.k, w.wire.spool, e) == Done {
      D.StepKeepsInv(s.wire, w.wire, D.Moves(e));
      T.RotatesKeeps(w.tail, true);
      RotationGoesThrough(w.tail);
      EpochLinked(s, w, w', e);
    } else {
      T.RotatesKeeps(w.tail, false);
      LinkedKept(s, w, w');
    }
  }

  lemma RotationGoesThrough(t: T.World)
    requires T.Inv(t) && T.Enabled(t, T.Rotates(true)) && t.path != t.agent.source.identity
    ensures var t' := T.Rotate(t, true);
            t'.committed == t.committed && t'.checkpoint == Some(T.Position(t.path, 0))
  {
    T.CaughtUp(t);
    hide T.DurableOk, T.BufferOk;
  }

  lemma EndsKeeps(s: Setup, w: World, e: Event)
    requires Faithful(s.wire.k) && Inv(s, w) && Enabled(s, w, Ends(e))
    ensures Inv(s, Next(s, w, Ends(e)))
  {
    hide T.Inv, D.Inv, Linked, Wal.Step, EventFits, Anchor, Faithful, D.BodyFaithful;
    T.StopsKeeps(w.tail);
    D.StepKeepsInv(s.wire, w.wire, D.Moves(e));
    SpoolOfInv(s, w.wire);
    EndAnchor(s, w.wire.spool, e);
    LinkedKept(s, w, Next(s, w, Ends(e)));
  }

  lemma SpoolOfInv(s: Setup, d: D.World)
    requires D.Inv(s.wire, d)
    ensures SpoolOk(s.wire.k, d.spool)
  {
    hide SpoolOk;
  }

  lemma StepKeeps(s: Setup, w: World, step: Step)
    requires Faithful(s.wire.k) && Inv(s, w) && Enabled(s, w, step)
    ensures Inv(s, Next(s, w, step))
  {
    hide Inv, Faithful, Next, Enabled;
    match step
    case Tails(t) => TailsKeeps(s, w, t);
    case Flushes(id, at, io) => FlushesKeeps(s, w, id, at, io);
    case Opens(at, io) => OpensKeeps(s, w, at, io);
    case Rotates(at, io) => RotatesKeeps(s, w, at, io);
    case Ends(e) => EndsKeeps(s, w, e);
    case Delivers(d) => DeliversKeeps(s, w, d);
  }

  // ---- every reachable state

  /** Steps that cannot happen are skipped. */
  ghost function Run(s: Setup, path: string, maxBytes: nat, steps: seq<Step>): World
    decreases |steps|
  {
    if steps == [] then Start(path, maxBytes)
    else
      var w := Run(s, path, maxBytes, steps[..|steps| - 1]);
      var step := steps[|steps| - 1];
      if Enabled(s, w, step) then Next(s, w, step) else w
  }

  ghost predicate Reachable(s: Setup, path: string, maxBytes: nat, w: World) {
    exists steps :: Run(s, path, maxBytes, steps) == w
  }

  lemma {:induction false} RunInv(s: Setup, path: string, maxBytes: nat, steps: seq<Step>)
    requires Faithful(s.wire.k)
    ensures Inv(s, Run(s, path, maxBytes, steps))
    decreases |steps|
  {
    hide Inv, Faithful, Next, Enabled, Start;
    if steps == [] {
      StartInv(s, path, maxBytes);
    } else {
      RunInv(s, path, maxBytes, steps[..|steps| - 1]);
      var w, step := Run(s, path, maxBytes, steps[..|steps| - 1]), steps[|steps| - 1];
      if Enabled(s, w, step) { StepKeeps(s, w, step); }
    }
  }

  /** The batch is on the Agent's disk, was discarded by the operator, or is committed on the server as it was made. */
  ghost predicate Settled(s: Setup, d: D.World, b: Flushed) {
    || Active(d.spool.live, b.id)
    || b.id in d.discarded
    || (D.OwnKey(s.wire, b.id) in d.db.batches
        && Some(d.db.batches[D.OwnKey(s.wire, b.id)].hash) == D.Digest(s.wire, s.build(b.id, b.records)))
  }

  /**
    From the file to the server. In every reachable state the lines of a file up to its checkpoint
    are, in order and each once, the records of batches with different ids, and every one of those
    batches is on the Agent's disk, was discarded, or is committed on the server, at most once, with
    the content that was made from those lines.
  */
  lemma EveryLineAccountedFor(s: Setup, path: string, maxBytes: nat, w: World, f: string)
    requires Faithful(s.wire.k) && Reachable(s, path, maxBytes, w)
    ensures f in w.tail.files ==>
              T.Mark(w.tail, f) <= |w.tail.files[f]|
              && T.RecordsOf(Flatten(w.batches), f) == T.Lines(w.tail.files[f][..T.Mark(w.tail, f)])
              && T.Spells(T.RecordsOf(Flatten(w.batches), f), w.tail.files[f][..T.Mark(w.tail, f)])
    ensures forall i, j :: 0 <= i < j < |w.batches| ==> w.batches[i].id != w.batches[j].id
    ensures forall i :: 0 <= i < |w.batches| ==> Settled(s, w.wire, w.batches[i])
    ensures NoDuplicates(w.wire.inserts) && forall k :: k in w.wire.inserts <==> k in w.wire.db.batches
  {
    hide Faithful, Run, Anchor, Flatten, T.Lines, T.RecordsOf, T.Spells, Settled;
    var steps :| Run(s, path, maxBytes, steps) == w;
    RunInv(s, path, maxBytes, steps);
    TailOfInv(w.tail, f);
    InsertsOfInv(s, w.wire);
    forall i | 0 <= i < |w.batches| ensures Settled(s, w.wire, w.batches[i]) { SettledOfInv(s, w, i); }
  }

  lemma TailOfInv(t: T.World, f: string)
    requires T.Inv(t)
    ensures f in t.files ==>
              && T.Mark(t, f) <= |t.files[f]|
              && T.RecordsOf(t.committed, f) == T.Lines(t.files[f][..T.Mark(t, f)])
              && T.Spells(T.RecordsOf(t.committed, f), t.files[f][..T.Mark(t, f)])
  {
    hide T.Lines, T.RecordsOf, T.Complete, T.SourceOk, T.BufferOk, T.Spells;
    assert T.FileExact(t, f);
    if f in t.files { T.LinesSpell(t.files[f][..T.Mark(t, f)]); }
  }

  lemma InsertsOfInv(s: Setup, d: D.World)
    requires D.Inv(s.wire, d)
    ensures NoDuplicates(d.inserts) && forall k :: k in d.inserts <==> k in d.db.batches
  {
    hide D.AgentSide, SpoolOk, D.StoredKnown, D.AnswersTrue, D.DeliveredStored, DbOk, NoDuplicates;
  }

  lemma SettledOfInv(s: Setup, w: World, i: nat)
    requires Inv(s, w) && i < |w.batches|
    ensures Settled(s, w.wire, w.batches[i])
  {
    hide T.Inv, SpoolOk, D.Digest, D.OwnKey, D.SentKnown, D.AnswersTrue, D.InsertsMatch, DbOk, D.Held;
    var b := w.batches[i];
    assert BatchKnown(s, w.wire, b);
    D.HeldIsActive(s.wire, w.wire.spool.live, b.id);
  }

  // ---- flush over the WAL object

  /** One attempt to commit, and the acknowledgements that free space before the next. */
  datatype Attempt = Attempt(io: bool, releases: seq<Release>)

  datatype Release = Release(id: string, io: bool, swap: Swap)

  /** The spool after the dispatcher has acknowledged in turn. */
  function Released(k: Codec, st: State, releases: seq<Release>): State {
    if releases == [] then st
    else
      var last := releases[|releases| - 1];
      AckOp(k, Released(k, st, releases[..|releases| - 1]), last.id, last.io, last.swap).0
  }

  /** flush on values: the first attempt that is not met by a full spool decides. */
  function Flushing(k: Codec, st: State, c: Commit, attempts: seq<Attempt>): (State, Outcome)
    decreases |attempts|
  {
    if attempts == [] then (st, Full)
    else
      var (st', out) := CommitOp(k, st, c, attempts[0].io);
      if out != Full then (st', out) else Flushing(k, Released(k, st', attempts[0].releases), c, attempts[1..])
  }

  /** A flush gives up only if every attempt met a full spool, each after the acknowledgements before it. */
  lemma {:induction false} FlushGivesUp(k: Codec, st: State, c: Commit, attempts: seq<Attempt>)
    ensures Flushing(k, st, c, attempts).1 == Full
       ==> Flushing(k, st, c, attempts).0 == ReleasedAll(k, st, attempts)
           && forall i :: 0 <= i < |attempts| ==> CommitOp(k, ReleasedAll(k, st, attempts[..i]), c, attempts[i].io).1 == Full
    ensures (exists i :: 0 <= i < |attempts| && CommitOp(k, ReleasedAll(k, st, attempts[..i]), c, attempts[i].io).1 != Full)
       ==> Flushing(k, st, c, attempts).1 != Full
    decreases |attempts|
  {
    hide AckOp, CommitOp, Released;
    if attempts != [] {
      var first, rest := attempts[0], attempts[1..];
      FullUnchanged(k, st, c, first.io);
      var next := Released(k, st, first.releases);
      FlushGivesUp(k, next, c, rest);
      forall i | 0 < i <= |attempts| ensures ReleasedAll(k, st, attempts[..i]) == ReleasedAll(k, next, rest[..i - 1]) {
        assert attempts[..i][1..] == rest[..i - 1];
      }
      assert attempts[..|attempts|] == attempts && rest[..|rest|] == rest;
      forall i | 0 < i < |attempts|
        ensures CommitOp(k, ReleasedAll(k, st, attempts[..i]), c, attempts[i].io)
             == CommitOp(k, ReleasedAll(k, next, rest[..i - 1]), c, rest[i - 1].io)
      {}
      if Flushing(k, st, c, attempts).1 == Full {
        forall i | 0 <= i < |attempts| ensures CommitOp(k, ReleasedAll(k, st, attempts[..i]), c, attempts[i].io).1 == Full {
          if i > 0 { assert CommitOp(k, ReleasedAll(k, next, rest[..i - 1]), c, rest[i - 1].io).1 == Full; }
        }
      }
    }
  }

  /** The acknowledgements of several attempts, one after the other. */
  function ReleasedAll(k: Codec, st: State, attempts: seq<Attempt>): State
    decreases |attempts|
  {
    if attempts == [] then st else ReleasedAll(k, Released(k, st, attempts[0].releases), attempts[1..])
  }

  lemma FullUnchanged(k: Codec, st: State, c: Commit, io: bool)
    ensures CommitOp(k, st, c, io).1 == Full ==> CommitOp(k, st, c, io).0 == st
  {
    hide EncodeCommit;
  }

  /** Every batch that is still pending was pending before, unchanged. */
  ghost predicate OnlyReleased(before: Index, after: Index) {
    forall b :: b in after.pending ==> b in before.pending && after.pending[b] == before.pending[b]
  }

  lemma AckReleases(s: Setup, st: State, id: string, io: bool, swap: Swap)
    ensures OnlyReleased(st.live, AckOp(s.wire.k, st, id, io, swap).0.live)
  {
    hide FileBytes, CompactOp;
    CompactLive(s.wire.k, Append(st, Frame(ACK, s.wire.k.putAck(id)), RemoveActive(st.live, id), io).0, swap);
  }

  /** The dispatcher acknowledges while a flush waits for space. */
  method ReleaseAll(s: Setup, wal: WAL, releases: seq<Release>)
    requires wal.Valid() && wal.k == s.wire.k
    modifies wal
    ensures wal.Valid() && Anchor(s, wal.Live()) == old(Anchor(s, wal.Live()))
    ensures OnlyReleased(old(wal.Live()), wal.Live())
    ensures wal.Value() == Released(wal.k, old(wal.Value()), releases)
  {
    hide WAL.Valid, AckOp, Anchor;
    assert releases[..|releases|] == releases;
    for i := 0 to |releases|
      invariant wal.Value() == Released(wal.k, old(wal.Value()), releases[..i])
      invariant wal.Valid() && Anchor(s, wal.Live()) == old(Anchor(s, wal.Live()))
      invariant OnlyReleased(old(wal.Live()), wal.Live())
    {
      var r := releases[i];
      AckAnchor(s, wal.Value(), r.id, r.io, r.swap);
      AckReleases(s, wal.Value(), r.id, r.io, r.swap);
      assert releases[..i + 1][..i] == releases[..i];
      var _ := wal.Ack(r.id, r.io, r.swap);
    }
  }

  lemma CommitOutcome(s: Setup, st: State, c: Commit, io: bool)
    requires c.checkpoint.sourceKey == s.key
    ensures var (st', out) := CommitOp(s.wire.k, st, c, io);
            && (out != Done ==> st'.live == st.live)
            && (out == Done ==>
                  && st'.live.pending == st.live.pending[c.batchId := c]
                  && Anchor(s, st'.live) == Some(T.Position(c.checkpoint.fileIdentity, c.checkpoint.offsetBytes)))
  {
    hide EncodeCommit;
    if CommitOp(s.wire.k, st, c, io).1 == Done { CommittedAnchor(s, st, c, io); }
  }

  /**
    flush: one batch with all buffered records and the checkpoint of the last one. While the spool is
    full it waits for the dispatcher and tries again; Full at the end is a wait that was given up.
    Either the batch is pending with its checkpoint, or neither is there.
  */
  method FlushEntries(s: Setup, wal: WAL, id: string, entries: seq<T.Record>, at: int, attempts: seq<Attempt>)
    returns (out: Outcome)
    requires wal.Valid() && wal.k == s.wire.k && entries != []
    modifies wal
    ensures wal.Valid()
    ensures var last := entries[|entries| - 1];
            out == Done ==>
              && id in wal.pending && wal.pending[id] == BatchCommit(s, id, entries, at)
              && Anchor(s, wal.Live()) == Some(T.Position(last.identity, last.end))
              && OnlyReleased(old(wal.Live()), wal.Live().(pending := wal.pending - {id}))
    ensures out != Done ==>
              Anchor(s, wal.Live()) == old(Anchor(s, wal.Live())) && OnlyReleased(old(wal.Live()), wal.Live())
    ensures (wal.Value(), out) == Flushing(wal.k, old(wal.Value()), BatchCommit(s, id, entries, at), attempts)
  {
    hide WAL.Valid, CommitOp, Anchor, Released;
    var c := BatchCommit(s, id, entries, at);
    out := Full;
    var i := 0;
    while i < |attempts| && out == Full
      invariant i <= |attempts| && wal.Valid()
      invariant Flushing(wal.k, old(wal.Value()), c, attempts)
             == if out == Full then Flushing(wal.k, wal.Value(), c, attempts[i..]) else (wal.Value(), out)
      invariant out == Done ==> Anchor(s, wal.Live()) == Some(T.Position(c.checkpoint.fileIdentity, c.checkpoint.offsetBytes))
      invariant out == Done ==> id in wal.pending && wal.pending[id] == c
      invariant out == Done ==> OnlyReleased(old(wal.Live()), wal.Live().(pending := wal.pending - {id}))
      invariant out != Done ==> Anchor(s, wal.Live()) == old(Anchor(s, wal.Live())) && OnlyReleased(old(wal.Live()), wal.Live())
    {
      assert attempts[i..][0] == attempts[i] && attempts[i..][1..] == attempts[i + 1..];
      CommitOutcome(s, wal.Value(), c, attempts[i].io);
      out := wal.Commit(c, attempts[i].io);
      if out == Full { ReleaseAll(s, wal, attempts[i].releases); }
      i := i + 1;
    }
  }

  // ---- the dispatcher object

  /** The loop of the dispatcher does to the spool what the delivery protocol says it does. */
  method HandleReply(s: Setup, d: Dispatcher.Dispatcher, ghost w: D.World, c: Commit, result: Transport.SendResult,
                     h: Dispatcher.Handling) returns (goOn: bool)
    requires Dispatcher.ValidOptions(d.options) && d.wal.Valid() && d.wal.k == s.wire.k && d.wal.Value() == w.spool
    modifies d, d.wal
    ensures d.wal.Value() == D.AfterReply(s.wire, w, c.batchId, result, h.clock, h.io, h.swap).spool
  {
    hide WAL.Valid, AckOp, QuarantineOp;
    goOn := d.Handle(c, result, h);
  }

  // ---- what the hash says

  /**
    The server's reading of a body: `read` decodes it to a request, and the stored hash is `sha` of the
    canonical payload of that request.
  */
  datatype Reader = Reader(
    lib: CanonicalPayload.Library, read: Bytes -> Option<CanonicalPayload.Request>, sha: string -> Bytes)

  ghost predicate Hashes(s: Setup, r: Reader, payload: Bytes) {
    s.wire.decode(payload).Some? ==>
      && r.read(payload).Some? && CanonicalPayload.Encodable(r.read(payload).value)
      && s.wire.decode(payload).value.hash == r.sha(CanonicalPayload.PayloadText(r.lib, r.read(payload).value))
  }

  /** Two bodies agree in every field, with attributes compared up to key order and the spelling of numbers. */
  ghost predicate SameRequest(r: Reader, made: Bytes, sent: Bytes) {
    var p, q := r.read(made), r.read(sent);
    && p.Some? && q.Some?
    && CanonicalPayload.SameHeader(r.lib, p.value, q.value)
    && CanonicalPayload.SameEntries(p.value.entries, q.value.entries, 0)
  }

  /** The canonical payloads of the two bodies are a collision of the hash. */
  ghost predicate Collide(r: Reader, made: Bytes, sent: Bytes) {
    var p, q := r.read(made), r.read(sent);
    && p.Some? && q.Some?
    && CanonicalPayload.PayloadText(r.lib, p.value) != CanonicalPayload.PayloadText(r.lib, q.value)
    && r.sha(CanonicalPayload.PayloadText(r.lib, p.value)) == r.sha(CanonicalPayload.PayloadText(r.lib, q.value))
  }

  /**
    What the server stores for a batch says what the pipeline made: a body that it can read has the
    hash of the one that was made exactly if the two say the same, or their texts collide.
  */
  lemma StoredSaysWhatWasMade(s: Setup, r: Reader, made: Bytes, sent: Bytes)
    requires CanonicalPayload.Faithful(r.lib) && Hashes(s, r, made) && Hashes(s, r, sent)
    requires D.Digest(s.wire, made).Some? && D.Digest(s.wire, sent).Some?
    ensures D.Digest(s.wire, made) == D.Digest(s.wire, sent) <==> SameRequest(r, made, sent) || Collide(r, made, sent)
  {
    hide CanonicalPayload.Faithful, CanonicalPayload.Encodable, CanonicalPayload.PayloadText, CanonicalPayload.SameHeader,
      CanonicalPayload.SameEntries;
    CanonicalPayload.SamePayloadIffSame(r.lib, r.read(made).value, r.read(sent).value);
  }
}
