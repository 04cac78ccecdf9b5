/**
  The file swap at the end of a compaction, step by step, with a crash after any step, and
  recoverReplacement, which may itself be interrupted any number of times.
*/
module SwapFiles {
  import opened Prelude
  import opened Framing
  import opened Spool
  import opened Compaction
  import opened Wal

  /** The log file, the `.compact` file and the `.bak` file; None is a file that does not exist. */
  datatype Disk = Disk(main: Option<Bytes>, temp: Option<Bytes>, backup: Option<Bytes>)

  datatype Phase = Begin | Opened | Writing | Written | Cleared | Aside | InPlace | Finished | Abandoned

  datatype Point = Point(phase: Phase, disk: Disk)

  /** One file-system call of compactLocked, successful or failed. Renames are atomic. */
  ghost predicate CompactionStep(after: Bytes, a: Point, b: Point) {
    match a.phase
    case Begin => b == Point(Opened, a.disk.(temp := None)) || b == Point(Abandoned, a.disk)
    case Opened => b == Point(Writing, a.disk.(temp := Some([]))) || b == Point(Abandoned, a.disk)
    case Writing =>
      // bytes that were not synced may read back as anything after a crash
      || (b.phase == Writing && b.disk == a.disk.(temp := b.disk.temp))
      || b == Point(Written, a.disk.(temp := Some(after)))
      || b == Point(Abandoned, a.disk.(temp := None))
    case Written => b == Point(Cleared, a.disk.(backup := None)) || b == Point(Abandoned, a.disk.(temp := None))
    case Cleared =>
      || b == Point(Aside, a.disk.(main := None, backup := a.disk.main))
      || b == Point(Abandoned, a.disk.(temp := None))
    case Aside =>
      || b == Point(InPlace, a.disk.(main := a.disk.temp, temp := None))
      // the second rename failed: the first is undone, unless that fails too
      || b == Point(Abandoned, a.disk.(main := a.disk.backup, backup := None))
      || b == Point(Abandoned, a.disk)
    case InPlace => b == Point(Finished, a.disk.(backup := None)) || b == Point(Finished, a.disk)
    case Finished => false
    case Abandoned => false
  }

  ghost predicate CompactionTrace(after: Bytes, trace: seq<Point>) {
    && trace != [] && trace[0].phase == Begin
    && forall i :: 0 < i < |trace| ==> CompactionStep(after, trace[i - 1], trace[i])
  }

  /** The log is in one of its two versions, or aside with the old version as the backup. */
  ghost predicate Recoverable(before: Bytes, after: Bytes, d: Disk) {
    || d.main == Some(before)
    || d.main == Some(after)
    || (d.main.None? && d.backup == Some(before))
  }

  ghost predicate PhaseInvariant(before: Bytes, after: Bytes, p: Point) {
    match p.phase
    case Begin => p.disk.main == Some(before)
    case Opened => p.disk.main == Some(before)
    case Writing => p.disk.main == Some(before)
    case Written => p.disk.main == Some(before) && p.disk.temp == Some(after)
    case Cleared => p.disk.main == Some(before) && p.disk.temp == Some(after)
    case Aside => p.disk == Disk(None, Some(after), Some(before))
    case InPlace => p.disk.main == Some(after)
    case Finished => p.disk.main == Some(after)
    case Abandoned => Recoverable(before, after, p.disk)
  }

  lemma {:induction false} TraceRecoverable(before: Bytes, after: Bytes, trace: seq<Point>, i: nat)
    requires CompactionTrace(after, trace) && trace[0].disk.main == Some(before) && i < |trace|
    ensures PhaseInvariant(before, after, trace[i])
    ensures Recoverable(before, after, trace[i].disk)
  {
    if i > 0 {
      TraceRecoverable(before, after, trace, i - 1);
      assert CompactionStep(after, trace[i - 1], trace[i]);
    }
  }

  // ---- recoverReplacement

  /** Its decision: restore the backup of a missing log, or drop the backup of a present one. */
  function Restore(d: Disk): Disk {
    if d.main.None? && d.backup.Some? then d.(main := d.backup, backup := None)
    else if d.main.Some? && d.backup.Some? then d.(backup := None)
    else d
  }

  function RecoverReplacement(d: Disk): Disk { Restore(d).(temp := None) }

  /** Runs that crashed after the decision took effect, before the temporary file was removed. */
  function Interrupted(d: Disk, runs: nat): Disk {
    if runs == 0 then d else Restore(Interrupted(d, runs - 1))
  }

  lemma {:induction false} RecoveredDisk(before: Bytes, after: Bytes, d: Disk, runs: nat)
    requires Recoverable(before, after, d)
    ensures var out := RecoverReplacement(Interrupted(d, runs));
            && out.temp.None? && out.backup.None?
            && (out.main == Some(before) || out.main == Some(after))
            && (d.main.Some? ==> out.main == d.main)
  {
    InterruptedRecoverable(before, after, d, runs);
  }

  lemma {:induction false} InterruptedRecoverable(before: Bytes, after: Bytes, d: Disk, runs: nat)
    requires Recoverable(before, after, d)
    ensures Recoverable(before, after, Interrupted(d, runs))
    ensures d.main.Some? ==> Interrupted(d, runs).main == d.main
  {
    if runs > 0 { InterruptedRecoverable(before, after, d, runs - 1); }
  }

  /**
    Compaction is crash-safe. Crash after any call of any compaction, let any number of recoveries
    be interrupted, and then open: the spool shows what it showed before, and is well formed.
  */
  lemma CompactionCrashSafe(k: Codec, st: State, trace: seq<Point>, i: nat, runs: nat)
    requires Faithful(k) && SpoolOk(k, st)
    requires Writable(k, st.live) && Fit(CompactFrames(k, st.live), k.format)
    requires CompactionTrace(Concat(CompactFrames(k, st.live), k.format), trace) && i < |trace|
    requires trace[0].disk.main == Some(Concat(st.frames, k.format))
    ensures var d := RecoverReplacement(Interrupted(trace[i].disk, runs));
            && d.temp.None? && d.backup.None? && d.main.Some?
            && var re := OpenOp(k, d.main.value, st.maxBytes);
            && re.Some? && SpoolOk(k, re.value) && ViewOf(k, re.value.live) == ViewOf(k, st.live)
  {
    var before, after := Concat(st.frames, k.format), Concat(CompactFrames(k, st.live), k.format);
    TraceRecoverable(before, after, trace, i);
    RecoveredDisk(before, after, trace[i].disk, runs);
    hide CompactionTrace, SpoolOk, Faithful, Interrupted, RecoverReplacement, Recoverable, PhaseInvariant, ViewOf, OpenOp, CompactFrames, Writable;
    CompactKeeps(k, st, Swapped);
    var compacted := CompactOp(k, st, Swapped);
    assert TornTail(before, st.frames, k.format);
    assert TornTail(after, CompactFrames(k, st.live), k.format);
    hide TornTail;
    ReopenShowsSame(k, st, before);
    ReopenShowsSame(k, compacted, after);
  }
}
