/**
  Checkpointed tailing: a growing file read in arbitrary chunks, records committed together with
  the offset they end at, crashes, restarts, and rotation by rename and recreate.
*/
module Tailing {
  import opened Prelude

  const NEWLINE: byte := 10
  const RETURN: byte := 13

  // ---- lines

  predicate NoNewline(s: Bytes) { NEWLINE !in s }

  /** The text is empty or ends with a newline. */
  predicate Complete(s: Bytes) { s == [] || s[|s| - 1] == NEWLINE }

  /** A line without its newline loses one carriage return as well. */
  function Content(line: Bytes): Bytes {
    if line != [] && line[|line| - 1] == RETURN then line[..|line| - 1] else line
  }

  predicate EndsInReturn(s: Bytes) { s != [] && s[|s| - 1] == RETURN }

  /** The content is the line, but for one carriage return at its end. */
  lemma ContentExact(line: Bytes)
    ensures line == Content(line) + if EndsInReturn(line) then [RETURN] else []
  {}

  function FirstNewline(s: Bytes): (i: nat)
    ensures i <= |s| && NoNewline(s[..i]) && (i < |s| ==> s[i] == NEWLINE)
  {
    if s == [] || s[0] == NEWLINE then 0
    else
      var i := FirstNewline(s[1..]) + 1;
      assert s[..i] == [s[0]] + s[1..][..i - 1];
      i
  }

  /** The newline-terminated records of a text; an unterminated rest is not a record. */
  function Lines(s: Bytes): seq<Bytes>
    decreases |s|
  {
    var i := FirstNewline(s);
    if i == |s| then [] else [Content(s[..i])] + Lines(s[i + 1..])
  }

  lemma FirstNewlineIs(s: Bytes, i: nat)
    requires i <= |s| && NoNewline(s[..i]) && (i < |s| ==> s[i] == NEWLINE)
    ensures FirstNewline(s) == i
  {}

  lemma OneLine(line: Bytes, rest: Bytes)
    requires NoNewline(line)
    ensures Lines(line + [NEWLINE] + rest) == [Content(line)] + Lines(rest)
  {
    hide FirstNewline, Content;
    var s := line + [NEWLINE] + rest;
    assert s[..|line|] == line && s[|line| + 1..] == rest && s[|line|] == NEWLINE;
    FirstNewlineIs(s, |line|);
  }

  /** A complete text that is not empty begins with a line. */
  lemma SplitLine(s: Bytes) returns (line: Bytes, rest: Bytes)
    requires Complete(s) && s != []
    ensures s == line + [NEWLINE] + rest && NoNewline(line) && Complete(rest)
  {
    var i := FirstNewline(s);
    assert s[..|s|] == s;
    assert s[|s| - 1] in s;
    line, rest := s[..i], s[i + 1..];
    assert rest != [] ==> rest[|rest| - 1] == s[|s| - 1];
  }

  /** A complete text and what follows it are split apart. */
  lemma {:induction false} LinesConcat(s: Bytes, t: Bytes)
    requires Complete(s)
    ensures Lines(s + t) == Lines(s) + Lines(t)
    decreases |s|
  {
    hide Lines, Complete, NoNewline, Content;
    if s == [] {
      assert s + t == t;
      EmptyLines();
    } else {
      var line, rest := SplitLine(s);
      LinesConcat(rest, t);
      OneLine(line, rest);
      OneLine(line, rest + t);
      assert s + t == line + [NEWLINE] + (rest + t);
    }
  }

  lemma EmptyLines()
    ensures Lines([]) == []
  {}

  predicate StartsWith(text: Bytes, s: Bytes) { |s| <= |text| && text[..|s|] == s }

  /**
    The records spell the text: each followed by a newline if it does not end in a carriage return, or by
    a carriage return and a newline, and nothing is left.
  */
  ghost predicate Spells(records: seq<Bytes>, text: Bytes)
    decreases |records|
  {
    if records == [] then text == []
    else
      var r := records[0];
      && NoNewline(r)
      && ((!EndsInReturn(r) && StartsWith(text, r + [NEWLINE]) && Spells(records[1..], text[|r| + 1..]))
          || (StartsWith(text, r + [RETURN, NEWLINE]) && Spells(records[1..], text[|r| + 2..])))
  }

  lemma {:induction false} LinesSpell(text: Bytes)
    requires Complete(text)
    ensures Spells(Lines(text), text)
    decreases |text|
  {
    hide Lines, Complete, NoNewline, Content, Spells, EndsInReturn;
    if text == [] {
      EmptyLines();
      NothingSpelled();
    } else {
      var line, rest := SplitLine(text);
      OneLine(line, rest);
      LinesSpell(rest);
      ContentExact(line);
      LineSpells(line, rest, Lines(rest));
    }
  }

  lemma NothingSpelled()
    ensures Spells([], [])
  {}

  lemma LineSpells(line: Bytes, rest: Bytes, more: seq<Bytes>)
    requires NoNewline(line) && Spells(more, rest)
    ensures Spells([Content(line)] + more, line + [NEWLINE] + rest)
  {
    var text, r := line + [NEWLINE] + rest, Content(line);
    assert ([r] + more)[1..] == more;
    ContentExact(line);
    if EndsInReturn(line) {
      assert text[..|r| + 2] == r + [RETURN, NEWLINE] && text[|r| + 2..] == rest;
    } else {
      assert text[..|r| + 1] == r + [NEWLINE] && text[|r| + 1..] == rest;
    }
  }

  /** A text has a record exactly when it has a newline. */
  lemma NoLinesIff(s: Bytes)
    ensures Lines(s) == [] <==> NoNewline(s)
  {
    assert s[..|s|] == s;
    var i := FirstNewline(s);
    assert i < |s| ==> s[i] in s;
  }

  // ---- the source, the pipeline's buffer, and the durable log

  /** A raw record: which file it came from, its text, and the offset after it. */
  datatype Record = Record(identity: string, content: Bytes, end: nat)

  datatype Position = Position(identity: string, offset: nat)

  /** Between two polls the source reads; after an end of file it looks for a rotation. */
  datatype Phase = Reading | AtEnd | RotationDue

  datatype Source = Source(identity: string, readOffset: nat, pending: Bytes, rotationSeen: nat, phase: Phase)

  /** `handoff` is the record that the reading goroutine offers to the pipeline. */
  datatype Agent = Stopped | Running(source: Source, handoff: Option<Record>, entries: seq<Record>)

  /**
    Files by identity, the identity that the path names, the durable checkpoint and the raw records
    of the committed batches; `marks` is the last checkpoint that each file ever had.
  */
  datatype World = World(
    files: map<string, Bytes>, path: string,
    checkpoint: Option<Position>, committed: seq<Record>, marks: map<string, nat>, agent: Agent)

  function Start(path: string): World { World(map[path := []], path, None, [], map[], Stopped) }

  datatype Step =
    | Writes(identity: string, bytes: Bytes)
    | Recreates(identity: string)
    | Restores(identity: string)
    | Starts
    | Reads(n: nat)
    | ReachesEnd
    | Detects(io: bool)
    | Takes
    | Flushes(io: bool)
    | Rotates(io: bool)
    | Stops

  function OpenAt(identity: string, offset: nat): Agent {
    Running(Source(identity, offset, [], 0, Reading), None, [])
  }

  /** NewDurableFileSource and the transition that anchors its initial checkpoint. */
  function StartAgent(w: World): World {
    var resume := w.checkpoint.Some? && w.checkpoint.value.identity == w.path && w.path in w.files
                  && w.checkpoint.value.offset <= |w.files[w.path]|;
    if resume then w.(agent := OpenAt(w.path, w.checkpoint.value.offset))
    else w.(checkpoint := Some(Position(w.path, 0)), marks := w.marks[w.path := 0], agent := OpenAt(w.path, 0))
  }

  /** ReadString returned a chunk with its newline: the pending part and the chunk are a record. */
  function Completed(s: Source, chunk: Bytes): (Source, Record)
    requires chunk != []
  {
    var line := s.pending + chunk[..|chunk| - 1];
    var end := s.readOffset + |chunk|;
    (Source(s.identity, end, [], 0, Reading), Record(s.identity, Content(line), end))
  }

  /** ReadString returned an end of file, with what was there. */
  function Accumulated(s: Source, chunk: Bytes): Source {
    s.(readOffset := s.readOffset + |chunk|, pending := s.pending + chunk, phase := AtEnd)
  }

  /** detectRotation, when the file was not truncated; None is the error for an unterminated record. */
  function DetectRotation(s: Source, path: string): Option<Source> {
    if path == s.identity then Some(s.(rotationSeen := 0, phase := Reading))
    else if s.pending != [] then None
    else if s.rotationSeen + 1 >= 2 then Some(s.(rotationSeen := s.rotationSeen + 1, phase := RotationDue))
    else Some(s.(rotationSeen := s.rotationSeen + 1, phase := Reading))
  }

  /** flush: one durable record with the entries and the checkpoint of the last one. */
  function Flush(w: World, io: bool): World
    requires w.agent.Running?
  {
    var es := w.agent.entries;
    if es == [] then w
    else if !io then w.(agent := Stopped)
    else
      var last := es[|es| - 1];
      w.(committed := w.committed + es,
         checkpoint := Some(Position(last.identity, last.end)),
         marks := w.marks[last.identity := last.end],
         agent := w.agent.(entries := []))
  }

  /** Rotate: the checkpoint moves to the new file only if it stands where the source does. */
  function Rotate(w: World, io: bool): World
    requires w.agent.Running?
  {
    var s := w.agent.source;
    if s.pending != [] || w.path == s.identity || !io || w.checkpoint != Some(Position(s.identity, s.readOffset)) then
      w.(agent := Stopped)
    else
      w.(checkpoint := Some(Position(w.path, 0)), marks := w.marks[w.path := 0], agent := OpenAt(w.path, 0))
  }

  /** The file is the one being tailed, or nothing of it is committed. */
  predicate Fresh(w: World, f: string) {
    Mark(w, f) == 0 || (w.checkpoint.Some? && w.checkpoint.value.identity == f)
  }

  ghost predicate Enabled(w: World, step: Step) {
    match step
    case Writes(f, _) => f in w.files
    case Recreates(f) => f !in w.files
    // an earlier file comes back to the path; see RestoreExact for the files that this leaves out
    case Restores(f) => f in w.files && Fresh(w, f)
    case Starts => w.agent.Stopped?
    case Reads(n) =>
      && w.agent.Running? && w.agent.handoff.None? && w.agent.source.phase.Reading?
      && (var s := w.agent.source;
          && s.identity in w.files && s.readOffset + n < |w.files[s.identity]|
          && w.files[s.identity][s.readOffset + n] == NEWLINE
          && NoNewline(w.files[s.identity][s.readOffset..s.readOffset + n]))
    case ReachesEnd =>
      && w.agent.Running? && w.agent.handoff.None? && w.agent.source.phase.Reading?
      && (var s := w.agent.source;
          && s.identity in w.files && s.readOffset <= |w.files[s.identity]|
          && NoNewline(w.files[s.identity][s.readOffset..]))
    case Detects(_) => w.agent.Running? && w.agent.handoff.None? && w.agent.source.phase.AtEnd?
    case Takes => w.agent.Running? && w.agent.handoff.Some?
    case Flushes(_) => w.agent.Running?
    // the pipeline hears of the rotation after it took every record, and flushes first
    case Rotates(_) =>
      w.agent.Running? && w.agent.source.phase.RotationDue? && w.agent.handoff.None? && w.agent.entries == []
    case Stops => w.agent.Running?
  }

  ghost function Next(w: World, step: Step): World
    requires Enabled(w, step)
  {
    match step
    case Writes(f, bytes) => w.(files := w.files[f := w.files[f] + bytes])
    case Recreates(f) => w.(files := w.files[f := []], path := f)
    case Restores(f) => w.(path := f)
    case Starts => StartAgent(w)
    case Reads(n) =>
      var s := w.agent.source;
      var (s', record) := Completed(s, w.files[s.identity][s.readOffset..s.readOffset + n + 1]);
      w.(agent := w.agent.(source := s', handoff := Some(record)))
    case ReachesEnd =>
      var s := w.agent.source;
      w.(agent := w.agent.(source := Accumulated(s, w.files[s.identity][s.readOffset..])))
    case Detects(io) =>
      match DetectRotation(w.agent.source, w.path) {
        // the pipeline flushes what it has and ends with the error
        case None => Flush(w, io).(agent := Stopped)
        case Some(s) => w.(agent := w.agent.(source := s))
      }
    case Takes => w.(agent := w.agent.(handoff := None, entries := w.agent.entries + [w.agent.handoff.value]))
    case Flushes(io) => Flush(w, io)
    case Rotates(io) => Rotate(w, io)
    case Stops => w.(agent := Stopped)
  }

  // ---- the invariant

  function Contents(rs: seq<Record>): seq<Bytes> {
    if rs == [] then [] else [rs[0].content] + Contents(rs[1..])
  }

  /** The committed records of one file, in order. */
  function RecordsOf(rs: seq<Record>, identity: string): seq<Bytes> {
    if rs == [] then [] else (if rs[0].identity == identity then [rs[0].content] else []) + RecordsOf(rs[1..], identity)
  }

  lemma {:induction false} ContentsConcat(rs: seq<Record>, qs: seq<Record>)
    ensures Contents(rs + qs) == Contents(rs) + Contents(qs)
  {
    if rs == [] {
      assert rs + qs == qs;
    } else {
      assert (rs + qs)[1..] == rs[1..] + qs;
      ContentsConcat(rs[1..], qs);
    }
  }

  lemma {:induction false} RecordsConcat(rs: seq<Record>, qs: seq<Record>, identity: string)
    ensures RecordsOf(rs + qs, identity) == RecordsOf(rs, identity) + RecordsOf(qs, identity)
  {
    if rs == [] {
      assert rs + qs == qs;
    } else {
      assert (rs + qs)[1..] == rs[1..] + qs;
      RecordsConcat(rs[1..], qs, identity);
    }
  }

  ghost predicate AllOf(rs: seq<Record>, identity: string) { forall r :: r in rs ==> r.identity == identity }

  lemma {:induction false} RecordsOfOne(rs: seq<Record>, identity: string, of: string)
    requires AllOf(rs, identity)
    ensures RecordsOf(rs, of) == if of == identity then Contents(rs) else []
  {
    if rs != [] {
      assert rs[0] in rs;
      assert forall r :: r in rs[1..] ==> r in rs;
      RecordsOfOne(rs[1..], identity, of);
    }
  }

  function Mark(w: World, f: string): nat { if f in w.marks then w.marks[f] else 0 }

  /** A file's committed records are the lines before its mark. */
  ghost predicate FileExact(w: World, f: string) {
    f in w.files ==>
      && Mark(w, f) <= |w.files[f]|
      && Complete(w.files[f][..Mark(w, f)])
      && RecordsOf(w.committed, f) == Lines(w.files[f][..Mark(w, f)])
  }

  ghost predicate DurableOk(w: World) {
    && w.path in w.files
    && (forall f :: FileExact(w, f))
    && (forall f :: f in w.marks ==> f in w.files)
    && (forall r :: r in w.committed ==> r.identity in w.files)
    && (w.checkpoint.Some? ==> w.checkpoint.value.identity in w.marks && w.marks[w.checkpoint.value.identity] == w.checkpoint.value.offset)
    && Fresh(w, w.path)
  }

  /** Where the buffered entries end. */
  function BufferEnd(w: World): nat
    requires w.agent.Running?
  {
    var es := w.agent.entries;
    if es == [] then Mark(w, w.agent.source.identity) else es[|es| - 1].end
  }

  /** Where the source's current line begins. */
  function LineStart(s: Source): int { s.readOffset - |s.pending| }

  ghost predicate SourceOk(w: World) {
    w.agent.Running? ==>
      var s := w.agent.source;
      && w.checkpoint.Some? && w.checkpoint.value.identity == s.identity && s.identity in w.files
      && |s.pending| <= s.readOffset <= |w.files[s.identity]|
      && s.pending == w.files[s.identity][LineStart(s)..s.readOffset] && NoNewline(s.pending)
      && (s.phase.RotationDue? ==> s.pending == [])
  }

  /** The buffered entries, and the record on offer, are the lines from the mark to the current line. */
  ghost predicate BufferOk(w: World) {
    w.agent.Running? ==>
      var s := w.agent.source;
      var mark, end := Mark(w, s.identity), BufferEnd(w);
      && s.identity in w.files && mark <= end <= LineStart(s) <= |w.files[s.identity]|
      && AllOf(w.agent.entries, s.identity)
      && Complete(w.files[s.identity][mark..end])
      && Contents(w.agent.entries) == Lines(w.files[s.identity][mark..end])
      && OfferOk(w, end)
  }

  ghost predicate OfferOk(w: World, end: nat)
    requires w.agent.Running? && w.agent.source.identity in w.files
    requires end <= LineStart(w.agent.source) <= |w.files[w.agent.source.identity]|
  {
    var s := w.agent.source;
    match w.agent.handoff
    case None => end == LineStart(s)
    case Some(r) =>
      && r.identity == s.identity && r.end == LineStart(s) && s.pending == []
      && Complete(w.files[s.identity][end..r.end])
      && Lines(w.files[s.identity][end..r.end]) == [r.content]
  }

  ghost predicate Inv(w: World) { DurableOk(w) && SourceOk(w) && BufferOk(w) }

  lemma StartInv(path: string)
    ensures Inv(Start(path))
  {
    EmptyLines();
    var w := Start(path);
    forall f ensures FileExact(w, f) {}
  }

  // ---- every step keeps it

  lemma SliceGrows(s: Bytes, more: Bytes, a: nat, b: nat)
    requires a <= b <= |s|
    ensures (s + more)[a..b] == s[a..b]
  {}

  lemma JoinSlices(s: Bytes, a: nat, b: nat, c: nat)
    requires a <= b <= c <= |s|
    ensures s[a..b] + s[b..c] == s[a..c]
  {}

  lemma CompleteConcat(s: Bytes, t: Bytes)
    requires Complete(s) && Complete(t)
    ensures Complete(s + t)
  {}

  lemma {:induction false} RecordsOfNone(rs: seq<Record>, identity: string)
    requires forall r :: r in rs ==> r.identity != identity
    ensures RecordsOf(rs, identity) == []
  {
    if rs != [] {
      assert rs[0] in rs;
      assert forall r :: r in rs[1..] ==> r in rs;
      RecordsOfNone(rs[1..], identity);
    }
  }

  lemma WritesFileExact(w: World, f: string, bytes: Bytes, g: string)
    requires f in w.files && FileExact(w, g)
    ensures FileExact(w.(files := w.files[f := w.files[f] + bytes]), g)
  {
    if g == f { SliceGrows(w.files[f], bytes, 0, Mark(w, f)); }
  }

  lemma WritesKeeps(w: World, f: string, bytes: Bytes)
    requires Inv(w) && f in w.files
    ensures Inv(w.(files := w.files[f := w.files[f] + bytes]))
  {
    hide Lines, Complete, NoNewline, Contents, RecordsOf, FileExact, AllOf;
    var w' := w.(files := w.files[f := w.files[f] + bytes]);
    forall g ensures FileExact(w', g) { WritesFileExact(w, f, bytes, g); }
    if w.agent.Running? && w.agent.source.identity == f {
      var s := w.agent.source;
      SliceGrows(w.files[f], bytes, LineStart(s), s.readOffset);
      SliceGrows(w.files[f], bytes, Mark(w, f), BufferEnd(w));
      SliceGrows(w.files[f], bytes, BufferEnd(w), LineStart(s));
    }
  }

  lemma RecreatesKeeps(w: World, f: string)
    requires Inv(w) && f !in w.files
    ensures Inv(w.(files := w.files[f := []], path := f))
  {
    hide Lines, NoNewline, Contents, RecordsOf, AllOf;
    var w' := w.(files := w.files[f := []], path := f);
    forall g ensures FileExact(w', g) {
      assert FileExact(w, g);
      if g == f {
        RecordsOfNone(w.committed, f);
        EmptyLines();
      }
    }
  }

  /** Opening a file at its mark, with nothing read and nothing buffered. */
  lemma OpenedOk(w: World, f: string)
    requires DurableOk(w) && f in w.files && w.checkpoint == Some(Position(f, Mark(w, f)))
    ensures Inv(w.(agent := OpenAt(f, Mark(w, f))))
  {
    hide Lines, Complete, RecordsOf;
    var w' := w.(agent := OpenAt(f, Mark(w, f)));
    assert forall g :: FileExact(w, g) ==> FileExact(w', g);
    assert FileExact(w, f);
    var m := Mark(w, f);
    assert w.files[f][m..m] == [];
    EmptyLines();
    CompleteEmpty();
  }

  lemma CompleteEmpty()
    ensures Complete([])
  {}

  /** A new epoch of the path: a file of which nothing is committed gets the mark zero. */
  lemma NewEpochOk(w: World)
    requires DurableOk(w) && Mark(w, w.path) == 0
    ensures DurableOk(w.(checkpoint := Some(Position(w.path, 0)), marks := w.marks[w.path := 0]))
  {
    hide Lines, Complete, RecordsOf;
    var w' := w.(checkpoint := Some(Position(w.path, 0)), marks := w.marks[w.path := 0]);
    forall f ensures FileExact(w', f) { assert FileExact(w, f); }
  }

  lemma DurableAnyAgent(w: World, agent: Agent)
    requires DurableOk(w)
    ensures DurableOk(w.(agent := agent))
  {
    hide Lines, Complete, RecordsOf;
    var w' := w.(agent := agent);
    forall f ensures FileExact(w', f) { assert FileExact(w, f); }
  }

  lemma StopsKeeps(w: World)
    requires Inv(w)
    ensures Inv(w.(agent := Stopped))
  {
    hide DurableOk;
    DurableAnyAgent(w, Stopped);
  }

  lemma StartsKeeps(w: World)
    requires Inv(w) && w.agent.Stopped?
    ensures Inv(StartAgent(w))
  {
    hide Lines, Complete, RecordsOf, FileExact, SourceOk, BufferOk;
    assert FileExact(w, w.path);
    if w.checkpoint.Some? && w.checkpoint.value.identity == w.path {
      MarkWithin(w, w.path);
      OpenedOk(w, w.path);
    } else {
      NewEpochOk(w);
      OpenedOk(w.(checkpoint := Some(Position(w.path, 0)), marks := w.marks[w.path := 0]), w.path);
    }
  }

  lemma MarkWithin(w: World, f: string)
    requires FileExact(w, f) && f in w.files
    ensures Mark(w, f) <= |w.files[f]|
  {}

  lemma NoNewlineConcat(s: Bytes, t: Bytes)
    requires NoNewline(s) && NoNewline(t)
    ensures NoNewline(s + t)
  {}

  /** A chunk with its newline ends the current line; the chunks before it do not matter. */
  lemma LineCompleted(file: Bytes, start: nat, readOffset: nat, n: nat)
    requires start <= readOffset && readOffset + n < |file| && file[readOffset + n] == NEWLINE
    requires NoNewline(file[start..readOffset]) && NoNewline(file[readOffset..readOffset + n])
    ensures var line := file[start..readOffset] + file[readOffset..readOffset + n];
            && Lines(file[start..readOffset + n + 1]) == [Content(line)]
            && Complete(file[start..readOffset + n + 1])
  {
    hide Lines, NoNewline, Content;
    var line := file[start..readOffset] + file[readOffset..readOffset + n];
    NoNewlineConcat(file[start..readOffset], file[readOffset..readOffset + n]);
    assert file[start..readOffset + n + 1] == line + [NEWLINE] + [];
    OneLine(line, []);
    EmptyLines();
  }

  lemma ReadsKeeps(w: World, n: nat)
    requires Inv(w) && Enabled(w, Reads(n))
    ensures Inv(Next(w, Reads(n)))
  {
    hide DurableOk, Lines, Complete, NoNewline, Content, Contents, AllOf;
    var s := w.agent.source;
    var file := w.files[s.identity];
    var chunk := file[s.readOffset..s.readOffset + n + 1];
    assert chunk[..|chunk| - 1] == file[s.readOffset..s.readOffset + n];
    LineCompleted(file, LineStart(s), s.readOffset, n);
    DurableAnyAgent(w, Next(w, Reads(n)).agent);
    assert file[s.readOffset + n + 1..s.readOffset + n + 1] == [];
    EmptyNoNewline();
  }

  lemma EmptyNoNewline()
    ensures NoNewline([])
  {}

  lemma ReachesEndKeeps(w: World)
    requires Inv(w) && Enabled(w, ReachesEnd)
    ensures Inv(Next(w, ReachesEnd))
  {
    hide DurableOk, Lines, Complete, NoNewline, Contents, AllOf;
    var s := w.agent.source;
    var file := w.files[s.identity];
    var rest := file[s.readOffset..];
    DurableAnyAgent(w, Next(w, ReachesEnd).agent);
    NoNewlineConcat(s.pending, rest);
    assert file[s.readOffset..|file|] == rest;
    JoinSlices(file, LineStart(s), s.readOffset, |file|);
  }

  lemma DetectsKeeps(w: World, io: bool)
    requires Inv(w) && Enabled(w, Detects(io))
    ensures Inv(Next(w, Detects(io)))
  {
    hide DurableOk, Lines, Complete, NoNewline, Contents, AllOf, Flush;
    if DetectRotation(w.agent.source, w.path).None? {
      FlushesKeeps(w, io);
      StopsKeeps(Flush(w, io));
    } else {
      DurableAnyAgent(w, Next(w, Detects(io)).agent);
    }
  }

  lemma RestoresKeeps(w: World, f: string)
    requires Inv(w) && f in w.files && Fresh(w, f)
    ensures Inv(w.(path := f))
  {
    hide Lines, Complete, NoNewline, Contents, RecordsOf, AllOf;
    var w' := w.(path := f);
    forall g ensures FileExact(w', g) { assert FileExact(w, g); }
  }

  lemma TakesKeeps(w: World)
    requires Inv(w) && Enabled(w, Takes)
    ensures Inv(Next(w, Takes))
  {
    hide DurableOk, Lines, Complete, NoNewline, Contents;
    var s := w.agent.source;
    var r := w.agent.handoff.value;
    var file := w.files[s.identity];
    var mark, end := Mark(w, s.identity), BufferEnd(w);
    DurableAnyAgent(w, Next(w, Takes).agent);
    ContentsConcat(w.agent.entries, [r]);
    ContentsOne(r);
    LinesConcat(file[mark..end], file[end..r.end]);
    CompleteConcat(file[mark..end], file[end..r.end]);
    JoinSlices(file, mark, end, r.end);
  }

  lemma ContentsOne(r: Record)
    ensures Contents([r]) == [r.content]
  {}

  /** A flush moves the mark of the file to the end of the buffer, and commits the lines in between. */
  lemma FlushFileExact(w: World, f: string)
    requires Inv(w) && w.agent.Running? && w.agent.entries != []
    ensures FileExact(Flush(w, true), f)
  {
    hide Lines, Complete, NoNewline, Contents, RecordsOf, OfferOk;
    var id := w.agent.source.identity;
    var es := w.agent.entries;
    assert es[|es| - 1] in es;
    RecordsConcat(w.committed, es, f);
    RecordsOfOne(es, id, f);
    assert FileExact(w, f);
    if f == id {
      var file, mark, end := w.files[id], Mark(w, id), BufferEnd(w);
      JoinSlices(file, 0, mark, end);
      assert file[0..mark] == file[..mark] && file[0..end] == file[..end];
      LinesConcat(file[..mark], file[mark..end]);
      CompleteConcat(file[..mark], file[mark..end]);
    }
  }

  lemma FlushesKeeps(w: World, io: bool)
    requires Inv(w) && w.agent.Running?
    ensures Inv(Flush(w, io))
  {
    hide Lines, Complete, NoNewline, Contents, RecordsOf, FileExact;
    var es := w.agent.entries;
    if es != [] && !io {
      StopsKeeps(w);
    } else if es != [] {
      var w' := Flush(w, true);
      forall f ensures FileExact(w', f) { FlushFileExact(w, f); }
      assert es[|es| - 1] in es;
      var file, end := w.files[w.agent.source.identity], BufferEnd(w);
      assert file[end..end] == [];
      EmptyLines();
      CompleteEmpty();
      ContentsNone();
      assert DurableOk(w');
    }
  }

  lemma ContentsNone()
    ensures Contents([]) == []
  {}

  /** When the source has handed over everything, the durable checkpoint stands where the source does. */
  lemma CaughtUp(w: World)
    requires Inv(w) && Enabled(w, Rotates(true))
    ensures w.checkpoint == Some(Position(w.agent.source.identity, w.agent.source.readOffset))
    ensures Mark(w, w.agent.source.identity) == w.agent.source.readOffset
  {
    hide Lines, Complete, NoNewline, Contents, RecordsOf, FileExact;
  }

  lemma RotatesKeeps(w: World, io: bool)
    requires Inv(w) && Enabled(w, Rotates(io))
    ensures Inv(Rotate(w, io))
  {
    CaughtUp(w);
    hide Lines, Complete, NoNewline, Contents, RecordsOf, FileExact, BufferOk;
    StopsKeeps(w);
    if Rotate(w, io).agent.Running? {
      NewEpochOk(w);
      OpenedOk(w.(checkpoint := Some(Position(w.path, 0)), marks := w.marks[w.path := 0]), w.path);
    }
  }

  lemma StepKeeps(w: World, step: Step)
    requires Inv(w) && Enabled(w, step)
    ensures Inv(Next(w, step))
  {
    hide Inv, StartAgent, Flush, Rotate, DetectRotation;
    match step
    case Writes(f, bytes) => WritesKeeps(w, f, bytes);
    case Recreates(f) => RecreatesKeeps(w, f);
    case Restores(f) => RestoresKeeps(w, f);
    case Starts => StartsKeeps(w);
    case Reads(n) => ReadsKeeps(w, n);
    case ReachesEnd => ReachesEndKeeps(w);
    case Detects(io) => DetectsKeeps(w, io);
    case Takes => TakesKeeps(w);
    case Flushes(io) => FlushesKeeps(w, io);
    case Rotates(io) => RotatesKeeps(w, io);
    case Stops => StopsKeeps(w);
  }

  // ---- whole runs

  /** Steps that cannot happen are skipped. */
  ghost function Run(path: string, steps: seq<Step>): World
    decreases |steps|
  {
    if steps == [] then Start(path)
    else
      var w := Run(path, steps[..|steps| - 1]);
      var step := steps[|steps| - 1];
      if Enabled(w, step) then Next(w, step) else w
  }

  lemma {:induction false} RunInv(path: string, steps: seq<Step>)
    ensures Inv(Run(path, steps))
    decreases |steps|
  {
    hide Inv, Next, Enabled, Start;
    if steps == [] {
      StartInv(path);
    } else {
      RunInv(path, steps[..|steps| - 1]);
      var w, step := Run(path, steps[..|steps| - 1]), steps[|steps| - 1];
      if Enabled(w, step) { StepKeeps(w, step); }
    }
  }

  ghost predicate Reachable(path: string, w: World) { exists steps :: Run(path, steps) == w }

  lemma ReachableInv(path: string, w: World)
    requires Reachable(path, w)
    ensures Inv(w)
  {
    hide Inv, Run;
    var steps :| Run(path, steps) == w;
    RunInv(path, steps);
  }

  /**
    Tailing is exact. In every reachable state, after any chunks, crashes, restarts and rotations, the
    raw records in committed batches of a file are, in order, precisely the lines of that file up to
    the last checkpoint it had; and the durable checkpoint is that of the file being tailed.
  */
  lemma TailingExact(path: string, w: World, f: string)
    requires Reachable(path, w)
    ensures f in w.files ==>
              Mark(w, f) <= |w.files[f]| && Complete(w.files[f][..Mark(w, f)])
              && RecordsOf(w.committed, f) == Lines(w.files[f][..Mark(w, f)])
              && Spells(RecordsOf(w.committed, f), w.files[f][..Mark(w, f)])
    ensures w.checkpoint.Some? && w.checkpoint.value.identity == f ==> Mark(w, f) == w.checkpoint.value.offset
    ensures w.agent.Running? ==> w.checkpoint.Some? && w.checkpoint.value.identity == w.agent.source.identity
  {
    hide Reachable, Lines, Complete, RecordsOf, BufferOk, Spells;
    ReachableInv(path, w);
    assert FileExact(w, f);
    if f in w.files { LinesSpell(w.files[f][..Mark(w, f)]); }
  }

  /**
    A live rotation switches only after every complete line that the source saw is committed, and its
    checkpoint transition never conflicts. The old file is then complete, as it is on disk, exactly
    when no newline was written to it after the source last found its end.
  */
  lemma RotationExact(path: string, w: World)
    requires Reachable(path, w) && Enabled(w, Rotates(true))
    ensures var s := w.agent.source;
            var w' := Rotate(w, true);
            && s.identity in w.files && s.readOffset <= |w.files[s.identity]|
            && (w'.agent.Running? <==> w.path != s.identity)
            && (w'.agent.Running? ==> w'.checkpoint == Some(Position(w.path, 0)))
            && w'.committed == w.committed
            && RecordsOf(w.committed, s.identity) == Lines(w.files[s.identity][..s.readOffset])
            && (RecordsOf(w.committed, s.identity) == Lines(w.files[s.identity]) <==> NoNewline(w.files[s.identity][s.readOffset..]))
  {
    ReachableInv(path, w);
    CaughtUp(w);
    hide Reachable, Lines, RecordsOf, BufferOk, NoNewline;
    var s := w.agent.source;
    var file := w.files[s.identity];
    assert FileExact(w, s.identity);
    assert file == file[..s.readOffset] + file[s.readOffset..];
    LinesConcat(file[..s.readOffset], file[s.readOffset..]);
    NoLinesIff(file[s.readOffset..]);
    if Lines(file) == Lines(file[..s.readOffset]) {
      assert |Lines(file)| == |Lines(file[..s.readOffset])| + |Lines(file[s.readOffset..])|;
    }
  }

  lemma ReachableNext(path: string, w: World, step: Step)
    requires Reachable(path, w) && Enabled(w, step)
    ensures Reachable(path, Next(w, step))
  {
    hide Next, Enabled;
    var steps :| Run(path, steps) == w;
    assert (steps + [step])[..|steps|] == steps;
    assert Run(path, steps + [step]) == Next(w, step);
  }

  /**
    The loss is real. For any path, any new file and any bytes with a newline there is a run that ends
    ready to rotate, where lines on the old file's disk are not committed, and after the rotation the
    source reads the new file.
  */
  lemma RotationCanLose(path: string, replacement: string, bytes: Bytes) returns (w: World)
    requires replacement != path && !NoNewline(bytes)
    ensures Reachable(path, w) && Enabled(w, Rotates(true)) && w.agent.source.identity == path
    ensures path in w.files && RecordsOf(w.committed, path) != Lines(w.files[path])
    ensures Rotate(w, true).agent == OpenAt(replacement, 0)
    ensures RecordsOf(Rotate(w, true).committed, path) != Lines(w.files[path])
  {
    hide Reachable, RecordsOf, Lines, NoNewline;
    EmptyNoNewline();
    NoLinesIff(bytes);
    w := Start(path);
    StartReachable(path);
    w := After(path, w, Starts);
    w := After(path, w, ReachesEnd);
    w := After(path, w, Recreates(replacement));
    w := After(path, w, Detects(true));
    w := After(path, w, ReachesEnd);
    w := After(path, w, Detects(true));
    w := After(path, w, Writes(path, bytes));
    assert [] + bytes == bytes && w.files[path] == bytes;
    NothingCommitted(path);
  }

  lemma After(path: string, w: World, step: Step) returns (w': World)
    requires Reachable(path, w) && Enabled(w, step)
    ensures w' == Next(w, step) && Reachable(path, w')
  {
    hide Reachable, Next, Enabled;
    ReachableNext(path, w, step);
    w' := Next(w, step);
  }

  lemma StartReachable(path: string)
    ensures Reachable(path, Start(path))
  {
    assert Run(path, []) == Start(path);
  }

  lemma NothingCommitted(f: string)
    ensures RecordsOf([], f) == []
  {}

  /**
    A path that is renamed back to an earlier file. When it is opened again, by a restart or by a live
    rotation, its records stay exactly its lines up to its mark if and only if the file is the one
    being tailed or nothing of it was committed; otherwise it is read again from its beginning.
  */
  lemma RestoreExact(w: World, f: string)
    requires Inv(w) && f in w.files
    ensures w.agent.Stopped? ==> (FileExact(StartAgent(w.(path := f)), f) <==> Fresh(w, f))
    ensures Enabled(w, Rotates(true)) && f != w.agent.source.identity ==>
              (FileExact(Rotate(w.(path := f), true), f) <==> Fresh(w, f))
  {
    if Enabled(w, Rotates(true)) { CaughtUp(w); }
    assert FileExact(w, f);
    hide Lines, Complete, NoNewline, RecordsOf, Inv;
    assert w.files[f][..0] == [];
    EmptyLines();
    CompleteEmpty();
    if Mark(w, f) > 0 { CompleteHasLines(w.files[f][..Mark(w, f)]); }
    InvPath(w);
  }

  /** Steps that can happen one after the other lead from one state to another. */
  ghost predicate Leads(w: World, steps: seq<Step>, w': World)
    decreases |steps|
  {
    if steps == [] then w' == w
    else Enabled(w, steps[0]) && Leads(Next(w, steps[0]), steps[1..], w')
  }

  lemma LeadsFirst(w: World, step: Step, steps: seq<Step>, w': World)
    requires Enabled(w, step) && Leads(Next(w, step), steps, w')
    ensures Leads(w, [step] + steps, w')
  {
    hide Enabled, Next;
    assert ([step] + steps)[1..] == steps;
  }

  /** The source can read a complete stretch of its file line by line, and the pipeline can commit it. */
  lemma ReadsOn(w: World, end: nat) returns (steps: seq<Step>, w': World)
    requires w.agent.Running? && w.agent.handoff.None? && w.agent.source.phase.Reading? && w.agent.source.pending == []
    requires w.agent.source.identity in w.files && AllOf(w.agent.entries, w.agent.source.identity)
    requires w.agent.source.readOffset <= end <= |w.files[w.agent.source.identity]|
    requires Complete(w.files[w.agent.source.identity][w.agent.source.readOffset..end])
    ensures Leads(w, steps, w') && w'.files == w.files
    ensures var s := w.agent.source;
            RecordsOf(w'.committed, s.identity)
            == RecordsOf(w.committed, s.identity) + Contents(w.agent.entries) + Lines(w.files[s.identity][s.readOffset..end])
    decreases end - w.agent.source.readOffset
  {
    hide Lines, Complete, NoNewline, Contents, RecordsOf, Content, Leads;
    var s, es := w.agent.source, w.agent.entries;
    var text := w.files[s.identity][s.readOffset..end];
    if s.readOffset == end {
      EmptyLines();
      w' := Next(w, Flushes(true));
      CommitsEntries(w);
      LeadsNowhere(w');
      LeadsFirst(w, Flushes(true), [], w');
      steps := [Flushes(true)] + [];
    } else {
      var line, rest := SplitLine(text);
      OneLine(line, rest);
      var w1 := ReadsLine(w, line, rest, end);
      var more;
      more, w' := ReadsOn(w1, end);
      ContentsConcat(es, [w1.agent.entries[|es|]]);
      OneContent(w1.agent.entries[|es|]);
      LeadsFirst(Next(w, Reads(|line|)), Takes, more, w');
      LeadsFirst(w, Reads(|line|), [Takes] + more, w');
      steps := [Reads(|line|)] + ([Takes] + more);
    }
  }

  lemma LeadsNowhere(w: World)
    ensures Leads(w, [], w)
  {}

  lemma OneContent(r: Record)
    ensures Contents([r]) == [r.content]
  {}

  /** A flush commits the buffered records. */
  lemma CommitsEntries(w: World)
    requires w.agent.Running? && AllOf(w.agent.entries, w.agent.source.identity)
    ensures var f := w.agent.source.identity;
            RecordsOf(Flush(w, true).committed, f) == RecordsOf(w.committed, f) + Contents(w.agent.entries)
    ensures Flush(w, true).files == w.files
  {
    var f := w.agent.source.identity;
    RecordsConcat(w.committed, w.agent.entries, f);
    RecordsOfOne(w.agent.entries, f, f);
  }

  /** One line is read and taken. */
  lemma ReadsLine(w: World, line: Bytes, rest: Bytes, end: nat) returns (w': World)
    requires w.agent.Running? && w.agent.handoff.None? && w.agent.source.phase.Reading? && w.agent.source.pending == []
    requires w.agent.source.identity in w.files && AllOf(w.agent.entries, w.agent.source.identity)
    requires w.agent.source.readOffset <= end <= |w.files[w.agent.source.identity]|
    requires w.files[w.agent.source.identity][w.agent.source.readOffset..end] == line + [NEWLINE] + rest && NoNewline(line)
    ensures Enabled(w, Reads(|line|)) && Enabled(Next(w, Reads(|line|)), Takes)
    ensures w' == Next(Next(w, Reads(|line|)), Takes)
    ensures w'.files == w.files && w'.committed == w.committed && w'.agent.Running? && w'.agent.handoff.None?
    ensures var s, s' := w.agent.source, w'.agent.source;
            && s'.phase.Reading? && s'.pending == [] && s'.identity == s.identity
            && s'.readOffset == s.readOffset + |line| + 1 && w.files[s.identity][s'.readOffset..end] == rest
            && |w'.agent.entries| == |w.agent.entries| + 1 && w'.agent.entries[..|w.agent.entries|] == w.agent.entries
            && w'.agent.entries[|w.agent.entries|].content == Content(line)
    ensures AllOf(w'.agent.entries, w.agent.source.identity)
  {
    hide NoNewline, Content;
    var s := w.agent.source;
    var file := w.files[s.identity];
    var text := file[s.readOffset..end];
    assert text[..|line|] == line && text[|line|] == NEWLINE && text[|line| + 1..] == rest;
    assert file[s.readOffset..s.readOffset + |line|] == text[..|line|];
    assert file[s.readOffset + |line|] == text[|line|];
    var chunk := file[s.readOffset..s.readOffset + |line| + 1];
    assert [] + chunk[..|chunk| - 1] == line;
    assert file[s.readOffset + |line| + 1..end] == text[|line| + 1..];
    w' := Next(Next(w, Reads(|line|)), Takes);
  }

  /** The path is back at `f`, and a restart or a live rotation has opened it. */
  ghost predicate Reopened(w: World, f: string, w': World) {
    || (w.agent.Stopped? && w' == StartAgent(w.(path := f)))
    || (Enabled(w, Rotates(true)) && f != w.agent.source.identity && w' == Rotate(w.(path := f), true))
  }

  /** A file that is not the tailed one, and of which something is committed, is opened at its beginning. */
  lemma ReopenedAtStart(w: World, f: string, reopened: World)
    requires Inv(w) && f in w.files && !Fresh(w, f) && Reopened(w, f, reopened)
    ensures reopened.agent == OpenAt(f, 0) && reopened.files == w.files && reopened.committed == w.committed
  {
    if Enabled(w, Rotates(true)) { CaughtUp(w); }
    hide DurableOk, SourceOk, BufferOk;
  }

  /**
    What happens otherwise: from every state in which something of the file is committed and the
    checkpoint is elsewhere, opening the file again can commit all of its committed lines once more.
  */
  lemma RestoredTwice(w: World, f: string, reopened: World) returns (steps: seq<Step>, w': World)
    requires Inv(w) && f in w.files && !Fresh(w, f) && Reopened(w, f, reopened)
    ensures Leads(reopened, steps, w') && w'.files == w.files && Mark(w, f) <= |w.files[f]|
    ensures var lines := Lines(w.files[f][..Mark(w, f)]);
            lines != [] && RecordsOf(w'.committed, f) == lines + lines
  {
    assert FileExact(w, f);
    hide Lines, Complete, NoNewline, RecordsOf, Inv, Leads, Reopened;
    CompleteHasLines(w.files[f][..Mark(w, f)]);
    ReopenedAtStart(w, f, reopened);
    assert w.files[f][0..Mark(w, f)] == w.files[f][..Mark(w, f)];
    steps, w' := ReadsOn(reopened, Mark(w, f));
    NoContents();
    assert RecordsOf(w.committed, f) + [] == RecordsOf(w.committed, f);
  }

  lemma NoContents()
    ensures Contents([]) == []
  {}

  /** Such states are reached: a line is read and committed, the file is replaced, and the Agent restarts. */
  lemma ReplacedAfterCommit(path: string, other: string, line: Bytes) returns (w: World)
    requires other != path && NoNewline(line)
    ensures Reachable(path, w) && w.agent.Stopped? && path in w.files && !Fresh(w, path)
  {
    hide Reachable, NoNewline, Content, Fresh;
    w := FirstLineCommitted(path, line);
    w := After(path, w, Recreates(other));
    w := After(path, w, Stops);
    w := After(path, w, Starts);
    w := After(path, w, Stops);
    NotFreshAt(w, path);
  }

  lemma NotFreshAt(w: World, f: string)
    requires Mark(w, f) > 0 && w.checkpoint.Some? && w.checkpoint.value.identity != f
    ensures !Fresh(w, f)
  {}

  lemma FirstLineCommitted(path: string, line: Bytes) returns (w: World)
    requires NoNewline(line)
    ensures Reachable(path, w) && w.agent.Running? && w.path == path && w.files.Keys == {path}
    ensures Mark(w, path) > 0 && w.checkpoint == Some(Position(path, Mark(w, path)))
  {
    hide Reachable, NoNewline, Content, Fresh;
    var text := line + [NEWLINE];
    w := Start(path);
    StartReachable(path);
    w := After(path, w, Starts);
    w := After(path, w, Writes(path, text));
    assert [] + text == text && text[0..|line|] == line;
    w := After(path, w, Reads(|line|));
    w := After(path, w, Takes);
    w := After(path, w, Flushes(true));
  }

  lemma CompleteHasLines(s: Bytes)
    requires Complete(s) && s != []
    ensures Lines(s) != []
  {
    hide Lines;
    assert s[|s| - 1] in s;
    NoLinesIff(s);
  }

  lemma InvPath(w: World)
    requires Inv(w)
    ensures w.checkpoint.Some? ==> Mark(w, w.checkpoint.value.identity) == w.checkpoint.value.offset
    ensures w.agent.Running? ==> w.checkpoint.Some? && w.checkpoint.value.identity == w.agent.source.identity
  {
    hide FileExact, BufferOk;
  }

  // ---- the source object

  /** One turn of NextRecord's loop: what ReadString returned, and the file that the path named afterwards. */
  datatype Read = Read(chunk: Bytes, path: string)

  /** ReadString stops at the first newline or at the end of the file. */
  predicate ReadString(chunk: Bytes) { chunk == [] || NoNewline(chunk[..|chunk| - 1]) }

  datatype Outcome = Got(record: Record) | Cancelled | PartialRecord | RotationRequired

  /** One turn: the outcome with which NextRecord returns, or None to go on. */
  function Turn(s: Source, turn: Read): (Source, Option<Outcome>) {
    var chunk := turn.chunk;
    if chunk != [] && chunk[|chunk| - 1] == NEWLINE then
      var (next, record) := Completed(s, chunk);
      (next, Some(Got(record)))
    else
      var ended := Accumulated(s, chunk);
      match DetectRotation(ended, turn.path)
      case None => (ended, Some(PartialRecord))
      case Some(next) => (next, if next.phase.RotationDue? then Some(RotationRequired) else None)
  }

  /** NextRecord on the turns that happen until it returns. */
  function Poll(s: Source, turns: seq<Read>): (Source, Outcome)
    decreases |turns|
  {
    if turns == [] then (s, Cancelled)
    else
      var (next, out) := Turn(s, turns[0]);
      if out.Some? then (next, out.value) else Poll(next, turns[1..])
  }

  function Joined(turns: seq<Read>): Bytes {
    if turns == [] then [] else turns[0].chunk + Joined(turns[1..])
  }

  /**
    How the file was chunked does not matter: the record is the one line that the pending bytes and
    the turns spell together, ending where they end.
  */
  lemma {:induction false} PollReadsALine(s: Source, turns: seq<Read>) returns (used: nat, line: Bytes)
    requires NoNewline(s.pending) && Poll(s, turns).1.Got? && forall r :: r in turns ==> ReadString(r.chunk)
    ensures used <= |turns| && s.pending + Joined(turns[..used]) == line + [NEWLINE] && NoNewline(line)
    ensures Poll(s, turns).1.record == Record(s.identity, Content(line), s.readOffset + |Joined(turns[..used])|)
    ensures var content := Poll(s, turns).1.record.content;
            if line != [] && line[|line| - 1] == RETURN then line == content + [RETURN] else line == content
    decreases |turns|
  {
    hide Content, Joined, NoNewline, ReadString, Turn;
    var chunk := turns[0].chunk;
    assert turns[0] in turns;
    JoinedFirst(turns, 0);
    if Turn(s, turns[0]).1.Some? {
      TurnEnds(s, turns[0]);
      ContentExact(s.pending + chunk[..|chunk| - 1]);
      used, line := 1, s.pending + chunk[..|chunk| - 1];
    } else {
      var next := Turn(s, turns[0]).0;
      TurnGoesOn(s, turns[0]);
      assert forall r :: r in turns[1..] ==> r in turns;
      var more: nat;
      more, line := PollReadsALine(next, turns[1..]);
      used := more + 1;
      JoinedFirst(turns, more);
      assert s.pending + (chunk + Joined(turns[1..][..more])) == s.pending + chunk + Joined(turns[1..][..more]);
    }
  }

  datatype Fate = Goes | Completes | Breaks | Turns

  /**
    What the n-th turn does, from everything read so far: a newline completes the record; a path that
    names another file is an error after part of a line, and a rotation when it did so the last time too.
  */
  function FateAt(s: Source, turns: seq<Read>, n: nat): Fate
    requires n < |turns|
  {
    var chunk, text := turns[n].chunk, s.pending + Joined(turns[..n + 1]);
    var before := if n == 0 then s.rotationSeen >= 1 else turns[n - 1].path != s.identity;
    if chunk != [] && chunk[|chunk| - 1] == NEWLINE then Completes
    else if turns[n].path == s.identity then Goes
    else if text != [] then Breaks
    else if before then Turns
    else Goes
  }

  /** NextRecord returns at the first turn that does not go on, with that turn's outcome. */
  lemma {:induction false} PollDecides(s: Source, turns: seq<Read>, n: nat)
    requires n <= |turns| && forall m :: 0 <= m < n ==> FateAt(s, turns, m).Goes?
    ensures n == |turns| ==> Poll(s, turns).1.Cancelled?
    ensures n < |turns| ==>
              var out := Poll(s, turns).1;
              && (FateAt(s, turns, n).Completes? ==> out.Got?)
              && (FateAt(s, turns, n).Breaks? ==> out.PartialRecord?)
              && (FateAt(s, turns, n).Turns? ==> out.RotationRequired?)
    decreases |turns|
  {
    hide Content, Joined, FateAt;
    if turns != [] {
      FirstFate(s, turns);
      if n > 0 {
        assert FateAt(s, turns, 0).Goes?;
        var next := Turn(s, turns[0]).0;
        forall m | 0 < m < |turns| ensures FateAt(next, turns[1..], m - 1) == FateAt(s, turns, m) { LaterFate(s, turns, m); }
        forall m | 0 <= m < n - 1 ensures FateAt(next, turns[1..], m).Goes? { assert FateAt(s, turns, m + 1).Goes?; }
        PollDecides(next, turns[1..], n - 1);
      }
    }
  }

  lemma FirstFate(s: Source, turns: seq<Read>)
    requires turns != []
    ensures var (next, out) := Turn(s, turns[0]);
            match FateAt(s, turns, 0)
            case Goes => out.None?
            case Completes => out.Some? && out.value.Got?
            case Breaks => out == Some(PartialRecord)
            case Turns => out == Some(RotationRequired)
  {
    hide Content;
    assert turns[..1] == [turns[0]];
    assert Joined(turns[..1]) == turns[0].chunk + [] == turns[0].chunk;
  }

  lemma LaterFate(s: Source, turns: seq<Read>, n: nat)
    requires 0 < n < |turns| && FateAt(s, turns, 0).Goes?
    ensures FateAt(Turn(s, turns[0]).0, turns[1..], n - 1) == FateAt(s, turns, n)
  {
    hide Content;
    assert turns[..1] == [turns[0]];
    assert Joined(turns[..1]) == turns[0].chunk + [] == turns[0].chunk;
    JoinedFirst(turns, n);
    hide Joined;
    var next := Turn(s, turns[0]).0;
    assert next.pending == s.pending + turns[0].chunk;
    assert next.pending + Joined(turns[1..][..n]) == s.pending + Joined(turns[..n + 1]);
  }

  lemma JoinedFirst(turns: seq<Read>, more: nat)
    requires more < |turns|
    ensures Joined(turns[..more + 1]) == turns[0].chunk + Joined(turns[1..][..more])
    ensures Joined(turns[..1]) == turns[0].chunk
  {
    assert turns[..more + 1][1..] == turns[1..][..more];
    assert turns[..1][1..] == [];
  }

  lemma TurnEnds(s: Source, turn: Read)
    requires NoNewline(s.pending) && ReadString(turn.chunk) && Turn(s, turn).1.Some? && Turn(s, turn).1.value.Got?
    ensures turn.chunk != []
    ensures var line := s.pending + turn.chunk[..|turn.chunk| - 1];
            && s.pending + turn.chunk == line + [NEWLINE] && NoNewline(line)
            && Turn(s, turn).1.value.record == Record(s.identity, Content(line), s.readOffset + |turn.chunk|)
  {
    hide Content;
    NoNewlineConcat(s.pending, turn.chunk[..|turn.chunk| - 1]);
  }

  lemma TurnGoesOn(s: Source, turn: Read)
    requires NoNewline(s.pending) && ReadString(turn.chunk) && Turn(s, turn).1.None?
    ensures var next := Turn(s, turn).0;
            && next.identity == s.identity && next.pending == s.pending + turn.chunk && NoNewline(next.pending)
            && next.readOffset == s.readOffset + |turn.chunk|
  {
    hide Content;
    var chunk := turn.chunk;
    assert chunk == [] || chunk == chunk[..|chunk| - 1] + [chunk[|chunk| - 1]];
    NoNewlineConcat(s.pending, chunk);
  }

  class DurableFileSource {
    var identity: string
    var readOffset: nat
    var pending: Bytes
    var rotationSeen: nat
    var phase: Phase

    constructor (identity: string, offset: nat)
      ensures Value() == Source(identity, offset, [], 0, Reading)
    {
      this.identity := identity;
      readOffset := offset;
      pending := [];
      rotationSeen := 0;
      phase := Reading;
    }

    ghost function Value(): Source
      reads this
    {
      Source(identity, readOffset, pending, rotationSeen, phase)
    }

    /** The body of NextRecord's loop. */
    method TakeTurn(turn: Read) returns (out: Option<Outcome>)
      modifies this
      ensures (Value(), out) == Turn(old(Value()), turn)
    {
      hide Content;
      var chunk := turn.chunk;
      if chunk != [] && chunk[|chunk| - 1] == NEWLINE {
        var line := pending + chunk[..|chunk| - 1];
        readOffset := readOffset + |chunk|;
        pending := [];
        rotationSeen := 0;
        phase := Reading;
        return Some(Got(Record(identity, Content(line), readOffset)));
      }
      pending := pending + chunk;
      readOffset := readOffset + |chunk|;
      phase := AtEnd;
      if turn.path == identity {
        rotationSeen := 0;
      } else {
        if pending != [] { return Some(PartialRecord); }
        rotationSeen := rotationSeen + 1;
        if rotationSeen >= 2 {
          phase := RotationDue;
          return Some(RotationRequired);
        }
      }
      phase := Reading;
      return None;
    }

    /** NextRecord: read until a line is complete, looking for a rotation at every end of file. */
    method NextRecord(turns: seq<Read>) returns (out: Outcome)
      modifies this
      ensures (Value(), out) == Poll(old(Value()), turns)
    {
      hide Turn;
      for i := 0 to |turns|
        invariant Poll(Value(), turns[i..]) == Poll(old(Value()), turns)
      {
        assert turns[i..][0] == turns[i] && turns[i..][1..] == turns[i + 1..];
        var done := TakeTurn(turns[i]);
        if done.Some? { return done.value; }
      }
      return Cancelled;
    }
  }

  // ---- the pipeline object

  /** How one attempt to commit ended. */
  datatype Attempt = Committed | Full | Broken

  /** The part of runPipeline that collects records and commits them; the durable fields are the spool's. */
  class Pipeline {
    var entries: seq<Record>
    var last: Position
    var committed: seq<Record>
    var checkpoint: Option<Position>

    /** The buffer's checkpoint is that of its last record. */
    ghost predicate Valid()
      reads this
    {
      entries != [] ==> last == Position(entries[|entries| - 1].identity, entries[|entries| - 1].end)
    }

    constructor (committed: seq<Record>, checkpoint: Option<Position>)
      ensures Valid() && entries == [] && this.committed == committed && this.checkpoint == checkpoint
    {
      entries := [];
      last := Position("", 0);
      this.committed := committed;
      this.checkpoint := checkpoint;
    }

    method Receive(r: Record)
      requires Valid()
      modifies `entries, `last
      ensures Valid() && entries == old(entries) + [r]
    {
      entries := entries + [r];
      last := Position(r.identity, r.end);
    }

    /** flush: while the spool is full, wait and try again; the attempts are what happens in turn. */
    method FlushEntries(attempts: seq<Attempt>) returns (ok: bool)
      requires Valid()
      modifies this
      ensures Valid()
      ensures ok <==> old(entries) == [] || exists i :: 0 <= i < |attempts| && attempts[i].Committed?
                                                        && forall j :: 0 <= j < i ==> attempts[j].Full?
      ensures ok && old(entries) != [] ==>
                && entries == [] && committed == old(committed) + old(entries)
                && checkpoint == Some(Position(old(entries)[|old(entries)| - 1].identity, old(entries)[|old(entries)| - 1].end))
      ensures !ok || old(entries) == [] ==>
                entries == old(entries) && committed == old(committed) && checkpoint == old(checkpoint)
    {
      if entries == [] { return true; }
      var i := 0;
      while i < |attempts| && attempts[i].Full?
        invariant i <= |attempts| && forall j :: 0 <= j < i ==> attempts[j].Full?
      {
        i := i + 1;
      }
      if i == |attempts| || attempts[i].Broken? { return false; }
      committed := committed + entries;
      checkpoint := Some(last);
      entries := [];
      return true;
    }
  }
}
