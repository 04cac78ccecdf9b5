/** The Agent's delivery loop: which batch is sent next, and what each result does to the spool and the schedule. */
module Dispatcher {
  import opened Prelude
  import opened Framing
  import opened Text
  import opened Spool
  import opened Wal
  import opened WalFile
  import opened Transport

  datatype Options = Options(baseDelay: int, maxDelay: int)

  /** What NewDispatcher accepts, after its defaults. */
  predicate ValidOptions(o: Options) { 0 < o.baseDelay <= o.maxDelay }

  // ---- back-off

  function Pow2(n: nat): nat { if n == 0 then 1 else 2 * Pow2(n - 1) }

  function MinInt(a: int, b: int): int { if a <= b then a else b }

  /** The delay before attempt number `attempt` is repeated, without jitter. */
  function Exponential(attempt: int, base: int, maximum: int): int {
    MinInt(maximum, base * Pow2(if attempt < 1 then 0 else attempt - 1))
  }

  lemma {:induction false} Pow2Monotone(m: nat, n: nat)
    requires m <= n
    ensures Pow2(m) <= Pow2(n)
  {
    if m < n { Pow2Monotone(m, n - 1); }
  }

  lemma TimesLarger(base: int, x: int, y: int)
    requires base > 0 && x <= y
    ensures base * x <= base * y
  {
    assert base * (y - x) >= 0;
  }

  /** Once the maximum is reached, more attempts change nothing. */
  lemma Saturated(base: int, m: nat, n: nat, maximum: int)
    requires base > 0 && m <= n && base * Pow2(m) >= maximum
    ensures base * Pow2(n) >= maximum
  {
    Pow2Monotone(m, n);
    TimesLarger(base, Pow2(m), Pow2(n));
  }

  /** Backoff without jitter; doubling stops before it could pass the maximum. */
  method BackoffDelay(attempt: int, base: int, maximum: int) returns (delay: int)
    requires base > 0 && maximum > 0
    ensures delay == Exponential(attempt, base, maximum)
    ensures 0 < delay <= maximum
  {
    hide Pow2;
    var n := if attempt < 1 then 1 else attempt;
    delay := base;
    PowZero();
    var index := 1;
    while index < n && delay < maximum
      invariant 1 <= index <= n && 0 < delay
      invariant delay == base * Pow2(index - 1) || (delay == maximum && base * Pow2(index - 1) >= maximum)
      decreases n - index
    {
      PowNext(base, index - 1);
      if delay > maximum / 2 {
        delay := maximum;
        Saturated(base, index, n - 1, maximum);
        break;
      }
      assert delay * 2 <= maximum;
      delay := delay * 2;
      index := index + 1;
    }
    if base * Pow2(index - 1) >= maximum { Saturated(base, index - 1, n - 1, maximum); }
    if delay > maximum { delay := maximum; }
  }

  lemma PowZero()
    ensures Pow2(0) == 1
  {}

  lemma PowNext(base: int, n: nat)
    ensures base * Pow2(n + 1) == base * Pow2(n) * 2
  {}

  /** Jitter multiplies by a random factor and clamps the result. */
  function Jittered(delay: int, factor: real, maximum: int): (jittered: int)
    ensures maximum >= 0 ==> 0 <= jittered <= maximum
  {
    var j := (delay as real * factor).Floor;
    if j < 0 then 0 else if j > maximum then maximum else j
  }

  /** The delay that Run applies: at least what the server asked for, at most the maximum. */
  function Applied(backoff: int, retryAfter: int, maximum: int): (delay: int)
    requires 0 <= backoff <= maximum
    ensures 0 <= delay <= maximum
    ensures delay >= backoff && delay >= MinInt(retryAfter, maximum)
    ensures delay == backoff || delay == MinInt(retryAfter, maximum)
  {
    MinInt(if retryAfter > backoff then retryAfter else backoff, maximum)
  }

  /**
    How long a batch is put off after its n-th failure in a row: exponential, jittered and clamped, the
    server's wait if that is longer, and never more than the maximum.
  */
  predicate RightDelay(o: Options, n: nat, retryAfter: int, factor: real, delay: int)
    requires n >= 1
  {
    var grown := o.baseDelay * Pow2(n - 1);
    var e := if grown > o.maxDelay then o.maxDelay else grown;
    var j := (e as real * factor).Floor;
    var own := if j < 0 then 0 else if j > o.maxDelay then o.maxDelay else j;
    var asked := if retryAfter > own then retryAfter else own;
    delay == if asked > o.maxDelay then o.maxDelay else asked
  }

  /** The steps of the code compute it. */
  lemma DelayIsRight(o: Options, n: nat, retryAfter: int, factor: real)
    requires ValidOptions(o) && n >= 1
    ensures var own := Jittered(Exponential(n, o.baseDelay, o.maxDelay), factor, o.maxDelay);
            RightDelay(o, n, retryAfter, factor, Applied(own, retryAfter, o.maxDelay))
  {
    hide Pow2, Jittered;
    var grown := o.baseDelay * Pow2(n - 1);
    var e := if grown > o.maxDelay then o.maxDelay else grown;
    assert Exponential(n, o.baseDelay, o.maxDelay) == e;
    JitteredIs(e, factor, o.maxDelay);
  }

  lemma JitteredIs(delay: int, factor: real, maximum: int)
    ensures var j := (delay as real * factor).Floor;
            Jittered(delay, factor, maximum) == if j < 0 then 0 else if j > maximum then maximum else j
  {}

  /** Without jitter the wait is at least the exponential one and, up to the maximum, the server's. */
  lemma DelayAtLeast(o: Options, n: nat, retryAfter: int, delay: int)
    requires ValidOptions(o) && n >= 1 && RightDelay(o, n, retryAfter, 1.0, delay)
    ensures 0 < delay <= o.maxDelay
    ensures delay == o.maxDelay || (delay >= o.baseDelay * Pow2(n - 1) && delay >= retryAfter)
    ensures o.maxDelay >= retryAfter >= o.baseDelay * Pow2(n - 1) ==> delay == retryAfter
  {
    Pow2Monotone(0, n - 1);
    TimesLarger(o.baseDelay, 1, Pow2(n - 1));
    hide Pow2;
  }

  // ---- the choice of the next batch

  predicate Ready(blocked: map<string, int>, now: int, c: Commit) {
    c.batchId !in blocked || blocked[c.batchId] <= now
  }

  /** The first batch that may be sent, or how long to wait for one; no wait means: until something changes. */
  datatype Choice = Send(commit: Commit) | Wait(wait: int)

  ghost predicate IsFirstReady(pending: seq<Commit>, blocked: map<string, int>, now: int, c: Commit) {
    exists i :: 0 <= i < |pending| && pending[i] == c && Ready(blocked, now, c)
                && forall j :: 0 <= j < i ==> !Ready(blocked, now, pending[j])
  }

  ghost predicate IsEarliest(pending: seq<Commit>, blocked: map<string, int>, at: int) {
    && (exists i :: 0 <= i < |pending| && pending[i].batchId in blocked && blocked[pending[i].batchId] == at)
    && forall i :: 0 <= i < |pending| ==> pending[i].batchId in blocked && at <= blocked[pending[i].batchId]
  }

  /** What the choice must be; it is determined by the pending batches, the schedule and the clock. */
  ghost predicate RightChoice(pending: seq<Commit>, blocked: map<string, int>, now: int, choice: Choice) {
    match choice
    case Send(c) => IsFirstReady(pending, blocked, now, c)
    case Wait(wait) =>
      if pending == [] then wait == 0
      else wait > 0 && IsEarliest(pending, blocked, now + wait)
  }

  lemma ChoiceUnique(pending: seq<Commit>, blocked: map<string, int>, now: int, a: Choice, b: Choice)
    requires RightChoice(pending, blocked, now, a) && RightChoice(pending, blocked, now, b)
    ensures a == b
  {
    if a.Wait? && b.Wait? && pending != [] {
      var i :| 0 <= i < |pending| && pending[i].batchId in blocked && blocked[pending[i].batchId] == now + a.wait;
      var j :| 0 <= j < |pending| && pending[j].batchId in blocked && blocked[pending[j].batchId] == now + b.wait;
      assert now + a.wait <= blocked[pending[j].batchId] && now + b.wait <= blocked[pending[i].batchId];
    }
  }

  /** The pending batches of a spool, oldest first. */
  ghost function Listed(ix: Index): (pending: seq<Commit>)
    ensures |pending| == |PendingIds(ix)|
  {
    ActivePendingMembers(ix);
    var ids := PendingIds(ix);
    seq(|ids|, i requires 0 <= i < |ids| && ids[i] in ix.pending => ix.pending[ids[i]])
  }

  /** nextPending's scan, with the zero time standing for no unblocking time seen yet. */
  method ScanPending(pending: seq<Commit>, blocked: map<string, int>, now: int) returns (choice: Choice)
    requires now >= 0
    ensures RightChoice(pending, blocked, now, choice)
  {
    if pending == [] { return Wait(0); }
    var earliest := 0;
    for i := 0 to |pending|
      invariant forall j :: 0 <= j < i ==> !Ready(blocked, now, pending[j])
      invariant i == 0 ==> earliest == 0
      invariant i > 0 ==> earliest > now && IsEarliest(pending[..i], blocked, earliest)
    {
      var c := pending[i];
      if Ready(blocked, now, c) { return Send(c); }
      var at := blocked[c.batchId];
      if earliest == 0 || at < earliest {
        assert pending[..i + 1][i] == c;
        earliest := at;
      } else {
        var j :| 0 <= j < i && pending[..i][j].batchId in blocked && blocked[pending[..i][j].batchId] == earliest;
        assert pending[..i + 1][j] == pending[..i][j];
      }
      assert forall j :: 0 <= j < i ==> pending[..i + 1][j] == pending[..i][j];
    }
    assert pending[..|pending|] == pending;
    return Wait(earliest - now);
  }

  /** A result of the transport, and the environment's part in handling it. */
  datatype Handling = Handling(clock: int, factor: real, io: bool, swap: Swap)

  /** The hypothesis on sizes that Quarantine does not check: the record that a reply may lead to fits. */
  ghost predicate MarkFits(k: Codec, id: string, result: SendResult, h: Handling) {
    result.kind.Quarantine? ==> EventFits(k, Quarantines(id, result.status, result.code, h.clock, h.io))
  }

  /** One turn of Run: when it chooses, and what the transport answers if it sends. */
  datatype Turn = Turn(now: int, result: SendResult, handling: Handling)

  /** The reply may be to any of the batches `ids`. */
  ghost predicate TurnFits(k: Codec, ids: set<string>, t: Turn) {
    t.now >= 0 && forall id :: id in ids ==> MarkFits(k, id, t.result, t.handling)
  }

  /** A batch that was sent, when, what came of it, and until when it is put off if it is. */
  datatype Sent = Sent(commit: Commit, result: SendResult, handling: Handling, now: int, until: int)

  predicate Positive(s: Sent) { s.result.kind.Accepted? || s.result.kind.Duplicate? }

  predicate Postponing(s: Sent) { s.result.kind.Retryable? || s.result.kind.Blocked? }

  function Get<V>(m: map<string, V>, id: string): Option<V> { if id in m then Some(m[id]) else None }

  function OrZero(n: Option<nat>): nat { match n case None => 0 case Some(v) => v }

  /** Until when a batch is put off, from what was sent: its last reply decides. */
  function Block(before: map<string, int>, sent: seq<Sent>, id: string): Option<int> {
    if sent == [] then Get(before, id)
    else
      var last := sent[|sent| - 1];
      if last.commit.batchId != id then Block(before, sent[..|sent| - 1], id)
      else if Postponing(last) then Some(last.until) else None
  }

  /** How often in a row a batch has failed. */
  function Tries(before: map<string, nat>, sent: seq<Sent>, id: string): Option<nat> {
    if sent == [] then Get(before, id)
    else
      var last := sent[|sent| - 1];
      if last.commit.batchId != id then Tries(before, sent[..|sent| - 1], id)
      else if Postponing(last) then Some(OrZero(Tries(before, sent[..|sent| - 1], id)) + 1) else None
  }

  /** The i-th batch was sent when its block had passed, and was put off by the right time if it failed. */
  ghost predicate SentRight(
      o: Options, attempts: map<string, nat>, blocked: map<string, int>, sent: seq<Sent>, i: nat)
    requires i < |sent|
  {
    var s := sent[i];
    var block, tries := Block(blocked, sent[..i], s.commit.batchId), Tries(attempts, sent[..i], s.commit.batchId);
    && (block.Some? ==> block.value <= s.now)
    && (Postponing(s) ==>
          RightDelay(o, OrZero(tries) + 1, s.result.retryAfter, s.handling.factor, s.until - s.handling.clock))
  }

  /** The batch was sent and acknowledged. */
  ghost predicate Acknowledged(sent: seq<Sent>, id: string) {
    exists i :: 0 <= i < |sent| && sent[i].commit.batchId == id && Positive(sent[i])
  }

  lemma AcknowledgedLater(sent: seq<Sent>, s: Sent, id: string)
    ensures Acknowledged(sent, id) ==> Acknowledged(sent + [s], id)
    ensures s.commit.batchId == id && Positive(s) ==> Acknowledged(sent + [s], id)
  {
    assert (sent + [s])[|sent|] == s;
    if Acknowledged(sent, id) {
      var i :| 0 <= i < |sent| && sent[i].commit.batchId == id && Positive(sent[i]);
      assert (sent + [s])[i] == sent[i];
    }
  }

  /** What a schedule keeps about the batches that a reply is not about. */
  ghost predicate SameOthers<V>(before: map<string, V>, after: map<string, V>, id: string) {
    forall x :: x != id ==> (x in after <==> x in before) && (x in after ==> after[x] == before[x])
  }

  lemma SameAsBefore<V>(schedule: map<string, V>, id: string)
    ensures SameOthers(schedule, schedule, id)
  {}

  /** The spool after an operation, and whether the loop goes on. */
  function Settled(r: (State, Outcome)): (State, bool) { (r.0, r.1 == Done) }

  class Dispatcher {
    const wal: WAL
    const options: Options
    var attempts: map<string, nat>
    var blockedUntil: map<string, int>

    constructor (wal: WAL, options: Options)
      ensures this.wal == wal && this.options == options && attempts == map[] && blockedUntil == map[]
    {
      this.wal := wal;
      this.options := options;
      attempts := map[];
      blockedUntil := map[];
    }

    /** nextPending: with an empty schedule it only peeks, and the answer is the one of the full scan. */
    method NextPending(now: int) returns (choice: Choice)
      requires now >= 0
      ensures RightChoice(Listed(wal.Live()), blockedUntil, now, choice)
    {
      hide PendingIds;
      ActivePendingMembers(wal.Live());
      if blockedUntil == map[] {
        var first := wal.Peek();
        if first.None? { return Wait(0); }
        assert Listed(wal.Live())[0] == first.value && Ready(blockedUntil, now, first.value);
        return Send(first.value);
      }
      var pending := wal.Pending();
      assert pending == Listed(wal.Live());
      choice := ScanPending(pending, blockedUntil, now);
    }

    /** The part of Run after a reply: false ends the loop. */
    method Handle(c: Commit, result: SendResult, h: Handling) returns (goOn: bool)
      requires ValidOptions(options) && wal.Valid()
      modifies this, wal
      ensures result.kind.Accepted? || result.kind.Duplicate? ==>
                && (wal.Value(), goOn) == Settled(AckOp(wal.k, old(wal.Value()), c.batchId, h.io, h.swap))
                && (h.io && !old(wal.closed) ==> c.batchId !in wal.pending && c.batchId !in wal.quarantined)
                && (goOn ==> attempts == old(attempts) - {c.batchId} && blockedUntil == old(blockedUntil) - {c.batchId})
      ensures result.kind.Quarantine? ==>
                && (wal.Value(), goOn)
                == Settled(QuarantineOp(wal.k, old(wal.Value()), c.batchId, result.status, result.code, h.clock, h.io))
                && (goOn ==> attempts == old(attempts) - {c.batchId} && blockedUntil == old(blockedUntil) - {c.batchId})
      ensures result.kind.Retryable? || result.kind.Blocked? ==>
                && goOn && wal.Value() == old(wal.Value())
                && c.batchId in attempts && c.batchId in blockedUntil
                && attempts[c.batchId] == OrZero(Get(old(attempts), c.batchId)) + 1
                && RightDelay(options, attempts[c.batchId], result.retryAfter, h.factor, blockedUntil[c.batchId] - h.clock)
      ensures result.kind.Terminal? ==> !goOn && wal.Value() == old(wal.Value())
      ensures SameOthers(old(attempts), attempts, c.batchId) && SameOthers(old(blockedUntil), blockedUntil, c.batchId)
      ensures MarkFits(wal.k, c.batchId, result, h) ==> wal.Valid()
    {
      hide AckOp, QuarantineOp, SpoolOk, Faithful, SameOthers, RightDelay;
      SameAsBefore(attempts, c.batchId);
      SameAsBefore(blockedUntil, c.batchId);
      match result.kind {
        case Terminal => return false;
        case Quarantine =>
          var out := wal.Quarantine(c.batchId, result.status, result.code, h.clock, h.io);
          if out != Done { return false; }
          Forget(c);
        case Retryable => Postpone(c, result.retryAfter, h);
        case Blocked => Postpone(c, result.retryAfter, h);
        case _ =>
          if !Active(wal.Live(), c.batchId) { AckIdle(wal.k, wal.Value(), c.batchId, h.io, h.swap); }
          var out := wal.Ack(c.batchId, h.io, h.swap);
          if out != Done { return false; }
          Forget(c);
      }
      return true;
    }

    /** The batches on disk. */
    ghost function Held(): set<string>
      reads wal
    {
      wal.pending.Keys + wal.quarantined.Keys
    }

    /** The schedule is what the history says. */
    ghost predicate Scheduled(tries: map<string, nat>, blocked: map<string, int>, sent: seq<Sent>)
      reads this
    {
      forall id ::
        Get(attempts, id) == Tries(tries, sent, id) && Get(blockedUntil, id) == Block(blocked, sent, id)
    }

    /**
      Whatever a reply is, only an acknowledged batch leaves the disk, and the batch that was sent is
      scheduled by its reply alone.
    */
    method HandleSafely(c: Commit, result: SendResult, h: Handling, now: int) returns (s: Sent, goOn: bool)
      requires ValidOptions(options) && wal.Valid() && MarkFits(wal.k, c.batchId, result, h)
      modifies this, wal
      ensures wal.Valid()
      ensures s.commit == c && s.result == result && s.handling == h && s.now == now
      ensures forall id :: id in old(Held()) && (id != c.batchId || !Positive(s)) ==> id in Held()
      ensures wal.pending.Keys <= old(wal.pending.Keys)
      ensures goOn ==> !result.kind.Terminal?
      ensures SameOthers(old(attempts), attempts, c.batchId) && SameOthers(old(blockedUntil), blockedUntil, c.batchId)
      ensures Postponing(s) ==>
                && RightDelay(options, OrZero(Get(old(attempts), c.batchId)) + 1, result.retryAfter, h.factor, s.until - h.clock)
                && Get(attempts, c.batchId) == Some(OrZero(Get(old(attempts), c.batchId)) + 1)
                && Get(blockedUntil, c.batchId) == Some(s.until)
      ensures goOn && !Postponing(s) ==> Get(attempts, c.batchId).None? && Get(blockedUntil, c.batchId).None?
    {
      hide RightDelay, SpoolOk, Faithful, SameOthers, AckOp, QuarantineOp;
      ghost var before := wal.Value();
      s := Sent(c, result, h, now, 0);
      NothingAdded(wal.k, before, s);
      goOn := Handle(c, result, h);
      if Postponing(s) { s := s.(until := blockedUntil[c.batchId]); }
      forall id | id in old(Held()) && (id != c.batchId || !Positive(s)) ensures id in Held() {
        StillHeld(wal.k, before, s, id);
      }
    }

    /**
      Run, for as many turns as it takes: choose, send, and react, until a result ends the loop. The
      spool stays valid throughout, every batch that has left it was acknowledged, and no batch is sent
      before the block of its last failure has passed.
    */
    method Run(turns: seq<Turn>) returns (sent: seq<Sent>, stopped: bool)
      requires ValidOptions(options) && wal.Valid()
      requires forall t :: t in turns ==> TurnFits(wal.k, wal.pending.Keys, t)
      modifies this, wal
      ensures wal.Valid()
      ensures forall id :: id in old(Held()) ==> id in Held() || Acknowledged(sent, id)
      ensures !stopped ==> forall s :: s in sent ==> !s.result.kind.Terminal?
      ensures forall i :: 0 <= i < |sent| ==> SentRight(options, old(attempts), old(blockedUntil), sent, i)
    {
      hide TurnFits, MarkFits, RightChoice, SpoolOk, Faithful, Listed, SentRight, Scheduled, Acknowledged;
      sent := [];
      StartsScheduled();
      for i := 0 to |turns|
        invariant wal.Valid() && wal.pending.Keys <= old(wal.pending.Keys)
        invariant forall id :: id in old(Held()) ==> id in Held() || Acknowledged(sent, id)
        invariant forall s :: s in sent ==> !s.result.kind.Terminal?
        invariant Scheduled(old(attempts), old(blockedUntil), sent)
        invariant forall j :: 0 <= j < |sent| ==> SentRight(options, old(attempts), old(blockedUntil), sent, j)
      {
        assert turns[i] in turns;
        TurnFitsAt(wal.k, old(wal.pending.Keys), turns[i]);
        var choice := NextPending(turns[i].now);
        if choice.Send? {
          var t := turns[i];
          ghost var tries, blocked := attempts, blockedUntil;
          ScheduledAt(old(attempts), old(blockedUntil), sent);
          ChosenIsPending(wal.k, wal.Value(), blockedUntil, t.now, choice.commit);
          var s, goOn := HandleSafely(choice.commit, t.result, t.handling, t.now);
          forall id | id in old(Held()) ensures id in Held() || Acknowledged(sent + [s], id) {
            AcknowledgedLater(sent, s, id);
          }
          SentNext(options, old(attempts), old(blockedUntil), tries, blocked, sent, s);
          if goOn { StaysScheduled(old(attempts), old(blockedUntil), tries, blocked, sent, s); }
          sent := sent + [s];
          if !goOn { return sent, true; }
        }
      }
      return sent, false;
    }

    lemma ScheduledAt(tries: map<string, nat>, blocked: map<string, int>, sent: seq<Sent>)
      requires Scheduled(tries, blocked, sent)
      ensures forall id ::
                Get(attempts, id) == Tries(tries, sent, id) && Get(blockedUntil, id) == Block(blocked, sent, id)
    {}

    lemma StartsScheduled()
      ensures Scheduled(attempts, blockedUntil, [])
    {}

    /** One more batch was sent and the schedule changed for it alone. */
    lemma StaysScheduled(
        tries: map<string, nat>, blocked: map<string, int>, lastTries: map<string, nat>, lastBlocked: map<string, int>,
        sent: seq<Sent>, s: Sent)
      requires forall id :: Get(lastTries, id) == Tries(tries, sent, id) && Get(lastBlocked, id) == Block(blocked, sent, id)
      requires var id := s.commit.batchId;
               && SameOthers(lastTries, attempts, id) && SameOthers(lastBlocked, blockedUntil, id)
               && (if Postponing(s) then
                     Get(attempts, id) == Some(OrZero(Get(lastTries, id)) + 1) && Get(blockedUntil, id) == Some(s.until)
                   else Get(attempts, id).None? && Get(blockedUntil, id).None?)
      ensures Scheduled(tries, blocked, sent + [s])
    {
      assert (sent + [s])[..|sent|] == sent;
      forall id
        ensures Get(attempts, id) == Tries(tries, sent + [s], id) && Get(blockedUntil, id) == Block(blocked, sent + [s], id)
      {
        assert Get(lastTries, id) == Tries(tries, sent, id) && Get(lastBlocked, id) == Block(blocked, sent, id);
      }
    }

    /** A batch that is settled has no schedule any more. */
    method Forget(c: Commit)
      modifies `attempts, `blockedUntil
      ensures attempts == old(attempts) - {c.batchId} && blockedUntil == old(blockedUntil) - {c.batchId}
      ensures SameOthers(old(attempts), attempts, c.batchId) && SameOthers(old(blockedUntil), blockedUntil, c.batchId)
    {
      attempts, blockedUntil := attempts - {c.batchId}, blockedUntil - {c.batchId};
    }

    method Postpone(c: Commit, retryAfter: int, h: Handling)
      requires ValidOptions(options)
      modifies `attempts, `blockedUntil
      ensures c.batchId in attempts && c.batchId in blockedUntil
      ensures attempts[c.batchId] == OrZero(Get(old(attempts), c.batchId)) + 1
      ensures RightDelay(options, attempts[c.batchId], retryAfter, h.factor, blockedUntil[c.batchId] - h.clock)
      ensures SameOthers(old(attempts), attempts, c.batchId) && SameOthers(old(blockedUntil), blockedUntil, c.batchId)
    {
      hide RightDelay, Jittered, Exponential;
      var n := (if c.batchId in attempts then attempts[c.batchId] else 0) + 1;
      attempts := attempts[c.batchId := n];
      var delay := BackoffDelay(n, options.baseDelay, options.maxDelay);
      delay := Applied(Jittered(delay, h.factor, options.maxDelay), retryAfter, options.maxDelay);
      DelayIsRight(options, n, retryAfter, h.factor);
      blockedUntil := blockedUntil[c.batchId := h.clock + delay];
    }
  }

  lemma TurnFitsAt(k: Codec, ids: set<string>, t: Turn)
    requires TurnFits(k, ids, t)
    ensures t.now >= 0 && forall id :: id in ids ==> MarkFits(k, id, t.result, t.handling)
  {}

  /** The batch that is sent is pending under its own id. */
  lemma ChosenIsPending(k: Codec, st: State, blocked: map<string, int>, now: int, c: Commit)
    requires SpoolOk(k, st) && RightChoice(Listed(st.live), blocked, now, Send(c))
    ensures c.batchId in st.live.pending && Ready(blocked, now, c)
  {
    hide SpoolOk, PendingIds, Ready;
    ActivePendingMembers(st.live);
    var i :| 0 <= i < |Listed(st.live)| && Listed(st.live)[i] == c;
    PendingIdOf(k, st, PendingIds(st.live)[i]);
  }

  /** No reply makes a batch pending. */
  lemma NothingAdded(k: Codec, st: State, s: Sent)
    ensures AckOp(k, st, s.commit.batchId, s.handling.io, s.handling.swap).0.live.pending.Keys <= st.live.pending.Keys
    ensures QuarantineOp(k, st, s.commit.batchId, s.result.status, s.result.code, s.handling.clock, s.handling.io).0.live.pending.Keys
            <= st.live.pending.Keys
  {
    hide FileBytes, CompactOp, TrimSpace;
    CompactLive(k, Append(st, Frame(ACK, k.putAck(s.commit.batchId)), RemoveActive(st.live, s.commit.batchId), s.handling.io).0, s.handling.swap);
  }

  /** The new entry of the history is right if the older ones, and the schedule it was chosen with, are. */
  lemma SentNext(
      o: Options, tries: map<string, nat>, blocked: map<string, int>, lastTries: map<string, nat>,
      lastBlocked: map<string, int>, sent: seq<Sent>, s: Sent)
    requires forall id :: Get(lastTries, id) == Tries(tries, sent, id) && Get(lastBlocked, id) == Block(blocked, sent, id)
    requires forall j :: 0 <= j < |sent| ==> SentRight(o, tries, blocked, sent, j)
    requires Ready(lastBlocked, s.now, s.commit)
    requires Postponing(s) ==>
               RightDelay(o, OrZero(Get(lastTries, s.commit.batchId)) + 1, s.result.retryAfter, s.handling.factor, s.until - s.handling.clock)
    ensures forall j :: 0 <= j < |sent + [s]| ==> SentRight(o, tries, blocked, sent + [s], j)
  {
    hide RightDelay, Tries, Block;
    var all := sent + [s];
    assert all[..|sent|] == sent;
    forall j | 0 <= j < |all| ensures SentRight(o, tries, blocked, all, j) {
      if j < |sent| { assert SentRight(o, tries, blocked, sent, j) && all[..j] == sent[..j] && all[j] == sent[j]; }
    }
  }

  /** What Handle does to the spool, seen from one batch on disk. */
  lemma StillHeld(k: Codec, st: State, s: Sent, id: string)
    requires SpoolOk(k, st) && Active(st.live, id) && (id != s.commit.batchId || !Positive(s))
    ensures Positive(s) ==> Active(AckOp(k, st, s.commit.batchId, s.handling.io, s.handling.swap).0.live, id)
    ensures Active(QuarantineOp(k, st, s.commit.batchId, s.result.status, s.result.code, s.handling.clock, s.handling.io).0.live, id)
  {
    hide SpoolOk, AckOp, QuarantineOp;
    if Positive(s) { AckHeld(k, st, s.commit.batchId, s.handling.io, s.handling.swap, id); }
    QuarantineHeld(k, st, s.commit.batchId, s.result.status, s.result.code, s.handling.clock, s.handling.io, id);
  }
}
