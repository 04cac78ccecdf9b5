/**
  Ingest admission: token buckets per API key and per project, reservations that are settled once,
  and eviction of idle state. Tokens are real numbers; instants and durations are nanoseconds.
*/
module Admission {
  import opened Prelude
  import opened Reals

  const SECOND: int := 1_000_000_000
  const MINUTE: int := 60 * SECOND
  const MILLISECOND: int := 1_000_000

  datatype Config = Config(
    requestsPerMinute: int, entriesPerMinute: int, bytesPerMinute: int, maxInflight: int, stateTtl: int,
    validId: string -> bool)

  /** What New accepts. */
  predicate ValidConfig(cfg: Config) {
    && 0 < cfg.requestsPerMinute && 0 < cfg.entriesPerMinute && 0 < cfg.bytesPerMinute && 0 < cfg.maxInflight
    && cfg.stateTtl >= 2 * MINUTE
  }

  datatype Bucket = Bucket(tokens: real, last: int)

  function FullBucket(capacity: int, now: int): Bucket { Bucket(capacity as real, now) }

  /** What flows in during a time: the capacity every minute. */
  function Gain(capacity: int, elapsed: int): real {
    elapsed as real / SECOND as real * (capacity as real / 60.0)
  }

  function Min(x: real, y: real): real { if x <= y then x else y }

  function Refill(b: Bucket, capacity: int, now: int): Bucket {
    if now <= b.last then b else Bucket(Min(capacity as real, b.tokens + Gain(capacity, now - b.last)), now)
  }

  function Ceil(x: real): int { -((-x).Floor) }

  function RetryAfter(available: real, required: real, capacity: int): int
    requires capacity > 0
  {
    var missing := required - available;
    if missing <= 0.0 then 0
    else Ceil(missing / (capacity as real / 60.0) * 1000.0) * MILLISECOND
  }

  datatype KeyState = KeyState(requests: Bucket, lastSeen: int)

  datatype ProjectState = ProjectState(entries: Bucket, bytes: Bucket, inflight: int, lastSeen: int)

  datatype State = State(keys: map<string, KeyState>, projects: map<string, ProjectState>, lastCleanup: Option<int>)

  const EMPTY: State := State(map[], map[], None)

  datatype Reason = KeyRate | ProjectEntries | ProjectBytes | ProjectInflight

  datatype Decision = Invalid | TooLarge | Limited(reason: Reason, retryAfter: int) | Granted

  datatype Request = Request(key: string, project: string, entries: int, bytes: int)

  // ---- eviction

  function FreshKeys(keys: map<string, KeyState>, cutoff: int): map<string, KeyState> {
    map id | id in keys && keys[id].lastSeen >= cutoff :: keys[id]
  }

  function FreshProjects(projects: map<string, ProjectState>, cutoff: int): map<string, ProjectState> {
    map id | id in projects && !(projects[id].inflight == 0 && projects[id].lastSeen < cutoff) :: projects[id]
  }

  function Cleanup(cfg: Config, st: State, now: int): State {
    if st.lastCleanup.Some? && now - st.lastCleanup.value < MINUTE then st
    else
      var cutoff := now - cfg.stateTtl;
      State(FreshKeys(st.keys, cutoff), FreshProjects(st.projects, cutoff), Some(now))
  }

  // ---- the decision

  function SeenKey(cfg: Config, st: State, key: string, now: int): KeyState {
    var was := if key in st.keys then st.keys[key].requests else FullBucket(cfg.requestsPerMinute, now);
    KeyState(Refill(was, cfg.requestsPerMinute, now), now)
  }

  function SeenProject(cfg: Config, st: State, project: string, now: int): ProjectState {
    var was :=
      if project in st.projects then st.projects[project]
      else ProjectState(FullBucket(cfg.entriesPerMinute, now), FullBucket(cfg.bytesPerMinute, now), 0, now);
    ProjectState(Refill(was.entries, cfg.entriesPerMinute, now), Refill(was.bytes, cfg.bytesPerMinute, now), was.inflight, now)
  }

  function Spend(b: Bucket, cost: real): Bucket { b.(tokens := b.tokens - cost) }

  /** The project's part of the decision, on its refilled state. */
  function DecideProject(cfg: Config, p: ProjectState, r: Request): Decision
    requires ValidConfig(cfg)
  {
    if p.inflight >= cfg.maxInflight then Limited(ProjectInflight, SECOND)
    else if p.entries.tokens < r.entries as real then
      Limited(ProjectEntries, RetryAfter(p.entries.tokens, r.entries as real, cfg.entriesPerMinute))
    else if p.bytes.tokens < r.bytes as real then
      Limited(ProjectBytes, RetryAfter(p.bytes.tokens, r.bytes as real, cfg.bytesPerMinute))
    else Granted
  }

  function Reserve(p: ProjectState, r: Request): ProjectState {
    p.(entries := Spend(p.entries, r.entries as real), bytes := Spend(p.bytes, r.bytes as real), inflight := p.inflight + 1)
  }

  /** AllowIngest; `evicting` false is the limiter that never forgets. */
  function AllowOp(cfg: Config, st: State, now: int, r: Request, evicting: bool): (State, Decision)
    requires ValidConfig(cfg)
  {
    if !cfg.validId(r.key) || !cfg.validId(r.project) || r.entries <= 0 || r.bytes <= 0 then (st, Invalid)
    else if r.entries > cfg.entriesPerMinute || r.bytes > cfg.bytesPerMinute then (st, TooLarge)
    else AdmitOp(cfg, if evicting then Cleanup(cfg, st, now) else st, now, r)
  }

  function AdmitOp(cfg: Config, st: State, now: int, r: Request): (State, Decision)
    requires ValidConfig(cfg)
  {
    var key := SeenKey(cfg, st, r.key, now);
    if key.requests.tokens < 1.0 then
      (st.(keys := st.keys[r.key := key]),
       Limited(KeyRate, RetryAfter(key.requests.tokens, 1.0, cfg.requestsPerMinute)))
    else
      var project := SeenProject(cfg, st, r.project, now);
      var decision := DecideProject(cfg, project, r);
      (st.(keys := st.keys[r.key := key.(requests := Spend(key.requests, 1.0))],
           projects := st.projects[r.project := if decision == Granted then Reserve(project, r) else project]),
       decision)
  }

  function Refund(b: Bucket, cost: real, capacity: int): Bucket {
    b.(tokens := Min(capacity as real, b.tokens + cost))
  }

  /** finish: end of a reservation, with its cost returned or kept. */
  function FinishOp(cfg: Config, st: State, now: int, r: Request, refund: bool): State {
    if r.project !in st.projects || st.projects[r.project].inflight <= 0 then st
    else
      var p := SeenProject(cfg, st, r.project, now);
      var entries := if refund then Refund(p.entries, r.entries as real, cfg.entriesPerMinute) else p.entries;
      var bytes := if refund then Refund(p.bytes, r.bytes as real, cfg.bytesPerMinute) else p.bytes;
      st.(projects := st.projects[r.project := ProjectState(entries, bytes, p.inflight - 1, now)])
  }

  // ---- arithmetic of buckets

  lemma GainMonotone(capacity: int, a: int, b: int)
    requires capacity > 0 && a <= b
    ensures Gain(capacity, a) <= Gain(capacity, b)
  {
    var rate := capacity as real / 60.0;
    TimesNonNegative(b as real / SECOND as real - a as real / SECOND as real, rate);
  }

  lemma GainAdd(capacity: int, a: int, b: int)
    ensures Gain(capacity, a + b) == Gain(capacity, a) + Gain(capacity, b)
  {
    var rate := capacity as real / 60.0;
    assert (a + b) as real / SECOND as real == a as real / SECOND as real + b as real / SECOND as real;
  }

  lemma GainMinute(capacity: int)
    ensures Gain(capacity, MINUTE) == capacity as real
    ensures Gain(capacity, 0) == 0.0
  {}

  ghost predicate InBounds(b: Bucket, capacity: int) { 0.0 <= b.tokens <= capacity as real }

  lemma RefillInBounds(b: Bucket, capacity: int, now: int)
    requires capacity > 0 && InBounds(b, capacity)
    ensures InBounds(Refill(b, capacity, now), capacity)
    ensures b.last <= now ==> Refill(b, capacity, now).last == now
    ensures Refill(b, capacity, now).tokens >= b.tokens
  {
    GainMinute(capacity);
    if now > b.last { GainMonotone(capacity, 0, now - b.last); }
  }

  /** A minute without spending fills any bucket. */
  lemma RefillFull(b: Bucket, capacity: int, now: int)
    requires capacity > 0 && InBounds(b, capacity) && now - b.last >= MINUTE
    ensures Refill(b, capacity, now) == FullBucket(capacity, now)
  {
    GainMinute(capacity);
    GainMonotone(capacity, MINUTE, now - b.last);
  }

  // ---- retry times

  lemma CeilBounds(x: real)
    ensures Ceil(x) as real >= x && (Ceil(x) - 1) as real < x
  {}

  lemma DivideTimes(missing: real, rate: real, millis: real)
    requires rate > 0.0
    ensures missing / rate * 1000.0 <= millis <==> missing <= millis / 1000.0 * rate
  {
    var q, x := missing / rate, millis / 1000.0;
    assert q * rate == missing;
    OrderTimes(q, x, rate);
  }

  /**
    The advertised time is exact to the millisecond: with nothing else drawing on the bucket, the
    same cost is available after a whole number of milliseconds exactly when that many have passed.
  */
  lemma RetryAfterExact(b: Bucket, cost: int, capacity: int, millis: nat)
    requires capacity > 0 && cost <= capacity && 0.0 <= b.tokens < cost as real
    ensures var wait := RetryAfter(b.tokens, cost as real, capacity);
            && wait > 0 && wait % MILLISECOND == 0
            && (Refill(b, capacity, b.last + millis * MILLISECOND).tokens >= cost as real <==> millis * MILLISECOND >= wait)
  {
    var rate := capacity as real / 60.0;
    var missing := cost as real - b.tokens;
    var units := Ceil(missing / rate * 1000.0);
    CeilBounds(missing / rate * 1000.0);
    DivideTimes(missing, rate, 0.0);
    DivideTimes(missing, rate, millis as real);
    assert (millis * MILLISECOND) as real / SECOND as real == millis as real / 1000.0;
    assert Gain(capacity, millis * MILLISECOND) == millis as real / 1000.0 * rate;
    assert missing / rate * 1000.0 <= millis as real <==> units <= millis;
    GainMinute(capacity);
  }

  /** The Retry-After header in whole seconds, at least one. */
  function RetryHeader(retryAfter: int): int {
    var seconds := Ceil(retryAfter as real / SECOND as real);
    if seconds < 1 then 1 else seconds
  }

  /** The header is never shorter than the time it rounds, and never a whole second longer. */
  lemma HeaderNeverShorter(retryAfter: int)
    ensures RetryHeader(retryAfter) * SECOND >= retryAfter
    ensures RetryHeader(retryAfter) == 1 || RetryHeader(retryAfter) * SECOND < retryAfter + SECOND
  {
    CeilBounds(retryAfter as real / SECOND as real);
  }

  // ---- runs

  /** A step: a request for admission, or the end of the index-th open reservation. */
  datatype Event = Allows(now: int, request: Request) | Finishes(now: int, index: nat, refund: bool)

  /**
    The limiter with what its callers know: the open reservations, those that ended with their cost
    kept, and when each project was first seen.
  */
  datatype World = World(st: State, open: seq<Request>, kept: seq<Request>, first: map<string, int>)

  const START: World := World(EMPTY, [], [], map[])

  function Without<T>(xs: seq<T>, i: nat): seq<T>
    requires i < |xs|
  {
    xs[..i] + xs[i + 1..]
  }

  function Step(cfg: Config, w: World, e: Event, evicting: bool): (World, Option<Decision>)
    requires ValidConfig(cfg)
  {
    match e
    case Allows(now, r) =>
      var (st, decision) := AllowOp(cfg, w.st, now, r, evicting);
      var first := if r.project in st.projects && r.project !in w.first then w.first[r.project := now] else w.first;
      (World(st, if decision == Granted then w.open + [r] else w.open, w.kept, first), Some(decision))
    case Finishes(now, index, refund) =>
      if index >= |w.open| then (w, None)
      else
        var r := w.open[index];
        (World(FinishOp(cfg, w.st, now, r, refund), Without(w.open, index),
               if refund then w.kept else w.kept + [r], w.first),
         None)
  }

  function Run(cfg: Config, es: seq<Event>, evicting: bool): (World, seq<Option<Decision>>)
    requires ValidConfig(cfg)
    decreases |es|
  {
    if es == [] then (START, [])
    else
      var (w, seen) := Run(cfg, es[..|es| - 1], evicting);
      var (next, decision) := Step(cfg, w, es[|es| - 1], evicting);
      (next, seen + [decision])
  }

  /** The clock at the lock does not run backwards. */
  ghost predicate ClockForward(es: seq<Event>) {
    forall i, j :: 0 <= i < j < |es| ==> es[i].now <= es[j].now
  }

  // ---- what holds of every state

  ghost predicate KeyOk(cfg: Config, k: KeyState, clock: int) {
    InBounds(k.requests, cfg.requestsPerMinute) && k.requests.last == k.lastSeen <= clock
  }

  ghost predicate ProjectOk(cfg: Config, p: ProjectState, clock: int) {
    && InBounds(p.entries, cfg.entriesPerMinute) && InBounds(p.bytes, cfg.bytesPerMinute)
    && p.entries.last == p.bytes.last == p.lastSeen <= clock
    && 0 <= p.inflight <= cfg.maxInflight
  }

  ghost predicate StateOk(cfg: Config, st: State, clock: int) {
    && (forall id :: id in st.keys ==> KeyOk(cfg, st.keys[id], clock))
    && (forall id :: id in st.projects ==> ProjectOk(cfg, st.projects[id], clock))
  }

  lemma SeenKeyOk(cfg: Config, st: State, id: string, clock: int, now: int)
    requires ValidConfig(cfg) && StateOk(cfg, st, clock) && clock <= now
    ensures KeyOk(cfg, SeenKey(cfg, st, id, now), now)
  {
    hide Refill;
    var was := if id in st.keys then st.keys[id].requests else FullBucket(cfg.requestsPerMinute, now);
    assert id in st.keys ==> KeyOk(cfg, st.keys[id], clock);
    RefillInBounds(was, cfg.requestsPerMinute, now);
  }

  lemma SeenProjectOk(cfg: Config, st: State, id: string, clock: int, now: int)
    requires ValidConfig(cfg) && StateOk(cfg, st, clock) && clock <= now
    ensures ProjectOk(cfg, SeenProject(cfg, st, id, now), now)
  {
    hide Refill;
    var was :=
      if id in st.projects then st.projects[id]
      else ProjectState(FullBucket(cfg.entriesPerMinute, now), FullBucket(cfg.bytesPerMinute, now), 0, now);
    assert id in st.projects ==> ProjectOk(cfg, st.projects[id], clock);
    RefillInBounds(was.entries, cfg.entriesPerMinute, now);
    RefillInBounds(was.bytes, cfg.bytesPerMinute, now);
  }

  lemma AdmitOk(cfg: Config, st: State, clock: int, now: int, r: Request)
    requires ValidConfig(cfg) && StateOk(cfg, st, clock) && clock <= now && r.entries > 0 && r.bytes > 0
    ensures StateOk(cfg, AdmitOp(cfg, st, now, r).0, now)
  {
    hide SeenKey, SeenProject, RetryAfter;
    SeenKeyOk(cfg, st, r.key, clock, now);
    SeenProjectOk(cfg, st, r.project, clock, now);
  }

  lemma FinishOk(cfg: Config, st: State, clock: int, now: int, r: Request, refund: bool)
    requires ValidConfig(cfg) && StateOk(cfg, st, clock) && clock <= now && r.entries > 0 && r.bytes > 0
    ensures StateOk(cfg, FinishOp(cfg, st, now, r, refund), now)
  {
    hide SeenProject, Refill;
    SeenProjectOk(cfg, st, r.project, clock, now);
    SeenInflight(cfg, st, r.project, now);
  }

  lemma SeenInflight(cfg: Config, st: State, id: string, now: int)
    ensures SeenProject(cfg, st, id, now).inflight == if id in st.projects then st.projects[id].inflight else 0
    ensures SeenProject(cfg, st, id, now).lastSeen == now
  {}

  // ---- eviction is invisible

  ghost predicate Idle(lastSeen: int, clock: int) { clock - lastSeen >= MINUTE }

  /** `st` has forgotten only idle state that `ideal` still remembers. */
  ghost predicate KeysForgot(st: State, ideal: State, clock: int) {
    && (forall id :: id in st.keys ==> id in ideal.keys && st.keys[id] == ideal.keys[id])
    && (forall id :: id in ideal.keys && id !in st.keys ==> Idle(ideal.keys[id].lastSeen, clock))
  }

  ghost predicate ProjectsForgot(st: State, ideal: State, clock: int) {
    && (forall id :: id in st.projects ==> id in ideal.projects && st.projects[id] == ideal.projects[id])
    && (forall id :: id in ideal.projects && id !in st.projects ==>
          Idle(ideal.projects[id].lastSeen, clock) && ideal.projects[id].inflight == 0)
  }

  ghost predicate Forgot(cfg: Config, st: State, ideal: State, clock: int) {
    StateOk(cfg, ideal, clock) && KeysForgot(st, ideal, clock) && ProjectsForgot(st, ideal, clock)
  }

  lemma CleanupForgets(cfg: Config, st: State, ideal: State, clock: int, now: int)
    requires ValidConfig(cfg) && Forgot(cfg, st, ideal, clock) && clock <= now
    ensures Forgot(cfg, Cleanup(cfg, st, now), ideal, now)
  {}

  /** What an idle key or project looks like when it comes back is what a new one looks like. */
  lemma SeenKeySame(cfg: Config, st: State, ideal: State, id: string, clock: int, now: int)
    requires ValidConfig(cfg) && Forgot(cfg, st, ideal, clock) && clock <= now
    ensures SeenKey(cfg, st, id, now) == SeenKey(cfg, ideal, id, now)
  {
    if id in ideal.keys && id !in st.keys {
      RefillFull(ideal.keys[id].requests, cfg.requestsPerMinute, now);
    }
  }

  lemma SeenProjectSame(cfg: Config, st: State, ideal: State, id: string, clock: int, now: int)
    requires ValidConfig(cfg) && Forgot(cfg, st, ideal, clock) && clock <= now
    ensures SeenProject(cfg, st, id, now) == SeenProject(cfg, ideal, id, now)
  {
    if id in ideal.projects && id !in st.projects {
      RefillFull(ideal.projects[id].entries, cfg.entriesPerMinute, now);
      RefillFull(ideal.projects[id].bytes, cfg.bytesPerMinute, now);
    }
  }

  lemma AdmitSame(cfg: Config, st: State, ideal: State, clock: int, now: int, r: Request)
    requires ValidConfig(cfg) && Forgot(cfg, st, ideal, clock) && clock <= now && r.entries > 0 && r.bytes > 0
    ensures AdmitOp(cfg, st, now, r).1 == AdmitOp(cfg, ideal, now, r).1
    ensures Forgot(cfg, AdmitOp(cfg, st, now, r).0, AdmitOp(cfg, ideal, now, r).0, now)
  {
    hide SeenKey, SeenProject, DecideProject, RetryAfter, StateOk;
    SeenKeySame(cfg, st, ideal, r.key, clock, now);
    SeenProjectSame(cfg, st, ideal, r.project, clock, now);
    AdmitOk(cfg, ideal, clock, now, r);
  }

  lemma FinishSame(cfg: Config, st: State, ideal: State, clock: int, now: int, r: Request, refund: bool)
    requires ValidConfig(cfg) && Forgot(cfg, st, ideal, clock) && clock <= now && r.entries > 0 && r.bytes > 0
    ensures Forgot(cfg, FinishOp(cfg, st, now, r, refund), FinishOp(cfg, ideal, now, r, refund), now)
  {
    hide SeenProject, Refund, StateOk;
    SeenProjectSame(cfg, st, ideal, r.project, clock, now);
    FinishOk(cfg, ideal, clock, now, r, refund);
  }

  ghost predicate Costly(rs: seq<Request>) { forall r :: r in rs ==> r.entries > 0 && r.bytes > 0 }

  /** The world of the evicting limiter and the world of the one that never forgets. */
  ghost predicate Simulates(cfg: Config, w: World, ideal: World, clock: int) {
    && Forgot(cfg, w.st, ideal.st, clock)
    && w.open == ideal.open && w.kept == ideal.kept && w.first == ideal.first
    && Costly(w.open)
    && (forall id :: id in ideal.st.projects ==> id in w.first)
  }

  lemma StepSame(cfg: Config, w: World, ideal: World, clock: int, e: Event)
    requires ValidConfig(cfg) && Simulates(cfg, w, ideal, clock) && clock <= e.now
    ensures Step(cfg, w, e, true).1 == Step(cfg, ideal, e, false).1
    ensures Simulates(cfg, Step(cfg, w, e, true).0, Step(cfg, ideal, e, false).0, e.now)
  {
    hide Forgot, AdmitOp, FinishOp, Cleanup;
    match e
    case Allows(now, r) =>
      CleanupForgets(cfg, w.st, ideal.st, clock, now);
      ForgotLater(cfg, w.st, ideal.st, clock, now);
      ForgotProjects(cfg, w.st, ideal.st, now);
      if r.entries > 0 && r.bytes > 0 {
        var cleaned := Cleanup(cfg, w.st, now);
        AdmitSame(cfg, cleaned, ideal.st, now, now, r);
        AdmitProjects(cfg, cleaned, now, r);
        AdmitProjects(cfg, ideal.st, now, r);
        ForgotProjects(cfg, cleaned, ideal.st, now);
      }
    case Finishes(now, index, refund) =>
      ForgotLater(cfg, w.st, ideal.st, clock, now);
      if index < |w.open| {
        assert w.open[index] in w.open;
        FinishKeepsProjects(cfg, ideal.st, now, w.open[index], refund);
        FinishSame(cfg, w.st, ideal.st, clock, now, w.open[index], refund);
      }
  }

  lemma AdmitProjects(cfg: Config, st: State, now: int, r: Request)
    requires ValidConfig(cfg)
    ensures var (st', decision) := AdmitOp(cfg, st, now, r);
            var reached := !(decision.Limited? && decision.reason.KeyRate?);
            st'.projects.Keys == st.projects.Keys + if reached then {r.project} else {}
  {
    hide SeenKey, SeenProject, RetryAfter;
  }

  lemma ForgotProjects(cfg: Config, st: State, ideal: State, clock: int)
    requires Forgot(cfg, st, ideal, clock)
    ensures st.projects.Keys <= ideal.projects.Keys
  {}

  lemma FinishKeepsProjects(cfg: Config, st: State, now: int, r: Request, refund: bool)
    ensures FinishOp(cfg, st, now, r, refund).projects.Keys == st.projects.Keys
  {}

  lemma ForgotLater(cfg: Config, st: State, ideal: State, clock: int, now: int)
    requires Forgot(cfg, st, ideal, clock) && clock <= now
    ensures Forgot(cfg, st, ideal, now)
  {}

  lemma {:induction false} RunSame(cfg: Config, es: seq<Event>)
    requires ValidConfig(cfg) && ClockForward(es)
    ensures Run(cfg, es, true).1 == Run(cfg, es, false).1
    ensures forall clock :: (es == [] || clock >= es[|es| - 1].now) ==>
              Simulates(cfg, Run(cfg, es, true).0, Run(cfg, es, false).0, clock)
    decreases |es|
  {
    hide Step;
    if es != [] {
      hide Simulates;
      var prefix, last := es[..|es| - 1], es[|es| - 1];
      RunSame(cfg, prefix);
      StepSame(cfg, Run(cfg, prefix, true).0, Run(cfg, prefix, false).0, last.now, last);
      forall clock | clock >= last.now
        ensures Simulates(cfg, Run(cfg, es, true).0, Run(cfg, es, false).0, clock)
      {
        SimulatesLater(cfg, Run(cfg, es, true).0, Run(cfg, es, false).0, last.now, clock);
      }
    }
  }

  lemma SimulatesLater(cfg: Config, w: World, ideal: World, clock: int, now: int)
    requires Simulates(cfg, w, ideal, clock) && clock <= now
    ensures Simulates(cfg, w, ideal, now)
  {
    hide Forgot;
    ForgotLater(cfg, w.st, ideal.st, clock, now);
  }

  /**
    Idle eviction is invisible: with a clock that does not run backwards, every request gets the
    same decision and the same retry time as from a limiter that never forgets.
  */
  lemma EvictionInvisible(cfg: Config, es: seq<Event>)
    requires ValidConfig(cfg) && ClockForward(es)
    ensures Run(cfg, es, true).1 == Run(cfg, es, false).1
    ensures Run(cfg, es, true).0.open == Run(cfg, es, false).0.open
    ensures Run(cfg, es, true).0.kept == Run(cfg, es, false).0.kept
  {
    hide Run;
    RunSame(cfg, es);
    var clock := if es == [] then 0 else es[|es| - 1].now;
    assert Simulates(cfg, Run(cfg, es, true).0, Run(cfg, es, false).0, clock);
  }

  // ---- conservation

  function OpenCount(rs: seq<Request>, project: string): nat {
    if rs == [] then 0 else (if rs[0].project == project then 1 else 0) + OpenCount(rs[1..], project)
  }

  function EntryCost(rs: seq<Request>, project: string): int {
    if rs == [] then 0 else (if rs[0].project == project then rs[0].entries else 0) + EntryCost(rs[1..], project)
  }

  function ByteCost(rs: seq<Request>, project: string): int {
    if rs == [] then 0 else (if rs[0].project == project then rs[0].bytes else 0) + ByteCost(rs[1..], project)
  }

  lemma {:induction false} CostsConcat(rs: seq<Request>, qs: seq<Request>, project: string)
    ensures OpenCount(rs + qs, project) == OpenCount(rs, project) + OpenCount(qs, project)
    ensures EntryCost(rs + qs, project) == EntryCost(rs, project) + EntryCost(qs, project)
    ensures ByteCost(rs + qs, project) == ByteCost(rs, project) + ByteCost(qs, project)
  {
    if rs == [] {
      assert rs + qs == qs;
    } else {
      CostsConcat(rs[1..], qs, project);
      assert (rs + qs)[1..] == rs[1..] + qs;
    }
  }

  lemma CostsOne(r: Request, project: string)
    ensures OpenCount([r], project) == if r.project == project then 1 else 0
    ensures EntryCost([r], project) == if r.project == project then r.entries else 0
    ensures ByteCost([r], project) == if r.project == project then r.bytes else 0
  {}

  lemma CostsWithout(rs: seq<Request>, i: nat, project: string)
    requires i < |rs|
    ensures var mine := rs[i].project == project;
            && OpenCount(rs, project) == OpenCount(Without(rs, i), project) + (if mine then 1 else 0)
            && EntryCost(rs, project) == EntryCost(Without(rs, i), project) + (if mine then rs[i].entries else 0)
            && ByteCost(rs, project) == ByteCost(Without(rs, i), project) + (if mine then rs[i].bytes else 0)
  {
    CostsOne(rs[i], project);
    CostsConcat(rs[..i], [rs[i]], project);
    CostsConcat(rs[..i] + [rs[i]], rs[i + 1..], project);
    CostsConcat(rs[..i], rs[i + 1..], project);
    assert rs[..i] + [rs[i]] + rs[i + 1..] == rs;
  }

  /** Tokens left, plus what was taken and not given back, never exceed what flowed in. */
  ghost predicate Conserved(b: Bucket, capacity: int, taken: int, first: int) {
    b.tokens + taken as real <= capacity as real + Gain(capacity, b.last - first)
  }

  ghost predicate ProjectAccounts(cfg: Config, w: World, id: string) {
    id in w.st.projects ==>
      var p := w.st.projects[id];
      && id in w.first && w.first[id] <= p.lastSeen
      && Conserved(p.entries, cfg.entriesPerMinute, EntryCost(w.open, id) + EntryCost(w.kept, id), w.first[id])
      && Conserved(p.bytes, cfg.bytesPerMinute, ByteCost(w.open, id) + ByteCost(w.kept, id), w.first[id])
  }

  ghost predicate ProjectInflightMatches(w: World, id: string) {
    OpenCount(w.open, id) == if id in w.st.projects then w.st.projects[id].inflight else 0
  }

  /** Nothing was taken from a project that was never seen. */
  ghost predicate UnseenUntaken(w: World, id: string) {
    id !in w.st.projects ==>
      && EntryCost(w.open, id) == 0 && EntryCost(w.kept, id) == 0
      && ByteCost(w.open, id) == 0 && ByteCost(w.kept, id) == 0
  }

  ghost predicate Accounts(cfg: Config, w: World, clock: int) {
    && StateOk(cfg, w.st, clock) && Costly(w.open)
    && (forall id :: id in w.first ==> id in w.st.projects)
    && forall id :: AccountsAt(cfg, w, id)
  }

  lemma RefillConserves(b: Bucket, capacity: int, taken: int, first: int, now: int)
    requires capacity > 0 && Conserved(b, capacity, taken, first)
    ensures Conserved(Refill(b, capacity, now), capacity, taken, first)
  {
    if now > b.last { GainAdd(capacity, b.last - first, now - b.last); }
  }

  lemma FullConserves(capacity: int, now: int)
    ensures Conserved(FullBucket(capacity, now), capacity, 0, now)
  {
    GainMinute(capacity);
  }

  /** A project's state as the limiter brings it up to date, with the same accounts. */
  lemma SeenConserves(cfg: Config, w: World, id: string, clock: int, now: int)
    requires ValidConfig(cfg) && Accounts(cfg, w, clock) && clock <= now
    ensures var p := SeenProject(cfg, w.st, id, now);
            var first := if id in w.first then w.first[id] else now;
            && first <= now && p.lastSeen == now
            && p.inflight == OpenCount(w.open, id)
            && Conserved(p.entries, cfg.entriesPerMinute, EntryCost(w.open, id) + EntryCost(w.kept, id), first)
            && Conserved(p.bytes, cfg.bytesPerMinute, ByteCost(w.open, id) + ByteCost(w.kept, id), first)
  {
    hide Refill, Conserved, EntryCost, ByteCost, OpenCount, Gain;
    assert AccountsAt(cfg, w, id);
    if id in w.st.projects {
      var p := w.st.projects[id];
      assert ProjectOk(cfg, p, clock);
      RefillConserves(p.entries, cfg.entriesPerMinute, EntryCost(w.open, id) + EntryCost(w.kept, id), w.first[id], now);
      RefillConserves(p.bytes, cfg.bytesPerMinute, ByteCost(w.open, id) + ByteCost(w.kept, id), w.first[id], now);
    } else {
      FullConserves(cfg.entriesPerMinute, now);
      FullConserves(cfg.bytesPerMinute, now);
      RefillSame(FullBucket(cfg.entriesPerMinute, now), cfg.entriesPerMinute, now);
      RefillSame(FullBucket(cfg.bytesPerMinute, now), cfg.bytesPerMinute, now);
    }
  }

  lemma RefillSame(b: Bucket, capacity: int, now: int)
    requires b.last == now
    ensures Refill(b, capacity, now) == b
  {}

  /** The accounts of one project. */
  ghost predicate AccountsAt(cfg: Config, w: World, id: string) {
    ProjectAccounts(cfg, w, id) && ProjectInflightMatches(w, id) && UnseenUntaken(w, id)
  }

  lemma SpendConserves(b: Bucket, capacity: int, taken: int, cost: int, first: int)
    requires Conserved(b, capacity, taken, first)
    ensures Conserved(Spend(b, cost as real), capacity, taken + cost, first)
  {
    assert (taken + cost) as real == taken as real + cost as real;
  }

  lemma RefundConserves(b: Bucket, capacity: int, taken: int, cost: int, first: int)
    requires Conserved(b, capacity, taken, first)
    ensures Conserved(Refund(b, cost as real, capacity), capacity, taken - cost, first)
  {
    assert (taken - cost) as real == taken as real - cost as real;
  }

  lemma AllowAccounts(cfg: Config, w: World, clock: int, now: int, r: Request, id: string)
    requires ValidConfig(cfg) && Accounts(cfg, w, clock) && clock <= now
    ensures AccountsAt(cfg, Step(cfg, w, Allows(now, r), false).0, id)
  {
    hide Conserved, SeenKey, SeenProject, EntryCost, ByteCost, OpenCount, RetryAfter, Spend;
    assert AccountsAt(cfg, w, id);
    SeenConserves(cfg, w, r.project, clock, now);
    CostsConcat(w.open, [r], id);
    CostsOne(r, id);
    if id == r.project {
      var p := SeenProject(cfg, w.st, id, now);
      var first := if id in w.first then w.first[id] else now;
      SpendConserves(p.entries, cfg.entriesPerMinute, EntryCost(w.open, id) + EntryCost(w.kept, id), r.entries, first);
      SpendConserves(p.bytes, cfg.bytesPerMinute, ByteCost(w.open, id) + ByteCost(w.kept, id), r.bytes, first);
    }
  }

  lemma FinishAccounts(cfg: Config, w: World, clock: int, now: int, index: nat, refund: bool, id: string)
    requires ValidConfig(cfg) && Accounts(cfg, w, clock) && clock <= now && index < |w.open|
    ensures AccountsAt(cfg, Step(cfg, w, Finishes(now, index, refund), false).0, id)
  {
    hide Conserved, SeenProject, EntryCost, ByteCost, OpenCount, Refund, Without;
    var r := w.open[index];
    assert AccountsAt(cfg, w, id) && AccountsAt(cfg, w, r.project);
    SeenConserves(cfg, w, r.project, clock, now);
    CostsWithout(w.open, index, id);
    CostsConcat(w.kept, [r], id);
    CostsOne(r, id);
    if id == r.project {
      var p := SeenProject(cfg, w.st, id, now);
      var first := if id in w.first then w.first[id] else now;
      RefundConserves(p.entries, cfg.entriesPerMinute, EntryCost(w.open, id) + EntryCost(w.kept, id), r.entries, first);
      RefundConserves(p.bytes, cfg.bytesPerMinute, ByteCost(w.open, id) + ByteCost(w.kept, id), r.bytes, first);
    }
  }

  lemma StepAccounts(cfg: Config, w: World, clock: int, e: Event)
    requires ValidConfig(cfg) && Accounts(cfg, w, clock) && clock <= e.now
    ensures Accounts(cfg, Step(cfg, w, e, false).0, e.now)
  {
    hide AdmitOp, FinishOp, ProjectAccounts, ProjectInflightMatches, UnseenUntaken;
    var w' := Step(cfg, w, e, false).0;
    match e
    case Allows(now, r) =>
      StateLater(cfg, w.st, clock, now);
      if r.entries > 0 && r.bytes > 0 {
        AdmitOk(cfg, w.st, clock, now, r);
        AdmitProjects(cfg, w.st, now, r);
      }
      forall id ensures AccountsAt(cfg, w', id) { AllowAccounts(cfg, w, clock, now, r, id); }
    case Finishes(now, index, refund) =>
      StateLater(cfg, w.st, clock, now);
      if index < |w.open| {
        assert w.open[index] in w.open;
        FinishOk(cfg, w.st, clock, now, w.open[index], refund);
        FinishKeepsProjects(cfg, w.st, now, w.open[index], refund);
        forall id ensures AccountsAt(cfg, w', id) { FinishAccounts(cfg, w, clock, now, index, refund, id); }
      }
  }

  lemma StateLater(cfg: Config, st: State, clock: int, now: int)
    requires StateOk(cfg, st, clock) && clock <= now
    ensures StateOk(cfg, st, now)
  {}

  lemma {:induction false} RunAccounts(cfg: Config, es: seq<Event>)
    requires ValidConfig(cfg) && ClockForward(es) && es != []
    ensures Accounts(cfg, Run(cfg, es, false).0, es[|es| - 1].now)
    decreases |es|
  {
    hide Step, Accounts;
    var prefix, last := es[..|es| - 1], es[|es| - 1];
    if prefix == [] {
      StartAccounts(cfg, last.now);
      StepAccounts(cfg, START, last.now, last);
    } else {
      RunAccounts(cfg, prefix);
      StepAccounts(cfg, Run(cfg, prefix, false).0, prefix[|prefix| - 1].now, last);
    }
  }

  lemma StartAccounts(cfg: Config, clock: int)
    ensures Accounts(cfg, START, clock)
  {}

  function Inflight(st: State, project: string): int {
    if project in st.projects then st.projects[project].inflight else 0
  }

  /**
    Conservation, in every run of the limiter with eviction: every bucket is within its capacity; a
    project's inflight count is its number of open reservations, and within its limit; and what its
    open and kept reservations took since it was first seen is at most one capacity and what flowed in.
  */
  lemma RunConserves(cfg: Config, es: seq<Event>, id: string)
    requires ValidConfig(cfg) && ClockForward(es) && es != []
    ensures var w := Run(cfg, es, true).0;
            var now := es[|es| - 1].now;
            && StateOk(cfg, w.st, now)
            && Inflight(w.st, id) == OpenCount(w.open, id) <= cfg.maxInflight
            && var entries, bytes := EntryCost(w.open, id) + EntryCost(w.kept, id), ByteCost(w.open, id) + ByteCost(w.kept, id);
            if id in w.first then
              && entries as real <= cfg.entriesPerMinute as real + Gain(cfg.entriesPerMinute, now - w.first[id])
              && bytes as real <= cfg.bytesPerMinute as real + Gain(cfg.bytesPerMinute, now - w.first[id])
            else entries == 0 && bytes == 0
  {
    hide Run, Gain, EntryCost, ByteCost, OpenCount;
    var now := es[|es| - 1].now;
    RunSame(cfg, es);
    RunAccounts(cfg, es);
    var w, ideal := Run(cfg, es, true).0, Run(cfg, es, false).0;
    assert Simulates(cfg, w, ideal, now) && AccountsAt(cfg, ideal, id);
    if id in ideal.st.projects {
      var p := ideal.st.projects[id];
      assert ProjectOk(cfg, p, now);
      GainMonotone(cfg.entriesPerMinute, p.lastSeen - w.first[id], now - w.first[id]);
      GainMonotone(cfg.bytesPerMinute, p.lastSeen - w.first[id], now - w.first[id]);
    }
  }

  // ---- the rate of a key

  /** A request that the key's bucket let through, whatever the project's budgets said. */
  function Took(e: Event, d: Option<Decision>, key: string): nat {
    if e.Allows? && e.request.key == key && d.Some?
       && (d.value.Granted? || (d.value.Limited? && !d.value.reason.KeyRate?)) then 1 else 0
  }

  /** How many requests of a key were let through from the i-th event on. */
  function TakenFrom(es: seq<Event>, ds: seq<Option<Decision>>, i: nat, key: string): nat
    requires |ds| == |es|
    decreases |es|
  {
    if i >= |es| then 0
    else TakenFrom(es[..|es| - 1], ds[..|es| - 1], i, key) + Took(es[|es| - 1], ds[|es| - 1], key)
  }

  /** What a key's bucket holds at a time. */
  function Level(cfg: Config, st: State, key: string, now: int): real { SeenKey(cfg, st, key, now).requests.tokens }

  /** A request that is let through lowers its key's bucket by exactly one token at that instant. */
  lemma TakesOneToken(cfg: Config, st: State, clock: int, now: int, r: Request, key: string)
    requires ValidConfig(cfg) && StateOk(cfg, st, clock) && clock <= now
    ensures var (st', d) := AdmitOp(cfg, st, now, r);
            Level(cfg, st', key, now) == Level(cfg, st, key, now) - Took(Allows(now, r), Some(d), key) as real
  {
    hide StateOk, SeenProject, RetryAfter, Refill;
    SeenKeyOk(cfg, st, r.key, clock, now);
    var st' := AdmitOp(cfg, st, now, r).0;
    if key == r.key { RefillSame(st'.keys[key].requests, cfg.requestsPerMinute, now); }
  }

  /** Between two instants a bucket gains no more than the rate. */
  lemma LevelGrows(cfg: Config, st: State, clock: int, key: string, now: int, later: int)
    requires ValidConfig(cfg) && StateOk(cfg, st, clock) && clock <= now <= later
    ensures Level(cfg, st, key, later) <= Level(cfg, st, key, now) + Gain(cfg.requestsPerMinute, later - now)
    ensures 0.0 <= Level(cfg, st, key, now) <= cfg.requestsPerMinute as real
  {
    hide Gain;
    SeenKeyOk(cfg, st, key, clock, now);
    GainMinute(cfg.requestsPerMinute);
    GainMonotone(cfg.requestsPerMinute, 0, later - now);
    if key in st.keys {
      var b := st.keys[key].requests;
      assert KeyOk(cfg, st.keys[key], clock);
      GainAdd(cfg.requestsPerMinute, now - b.last, later - now);
    }
  }

  lemma StepTakes(cfg: Config, w: World, clock: int, e: Event, key: string)
    requires ValidConfig(cfg) && StateOk(cfg, w.st, clock) && clock <= e.now
    ensures var (w', d) := Step(cfg, w, e, false);
            Level(cfg, w'.st, key, e.now) == Level(cfg, w.st, key, e.now) - Took(e, d, key) as real
  {
    hide StateOk, AdmitOp, Level;
    match e
    case Allows(now, r) => TakesOneToken(cfg, w.st, clock, now, r, key);
    case Finishes(now, index, refund) =>
      if index < |w.open| { FinishKeepsLevel(cfg, w.st, now, w.open[index], refund, key); }
  }

  lemma FinishKeepsLevel(cfg: Config, st: State, now: int, r: Request, refund: bool, key: string)
    ensures Level(cfg, FinishOp(cfg, st, now, r, refund), key, now) == Level(cfg, st, key, now)
  {
    hide SeenProject, Refill, Refund;
  }

  lemma {:induction false} RunTakes(cfg: Config, es: seq<Event>, i: nat, key: string)
    requires ValidConfig(cfg) && ClockForward(es) && i < |es|
    ensures var (w, ds) := Run(cfg, es, false);
            var now := es[|es| - 1].now;
            && |ds| == |es| && StateOk(cfg, w.st, now)
            && TakenFrom(es, ds, i, key) as real + Level(cfg, w.st, key, now)
               <= cfg.requestsPerMinute as real + Gain(cfg.requestsPerMinute, now - es[i].now)
    decreases |es|
  {
    hide Step, StateOk, Level, Gain, Accounts, Took;
    var prefix, last := es[..|es| - 1], es[|es| - 1];
    var (w, ds) := Run(cfg, prefix, false);
    RunLength(cfg, prefix, false);
    RunLength(cfg, es, false);
    RunAccounts(cfg, es);
    AccountsOk(cfg, Run(cfg, es, false).0, last.now);
    var clock := if prefix == [] then last.now else prefix[|prefix| - 1].now;
    PrefixOk(cfg, prefix, clock);
    StepTakes(cfg, w, clock, last, key);
    assert Run(cfg, es, false).1[..|prefix|] == ds;
    LevelGrows(cfg, w.st, clock, key, clock, last.now);
    LevelGrows(cfg, w.st, clock, key, last.now, last.now);
    GainMinute(cfg.requestsPerMinute);
    if i < |prefix| {
      RunTakes(cfg, prefix, i, key);
      GainAdd(cfg.requestsPerMinute, clock - es[i].now, last.now - clock);
    } else {
      assert TakenFrom(prefix, ds, i, key) == 0;
    }
  }

  lemma {:induction false} RunLength(cfg: Config, es: seq<Event>, evicting: bool)
    requires ValidConfig(cfg)
    ensures |Run(cfg, es, evicting).1| == |es|
    decreases |es|
  {
    hide Step;
    if es != [] { RunLength(cfg, es[..|es| - 1], evicting); }
  }

  lemma AccountsOk(cfg: Config, w: World, clock: int)
    requires Accounts(cfg, w, clock)
    ensures StateOk(cfg, w.st, clock)
  {}

  lemma PrefixOk(cfg: Config, es: seq<Event>, clock: int)
    requires ValidConfig(cfg) && ClockForward(es) && (es != [] ==> es[|es| - 1].now == clock)
    ensures StateOk(cfg, Run(cfg, es, false).0.st, clock)
  {
    hide Accounts, Step;
    if es != [] {
      RunAccounts(cfg, es);
      AccountsOk(cfg, Run(cfg, es, false).0, clock);
    }
  }

  /**
    The rate of a key, in every run of the limiter with eviction and over every stretch of it: the
    requests that the key's bucket let through are at most one minute's capacity and what flowed in.
  */
  lemma KeyRateConserved(cfg: Config, es: seq<Event>, i: nat, key: string)
    requires ValidConfig(cfg) && ClockForward(es) && i < |es|
    ensures |Run(cfg, es, true).1| == |es|
    ensures TakenFrom(es, Run(cfg, es, true).1, i, key) as real
         <= cfg.requestsPerMinute as real + Gain(cfg.requestsPerMinute, es[|es| - 1].now - es[i].now)
  {
    hide Run, Gain, TakenFrom, Level;
    RunSame(cfg, es);
    RunTakes(cfg, es, i, key);
    var w := Run(cfg, es, false).0;
    LevelGrows(cfg, w.st, es[|es| - 1].now, key, es[|es| - 1].now, es[|es| - 1].now);
  }

  // ---- what is granted

  /** What a bucket holds at a time, if it was full when it was first needed. */
  function Holding(known: bool, b: Bucket, capacity: int, now: int): real {
    if known then Refill(b, capacity, now).tokens else capacity as real
  }

  /**
    A request is granted exactly when it is well formed, no larger than a minute's capacity, and every
    budget holds its cost at that time; what cleanup evicts first makes no difference.
  */
  lemma GrantedExactlyWhen(cfg: Config, st: State, clock: int, now: int, r: Request)
    requires ValidConfig(cfg) && StateOk(cfg, st, clock) && clock <= now
    ensures var key := if r.key in st.keys then st.keys[r.key].requests else FullBucket(0, 0);
            var project := if r.project in st.projects then st.projects[r.project] else ProjectState(FullBucket(0, 0), FullBucket(0, 0), 0, 0);
            AllowOp(cfg, st, now, r, true).1 == Granted
            <==> (&& cfg.validId(r.key) && cfg.validId(r.project)
                  && 0 < r.entries <= cfg.entriesPerMinute && 0 < r.bytes <= cfg.bytesPerMinute
                  && Holding(r.key in st.keys, key, cfg.requestsPerMinute, now) >= 1.0
                  && project.inflight < cfg.maxInflight
                  && Holding(r.project in st.projects, project.entries, cfg.entriesPerMinute, now) >= r.entries as real
                  && Holding(r.project in st.projects, project.bytes, cfg.bytesPerMinute, now) >= r.bytes as real)
  {
    hide StateOk, Refill, RetryAfter, Cleanup;
    if r.entries > 0 && r.bytes > 0 {
      AllowIgnoresCleanup(cfg, st, clock, now, r);
      NewIsFull(cfg, now);
    }
  }

  ghost predicate LimitedBy(d: Decision, reason: Reason) { d.Limited? && d.reason == reason }

  /** What a request left of its key's tokens. */
  ghost predicate KeyLeft(st: State, key: string, tokens: real, now: int) {
    key in st.keys && st.keys[key] == KeyState(Bucket(tokens, now), now)
  }

  /** What a request left of its project's budgets. */
  ghost predicate ProjectLeft(st: State, project: string, entries: real, bytes: real, inflight: int, now: int) {
    project in st.projects && st.projects[project] == ProjectState(Bucket(entries, now), Bucket(bytes, now), inflight, now)
  }

  function KeyHolding(cfg: Config, st: State, key: string, now: int): real {
    if key in st.keys then Holding(true, st.keys[key].requests, cfg.requestsPerMinute, now) else cfg.requestsPerMinute as real
  }

  function EntriesHolding(cfg: Config, st: State, project: string, now: int): real {
    if project in st.projects then Holding(true, st.projects[project].entries, cfg.entriesPerMinute, now)
    else cfg.entriesPerMinute as real
  }

  function BytesHolding(cfg: Config, st: State, project: string, now: int): real {
    if project in st.projects then Holding(true, st.projects[project].bytes, cfg.bytesPerMinute, now)
    else cfg.bytesPerMinute as real
  }

  /** Everyone else has what they had, or was forgotten. */
  ghost predicate OthersUntouched(before: State, after: State, r: Request) {
    && (forall id :: id in after.keys && id != r.key ==> id in before.keys && after.keys[id] == before.keys[id])
    && (forall id :: id in after.projects && id != r.project ==>
          id in before.projects && after.projects[id] == before.projects[id])
  }

  /**
    What a decision takes: a request takes one token of its key unless the key has none, and a granted
    one its entries, its bytes and a place of its project, and nothing of anyone else.
  */
  lemma TakesExactly(cfg: Config, st: State, clock: int, now: int, r: Request)
    requires ValidConfig(cfg) && StateOk(cfg, st, clock) && clock <= now
    ensures var (st', d) := AllowOp(cfg, st, now, r, true);
            var key := KeyHolding(cfg, st, r.key, now);
            var entries, bytes := EntriesHolding(cfg, st, r.project, now), BytesHolding(cfg, st, r.project, now);
            var inflight := Inflight(st, r.project);
            && OthersUntouched(st, st', r)
            && (d.Invalid? || d.TooLarge? ==> st' == st)
            && (d.Granted? ==>
                  && KeyLeft(st', r.key, key - 1.0, now)
                  && ProjectLeft(st', r.project, entries - r.entries as real, bytes - r.bytes as real, inflight + 1, now))
            && (LimitedBy(d, KeyRate) ==>
                  KeyLeft(st', r.key, key, now) && (r.project in st'.projects ==> Inflight(st', r.project) == inflight))
            && (d.Limited? && !LimitedBy(d, KeyRate) ==>
                  KeyLeft(st', r.key, key - 1.0, now) && ProjectLeft(st', r.project, entries, bytes, inflight, now))
  {
    hide StateOk, Refill, RetryAfter, Cleanup;
    if r.entries > 0 && r.bytes > 0 {
      var cleaned := Cleanup(cfg, st, now);
      CleanedSame(cfg, st, clock, now, r);
      SeenKeyOk(cfg, st, r.key, clock, now);
      SeenProjectOk(cfg, st, r.project, clock, now);
      SeenHolding(cfg, st, clock, now, r);
      hide SeenKey, SeenProject, KeyHolding, EntriesHolding, BytesHolding;
    }
  }

  /** Each refusal with its reason, exactly: the first budget, in this order, that does not hold the cost. */
  lemma RefusedExactlyWhen(cfg: Config, st: State, clock: int, now: int, r: Request)
    requires ValidConfig(cfg) && StateOk(cfg, st, clock) && clock <= now
    ensures var d := AllowOp(cfg, st, now, r, true).1;
            var formed := cfg.validId(r.key) && cfg.validId(r.project) && r.entries > 0 && r.bytes > 0;
            var small := formed && r.entries <= cfg.entriesPerMinute && r.bytes <= cfg.bytesPerMinute;
            var keyed := small && KeyHolding(cfg, st, r.key, now) >= 1.0;
            var placed := keyed && Inflight(st, r.project) < cfg.maxInflight;
            var counted := placed && EntriesHolding(cfg, st, r.project, now) >= r.entries as real;
            && (d.Invalid? <==> !formed)
            && (d.TooLarge? <==> formed && !small)
            && (LimitedBy(d, KeyRate) <==> small && !keyed)
            && (LimitedBy(d, ProjectInflight) <==> keyed && !placed)
            && (LimitedBy(d, ProjectInflight) ==> d.retryAfter == 1_000_000_000)
            && (LimitedBy(d, ProjectEntries) <==> placed && !counted)
            && (LimitedBy(d, ProjectBytes) <==> counted && BytesHolding(cfg, st, r.project, now) < r.bytes as real)
  {
    hide StateOk, Refill, RetryAfter, Cleanup, KeyHolding, EntriesHolding, BytesHolding, SeenKey, SeenProject;
    if r.entries > 0 && r.bytes > 0 {
      CleanedSame(cfg, st, clock, now, r);
      SeenHolding(cfg, st, clock, now, r);
    }
  }

  /** Bringing a key and a project up to date gives what they hold at that time. */
  lemma SeenHolding(cfg: Config, st: State, clock: int, now: int, r: Request)
    requires ValidConfig(cfg) && StateOk(cfg, st, clock) && clock <= now
    ensures SeenKey(cfg, st, r.key, now) == KeyState(Bucket(KeyHolding(cfg, st, r.key, now), now), now)
    ensures SeenProject(cfg, st, r.project, now)
         == ProjectState(Bucket(EntriesHolding(cfg, st, r.project, now), now), Bucket(BytesHolding(cfg, st, r.project, now), now),
                         Inflight(st, r.project), now)
  {
    hide StateOk, Refill;
    NewIsFull(cfg, now);
    SeenKeyOk(cfg, st, r.key, clock, now);
    SeenProjectOk(cfg, st, r.project, clock, now);
  }

  /** Cleanup changes neither what the request meets nor what anyone else has. */
  lemma CleanedSame(cfg: Config, st: State, clock: int, now: int, r: Request)
    requires ValidConfig(cfg) && StateOk(cfg, st, clock) && clock <= now
    ensures var cleaned := Cleanup(cfg, st, now);
            && SeenKey(cfg, cleaned, r.key, now) == SeenKey(cfg, st, r.key, now)
            && SeenProject(cfg, cleaned, r.project, now) == SeenProject(cfg, st, r.project, now)
            && (forall id :: id in cleaned.keys ==> id in st.keys && cleaned.keys[id] == st.keys[id])
            && (forall id :: id in cleaned.projects ==> id in st.projects && cleaned.projects[id] == st.projects[id])
  {
    hide StateOk, Refill;
    ForgotSelf(cfg, st, clock);
    CleanupForgets(cfg, st, st, clock, now);
    SeenKeySame(cfg, Cleanup(cfg, st, now), st, r.key, now, now);
    SeenProjectSame(cfg, Cleanup(cfg, st, now), st, r.project, now, now);
  }

  function Least(x: real, y: real): real { if y < x then y else x }

  /**
    What the end of a reservation gives back: its place, and with a refund its cost, up to the capacity.
    Released at the instant of the grant, the project has again exactly what it had.
  */
  lemma FinishGivesBack(cfg: Config, st: State, clock: int, now: int, r: Request, refund: bool)
    requires ValidConfig(cfg) && StateOk(cfg, st, clock) && clock <= now && Inflight(st, r.project) > 0
    ensures var st' := FinishOp(cfg, st, now, r, refund);
            var entries, bytes := EntriesHolding(cfg, st, r.project, now), BytesHolding(cfg, st, r.project, now);
            && ProjectLeft(st', r.project,
                           if refund then Least(cfg.entriesPerMinute as real, entries + r.entries as real) else entries,
                           if refund then Least(cfg.bytesPerMinute as real, bytes + r.bytes as real) else bytes,
                           Inflight(st, r.project) - 1, now)
            && st'.keys == st.keys && OthersUntouched(st, st', r)
  {
    hide StateOk, Refill, SeenProject, EntriesHolding, BytesHolding;
    SeenHolding(cfg, st, clock, now, r);
  }

  lemma ReleaseUndoesGrant(cfg: Config, st: State, clock: int, now: int, r: Request)
    requires ValidConfig(cfg) && StateOk(cfg, st, clock) && clock <= now
    requires AllowOp(cfg, st, now, r, true).1 == Granted
    ensures var st' := FinishOp(cfg, AllowOp(cfg, st, now, r, true).0, now, r, true);
            ProjectLeft(st', r.project, EntriesHolding(cfg, st, r.project, now), BytesHolding(cfg, st, r.project, now),
                        Inflight(st, r.project), now)
  {
    hide StateOk, AllowOp, SeenProject, SeenKey, KeyHolding, Refill;
    WellFormedIfGranted(cfg, st, now, r);
    AllowIgnoresCleanup(cfg, st, clock, now, r);
    TakesExactly(cfg, st, clock, now, r);
    HoldingWithin(cfg, st, clock, now, r);
    InflightNatural(cfg, st, clock, r.project);
    var granted := AllowOp(cfg, st, now, r, true).0;
    RefillSame(granted.projects[r.project].entries, cfg.entriesPerMinute, now);
    RefillSame(granted.projects[r.project].bytes, cfg.bytesPerMinute, now);
    FinishGivesBack(cfg, granted, now, now, r, true);
  }

  lemma WellFormedIfGranted(cfg: Config, st: State, now: int, r: Request)
    requires ValidConfig(cfg) && AllowOp(cfg, st, now, r, true).1 == Granted
    ensures r.entries > 0 && r.bytes > 0
  {}

  lemma InflightNatural(cfg: Config, st: State, clock: int, project: string)
    requires StateOk(cfg, st, clock)
    ensures Inflight(st, project) >= 0
  {}

  lemma HoldingWithin(cfg: Config, st: State, clock: int, now: int, r: Request)
    requires ValidConfig(cfg) && StateOk(cfg, st, clock) && clock <= now
    ensures 0.0 <= EntriesHolding(cfg, st, r.project, now) <= cfg.entriesPerMinute as real
    ensures 0.0 <= BytesHolding(cfg, st, r.project, now) <= cfg.bytesPerMinute as real
  {
    hide StateOk, Refill, EntriesHolding, BytesHolding, SeenProject;
    SeenHolding(cfg, st, clock, now, r);
    SeenProjectOk(cfg, st, r.project, clock, now);
  }

  // ---- what is forgotten

  /** Cleanup at most once a minute forgets exactly what has been idle for longer than the time to live. */
  lemma CleanupExact(cfg: Config, st: State, now: int, id: string)
    ensures var st' := Cleanup(cfg, st, now);
            if st.lastCleanup.Some? && now - st.lastCleanup.value < 60 * SECOND then st' == st
            else
              && st'.lastCleanup == Some(now)
              && (id in st'.keys <==> id in st.keys && now - st.keys[id].lastSeen <= cfg.stateTtl)
              && (id in st'.keys ==> st'.keys[id] == st.keys[id])
              && (id in st'.projects <==>
                    id in st.projects && (st.projects[id].inflight != 0 || now - st.projects[id].lastSeen <= cfg.stateTtl))
              && (id in st'.projects ==> st'.projects[id] == st.projects[id])
  {}

  ghost predicate RecentAt(cfg: Config, st: State, since: int, id: string) {
    && (id in st.keys ==> st.keys[id].lastSeen >= since - cfg.stateTtl)
    && (id in st.projects && st.projects[id].inflight == 0 ==> st.projects[id].lastSeen >= since - cfg.stateTtl)
  }

  /** Nothing idle was older than the time to live at the last cleanup. */
  ghost predicate Recent(cfg: Config, st: State) {
    if st.lastCleanup.None? then st.keys == map[] && st.projects == map[]
    else forall id :: RecentAt(cfg, st, st.lastCleanup.value, id)
  }

  lemma CleanupRecent(cfg: Config, st: State, now: int)
    requires Recent(cfg, st) && (st.lastCleanup.Some? ==> st.lastCleanup.value <= now)
    ensures var st' := Cleanup(cfg, st, now);
            Recent(cfg, st') && st'.lastCleanup.Some? && now - MINUTE < st'.lastCleanup.value <= now
  {
    var st' := Cleanup(cfg, st, now);
    if st.lastCleanup.None? || now - st.lastCleanup.value >= MINUTE {
      forall id ensures RecentAt(cfg, st', now, id) {}
    }
  }

  lemma AdmitRecent(cfg: Config, st: State, now: int, r: Request)
    requires ValidConfig(cfg) && Recent(cfg, st) && st.lastCleanup.Some? && st.lastCleanup.value <= now
    ensures var st' := AdmitOp(cfg, st, now, r).0; Recent(cfg, st') && st'.lastCleanup == st.lastCleanup
  {
    hide Refill, RetryAfter, DecideProject;
    var st' := AdmitOp(cfg, st, now, r).0;
    forall id ensures RecentAt(cfg, st', st.lastCleanup.value, id) { assert RecentAt(cfg, st, st.lastCleanup.value, id); }
  }

  lemma FinishRecent(cfg: Config, st: State, now: int, r: Request, refund: bool)
    requires ValidConfig(cfg) && Recent(cfg, st) && (st.lastCleanup.Some? ==> st.lastCleanup.value <= now)
    ensures var st' := FinishOp(cfg, st, now, r, refund); Recent(cfg, st') && st'.lastCleanup == st.lastCleanup
  {
    hide Refill, Refund;
    var st' := FinishOp(cfg, st, now, r, refund);
    if st.lastCleanup.Some? {
      forall id ensures RecentAt(cfg, st', st.lastCleanup.value, id) { assert RecentAt(cfg, st, st.lastCleanup.value, id); }
    }
  }

  lemma {:induction false} RunRecent(cfg: Config, es: seq<Event>)
    requires ValidConfig(cfg) && ClockForward(es)
    ensures var st := Run(cfg, es, true).0.st;
            Recent(cfg, st) && (st.lastCleanup.Some? ==> es != [] && st.lastCleanup.value <= es[|es| - 1].now)
    decreases |es|
  {
    hide Cleanup, AdmitOp, FinishOp, Recent;
    if es == [] {
      EmptyRecent(cfg);
    } else {
      var prefix, last := es[..|es| - 1], es[|es| - 1];
      RunRecent(cfg, prefix);
      var w := Run(cfg, prefix, true).0;
      match last
      case Allows(now, r) =>
        CleanupRecent(cfg, w.st, now);
        AdmitRecent(cfg, Cleanup(cfg, w.st, now), now, r);
      case Finishes(now, index, refund) =>
        if index < |w.open| { FinishRecent(cfg, w.st, now, w.open[index], refund); }
    }
  }

  lemma EmptyRecent(cfg: Config)
    ensures Recent(cfg, EMPTY)
  {}

  /**
    Memory is bounded by recency: after every request that reached the budgets, whatever the limiter
    remembers was seen within the time to live and a minute, or is a project with open reservations.
  */
  lemma RemembersRecent(cfg: Config, es: seq<Event>, id: string)
    requires ValidConfig(cfg) && ClockForward(es) && es != [] && es[|es| - 1].Allows?
    requires var d := Run(cfg, es, true).1; |d| == |es| && d[|es| - 1].Some? && (d[|es| - 1].value.Granted? || d[|es| - 1].value.Limited?)
    ensures var (st, now) := (Run(cfg, es, true).0.st, es[|es| - 1].now);
            && (id in st.keys ==> now - st.keys[id].lastSeen < cfg.stateTtl + MINUTE)
            && (id in st.projects && st.projects[id].inflight == 0 ==> now - st.projects[id].lastSeen < cfg.stateTtl + MINUTE)
  {
    hide Cleanup, AdmitOp, Recent;
    var prefix, last := es[..|es| - 1], es[|es| - 1];
    RunRecent(cfg, prefix);
    RunLength(cfg, prefix, true);
    var w := Run(cfg, prefix, true).0;
    CleanupRecent(cfg, w.st, last.now);
    AdmitRecent(cfg, Cleanup(cfg, w.st, last.now), last.now, last.request);
    RecentMeans(cfg, AdmitOp(cfg, Cleanup(cfg, w.st, last.now), last.now, last.request).0, id);
  }

  lemma RecentMeans(cfg: Config, st: State, id: string)
    requires Recent(cfg, st) && st.lastCleanup.Some?
    ensures RecentAt(cfg, st, st.lastCleanup.value, id)
  {}

  lemma NewIsFull(cfg: Config, now: int)
    ensures Refill(FullBucket(cfg.requestsPerMinute, now), cfg.requestsPerMinute, now) == FullBucket(cfg.requestsPerMinute, now)
    ensures Refill(FullBucket(cfg.entriesPerMinute, now), cfg.entriesPerMinute, now) == FullBucket(cfg.entriesPerMinute, now)
    ensures Refill(FullBucket(cfg.bytesPerMinute, now), cfg.bytesPerMinute, now) == FullBucket(cfg.bytesPerMinute, now)
  {}

  // ---- retrying after the advertised time

  lemma ForgotSelf(cfg: Config, st: State, clock: int)
    requires StateOk(cfg, st, clock)
    ensures Forgot(cfg, st, st, clock)
  {}

  /** A decision is the one of the limiter that never forgets, from any state. */
  lemma AllowIgnoresCleanup(cfg: Config, st: State, clock: int, now: int, r: Request)
    requires ValidConfig(cfg) && StateOk(cfg, st, clock) && clock <= now && r.entries > 0 && r.bytes > 0
    ensures AllowOp(cfg, st, now, r, true).1 == AllowOp(cfg, st, now, r, false).1
    ensures StateOk(cfg, AllowOp(cfg, st, now, r, true).0, now)
  {
    hide StateOk, AdmitOp, Cleanup, Forgot;
    ForgotSelf(cfg, st, clock);
    CleanupForgets(cfg, st, st, clock, now);
    ForgotLater(cfg, st, st, clock, now);
    AdmitSame(cfg, Cleanup(cfg, st, now), st, now, now, r);
    ForgotIsOk(cfg, Cleanup(cfg, st, now), st, now);
    StateLater(cfg, st, clock, now);
    AdmitOk(cfg, Cleanup(cfg, st, now), now, now, r);
  }

  lemma ForgotIsOk(cfg: Config, st: State, ideal: State, clock: int)
    requires Forgot(cfg, st, ideal, clock)
    ensures StateOk(cfg, st, clock)
  {}

  lemma AdmitReads(cfg: Config, st: State, now: int, r: Request)
    requires ValidConfig(cfg)
    ensures var (st', decision) := AdmitOp(cfg, st, now, r);
            var key, project := SeenKey(cfg, st, r.key, now), SeenProject(cfg, st, r.project, now);
            if key.requests.tokens < 1.0 then
              && decision == Limited(KeyRate, RetryAfter(key.requests.tokens, 1.0, cfg.requestsPerMinute))
              && r.key in st'.keys && st'.keys[r.key] == key
            else
              && decision == DecideProject(cfg, project, r)
              && (decision != Granted ==> r.project in st'.projects && st'.projects[r.project] == project)
  {
    hide SeenKey, SeenProject, DecideProject, RetryAfter;
  }

  /** A request refused now and repeated after some milliseconds in which nothing else happened. */
  lemma RetryAfterSuffices(cfg: Config, st: State, clock: int, now: int, r: Request, millis: nat)
    requires ValidConfig(cfg) && StateOk(cfg, st, clock) && clock <= now
    ensures var (st', first) := AllowOp(cfg, st, now, r, true);
            var second := AllowOp(cfg, st', now + millis * MILLISECOND, r, true).1;
            && (LimitedBy(first, KeyRate) ==>
                  (LimitedBy(second, KeyRate) <==> millis * MILLISECOND < first.retryAfter))
            && (LimitedBy(first, ProjectEntries) && !LimitedBy(second, KeyRate) ==>
                  (LimitedBy(second, ProjectEntries) <==> millis * MILLISECOND < first.retryAfter))
            && (LimitedBy(first, ProjectBytes) && !LimitedBy(second, KeyRate) ==>
                  (LimitedBy(second, ProjectBytes) <==> millis * MILLISECOND < first.retryAfter))
  {
    hide StateOk, AdmitOp, Cleanup, RetryAfter, Refill;
    if r.entries > 0 && r.bytes > 0 && r.entries <= cfg.entriesPerMinute && r.bytes <= cfg.bytesPerMinute {
      var later := now + millis * MILLISECOND;
      var cleaned := Cleanup(cfg, st, now);
      var st' := AdmitOp(cfg, cleaned, now, r).0;
      AllowIgnoresCleanup(cfg, st, clock, now, r);
      CleanedOk(cfg, st, clock, now);
      AdmitOk(cfg, cleaned, now, now, r);
      AllowIgnoresCleanup(cfg, st', now, later, r);
      AdmitReads(cfg, cleaned, now, r);
      AdmitReads(cfg, st', later, r);
      SeenKeyOk(cfg, cleaned, r.key, now, now);
      SeenProjectOk(cfg, cleaned, r.project, now, now);
      var key, project := SeenKey(cfg, cleaned, r.key, now), SeenProject(cfg, cleaned, r.project, now);
      SeenInflight(cfg, cleaned, r.project, now);
      if key.requests.tokens < 1.0 {
        RetryAfterExact(key.requests, 1, cfg.requestsPerMinute, millis);
      } else {
        RefillInBounds(project.entries, cfg.entriesPerMinute, later);
        if project.entries.tokens < r.entries as real {
          RetryAfterExact(project.entries, r.entries, cfg.entriesPerMinute, millis);
        } else if project.bytes.tokens < r.bytes as real {
          RetryAfterExact(project.bytes, r.bytes, cfg.bytesPerMinute, millis);
        }
      }
    }
  }

  lemma CleanedOk(cfg: Config, st: State, clock: int, now: int)
    requires ValidConfig(cfg) && StateOk(cfg, st, clock) && clock <= now
    ensures StateOk(cfg, Cleanup(cfg, st, now), now)
  {}

  // ---- the limiter object

  class Limiter {
    const cfg: Config
    var keys: map<string, KeyState>
    var projects: map<string, ProjectState>
    var lastCleanup: Option<int>

    constructor (cfg: Config)
      ensures this.cfg == cfg && Value() == EMPTY
    {
      this.cfg := cfg;
      keys := map[];
      projects := map[];
      lastCleanup := None;
    }

    ghost function Value(): State
      reads this
    {
      State(keys, projects, lastCleanup)
    }

    method EvictKeys(cutoff: int)
      modifies `keys
      ensures keys == FreshKeys(old(keys), cutoff)
    {
      var ids := keys.Keys;
      while ids != {}
        invariant ids <= keys.Keys <= old(keys).Keys
        invariant forall id :: id in old(keys) && id !in ids ==> (id in keys <==> old(keys)[id].lastSeen >= cutoff)
        invariant forall id :: id in keys ==> keys[id] == old(keys)[id]
        decreases |ids|
      {
        var id :| id in ids;
        if keys[id].lastSeen < cutoff { keys := keys - {id}; }
        ids := ids - {id};
      }
    }

    method EvictProjects(cutoff: int)
      modifies `projects
      ensures projects == FreshProjects(old(projects), cutoff)
    {
      var ids := projects.Keys;
      while ids != {}
        invariant ids <= projects.Keys <= old(projects).Keys
        invariant forall id :: id in old(projects) && id !in ids ==>
                    (id in projects <==> !(old(projects)[id].inflight == 0 && old(projects)[id].lastSeen < cutoff))
        invariant forall id :: id in projects ==> projects[id] == old(projects)[id]
        decreases |ids|
      {
        var id :| id in ids;
        if projects[id].inflight == 0 && projects[id].lastSeen < cutoff { projects := projects - {id}; }
        ids := ids - {id};
      }
    }

    /** cleanupLocked, at most once a minute. */
    method CleanupLocked(now: int)
      modifies this
      ensures Value() == Cleanup(cfg, old(Value()), now)
    {
      hide FreshKeys, FreshProjects;
      if lastCleanup.Some? && now - lastCleanup.value < MINUTE { return; }
      var cutoff := now - cfg.stateTtl;
      EvictKeys(cutoff);
      EvictProjects(cutoff);
      lastCleanup := Some(now);
    }

    method AllowIngest(now: int, r: Request) returns (decision: Decision)
      requires ValidConfig(cfg)
      modifies this
      ensures (Value(), decision) == AllowOp(cfg, old(Value()), now, r, true)
    {
      hide Refill, RetryAfter, Cleanup;
      if !cfg.validId(r.key) || !cfg.validId(r.project) || r.entries <= 0 || r.bytes <= 0 { return Invalid; }
      if r.entries > cfg.entriesPerMinute || r.bytes > cfg.bytesPerMinute { return TooLarge; }
      CleanupLocked(now);
      var requests := if r.key in keys then keys[r.key].requests else FullBucket(cfg.requestsPerMinute, now);
      requests := Refill(requests, cfg.requestsPerMinute, now);
      if requests.tokens < 1.0 {
        keys := keys[r.key := KeyState(requests, now)];
        return Limited(KeyRate, RetryAfter(requests.tokens, 1.0, cfg.requestsPerMinute));
      }
      keys := keys[r.key := KeyState(Spend(requests, 1.0), now)];
      var project :=
        if r.project in projects then projects[r.project]
        else ProjectState(FullBucket(cfg.entriesPerMinute, now), FullBucket(cfg.bytesPerMinute, now), 0, now);
      var entries, bytes := Refill(project.entries, cfg.entriesPerMinute, now), Refill(project.bytes, cfg.bytesPerMinute, now);
      ghost var before := projects;
      projects := projects[r.project := ProjectState(entries, bytes, project.inflight, now)];
      if project.inflight >= cfg.maxInflight { return Limited(ProjectInflight, SECOND); }
      if entries.tokens < r.entries as real {
        return Limited(ProjectEntries, RetryAfter(entries.tokens, r.entries as real, cfg.entriesPerMinute));
      }
      if bytes.tokens < r.bytes as real {
        return Limited(ProjectBytes, RetryAfter(bytes.tokens, r.bytes as real, cfg.bytesPerMinute));
      }
      projects := projects[r.project :=
        ProjectState(Spend(entries, r.entries as real), Spend(bytes, r.bytes as real), project.inflight + 1, now)];
      assert projects == before[r.project := projects[r.project]];
      return Granted;
    }

    method Finish(now: int, r: Request, refund: bool)
      modifies this
      ensures Value() == FinishOp(cfg, old(Value()), now, r, refund)
    {
      hide Refill;
      if r.project !in projects || projects[r.project].inflight <= 0 { return; }
      var p := projects[r.project];
      var entries, bytes := Refill(p.entries, cfg.entriesPerMinute, now), Refill(p.bytes, cfg.bytesPerMinute, now);
      if refund {
        entries := Refund(entries, r.entries as real, cfg.entriesPerMinute);
        bytes := Refund(bytes, r.bytes as real, cfg.bytesPerMinute);
      }
      projects := projects[r.project := ProjectState(entries, bytes, p.inflight - 1, now)];
    }
  }

  /** What AllowIngest returns for a granted request: it is settled by its first end only. */
  class Reservation {
    const limiter: Limiter
    const request: Request
    var settled: bool

    constructor (limiter: Limiter, request: Request)
      ensures this.limiter == limiter && this.request == request && !settled
    {
      this.limiter := limiter;
      this.request := request;
      settled := false;
    }

    method Settle(now: int, refund: bool)
      modifies this, limiter
      ensures settled
      ensures limiter.Value()
           == if old(settled) then old(limiter.Value()) else FinishOp(limiter.cfg, old(limiter.Value()), now, request, refund)
    {
      if !settled {
        settled := true;
        limiter.Finish(now, request, refund);
      }
    }

    method Commit(now: int)
      modifies this, limiter
      ensures settled
      ensures limiter.Value()
           == if old(settled) then old(limiter.Value()) else FinishOp(limiter.cfg, old(limiter.Value()), now, request, false)
    {
      Settle(now, false);
    }

    method Release(now: int)
      modifies this, limiter
      ensures settled
      ensures limiter.Value()
           == if old(settled) then old(limiter.Value()) else FinishOp(limiter.cfg, old(limiter.Value()), now, request, true)
    {
      Settle(now, true);
    }
  }
}
