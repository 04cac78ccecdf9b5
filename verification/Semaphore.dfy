/**
  The per-project query limiter: semaphores that are created on demand, counted by their users and
  deleted when idle, under every interleaving of the atomic parts of acquire and release.
*/
module Semaphore {
  import opened Prelude

  datatype Sem = Sem(tokens: nat, users: nat)

  /** Where a caller is between two of its atomic parts. */
  datatype Phase =
    | Outside
    | Entered(project: string, sem: int)
    | Refused(project: string, sem: int)
    | Holding(project: string, sem: int)
    | Drained(project: string, sem: int)

  /** The map under the lock, the semaphores themselves, and every caller's place. */
  datatype State = State(
    capacity: nat, projects: map<string, int>, sems: map<int, Sem>, next: int, callers: map<string, Phase>)

  function Start(capacity: nat): State { State(capacity, map[], map[], 0, map[]) }

  function PhaseOf(st: State, t: string): Phase { if t in st.callers then st.callers[t] else Outside }

  // ---- the atomic parts

  /** Acquire under the lock: find or make the project's semaphore and join its users. */
  function Enter(st: State, t: string, project: string): State {
    if project in st.projects && st.projects[project] in st.sems then
      var s := st.projects[project];
      st.(sems := st.sems[s := st.sems[s].(users := st.sems[s].users + 1)],
          callers := st.callers[t := Entered(project, s)])
    else
      st.(projects := st.projects[project := st.next],
          sems := st.sems[st.next := Sem(0, 1)],
          next := st.next + 1,
          callers := st.callers[t := Entered(project, st.next)])
  }

  /** The send on the channel. */
  function Take(st: State, t: string): State
    requires PhaseOf(st, t).Entered? && PhaseOf(st, t).sem in st.sems
  {
    var ph := st.callers[t];
    st.(sems := st.sems[ph.sem := st.sems[ph.sem].(tokens := st.sems[ph.sem].tokens + 1)],
        callers := st.callers[t := Holding(ph.project, ph.sem)])
  }

  function Refuse(st: State, t: string): State
    requires PhaseOf(st, t).Entered?
  {
    st.(callers := st.callers[t := Refused(st.callers[t].project, st.callers[t].sem)])
  }

  /** The receive of the release function, which runs once. */
  function Drain(st: State, t: string): State
    requires PhaseOf(st, t).Holding? && PhaseOf(st, t).sem in st.sems && st.sems[PhaseOf(st, t).sem].tokens > 0
  {
    var ph := st.callers[t];
    st.(sems := st.sems[ph.sem := st.sems[ph.sem].(tokens := st.sems[ph.sem].tokens - 1)],
        callers := st.callers[t := Drained(ph.project, ph.sem)])
  }

  /** releaseUser under the lock: leave, and delete the project's entry if the semaphore is idle. */
  function Leave(st: State, t: string): State
    requires PhaseOf(st, t).Refused? || PhaseOf(st, t).Drained?
    requires PhaseOf(st, t).sem in st.sems && st.sems[PhaseOf(st, t).sem].users > 0
  {
    var ph := st.callers[t];
    var sem := st.sems[ph.sem].(users := st.sems[ph.sem].users - 1);
    st.(sems := st.sems[ph.sem := sem],
        projects := if sem.users == 0 && sem.tokens == 0 then st.projects - {ph.project} else st.projects,
        callers := st.callers[t := Outside])
  }

  datatype Step = Enters(caller: string, project: string) | Takes(caller: string) | FailsFull(caller: string)
    | Cancels(caller: string) | Drains(caller: string) | Leaves(caller: string)

  /** Which parts can run: a send needs room, and the default branch is chosen only without room. */
  predicate Enabled(st: State, step: Step) {
    var ph := PhaseOf(st, step.caller);
    match step
    case Enters(_, _) => ph.Outside?
    case Takes(_) => ph.Entered? && ph.sem in st.sems && st.sems[ph.sem].tokens < st.capacity
    case FailsFull(_) => ph.Entered? && ph.sem in st.sems && st.sems[ph.sem].tokens >= st.capacity
    case Cancels(_) => ph.Entered?
    case Drains(_) => ph.Holding? && ph.sem in st.sems && st.sems[ph.sem].tokens > 0
    case Leaves(_) => (ph.Refused? || ph.Drained?) && ph.sem in st.sems && st.sems[ph.sem].users > 0
  }

  function Next(st: State, step: Step): State
    requires Enabled(st, step)
  {
    match step
    case Enters(t, project) => Enter(st, t, project)
    case Takes(t) => Take(st, t)
    case FailsFull(t) => Refuse(st, t)
    case Cancels(t) => Refuse(st, t)
    case Drains(t) => Drain(st, t)
    case Leaves(t) => Leave(st, t)
  }

  // ---- the invariant

  predicate Uses(ph: Phase, s: int) { !ph.Outside? && ph.sem == s }

  predicate Holds(ph: Phase, s: int) { ph.Holding? && ph.sem == s }

  function Users(callers: map<string, Phase>, s: int): set<string> { set t | t in callers && Uses(callers[t], s) }

  function Holders(callers: map<string, Phase>, s: int): set<string> { set t | t in callers && Holds(callers[t], s) }

  /** The counters are what they count. */
  ghost predicate Counted(st: State, s: int) {
    s in st.sems ==>
      && s < st.next
      && st.sems[s].users == |Users(st.callers, s)|
      && st.sems[s].tokens == |Holders(st.callers, s)| <= st.capacity
  }

  /** A caller inside uses the semaphore that the map has for its project. */
  ghost predicate InMap(st: State, t: string) {
    !PhaseOf(st, t).Outside? ==>
      && PhaseOf(st, t).project in st.projects && st.projects[PhaseOf(st, t).project] == PhaseOf(st, t).sem
  }

  /** An entry of the map is a semaphore in use, of one project only. */
  ghost predicate EntryOk(st: State, p: string) {
    p in st.projects ==>
      && st.projects[p] in st.sems && st.sems[st.projects[p]].users > 0
      && forall q :: q in st.projects && st.projects[q] == st.projects[p] ==> q == p
  }

  ghost predicate Inv(st: State) {
    (forall s :: Counted(st, s)) && (forall t :: InMap(st, t)) && (forall p :: EntryOk(st, p))
  }

  lemma UsersChange(callers: map<string, Phase>, t: string, ph: Phase, s: int)
    ensures |Users(callers[t := ph], s)| == |Users(callers, s) - {t}| + (if Uses(ph, s) then 1 else 0)
  {
    hide Uses;
    var others := Users(callers, s) - {t};
    if Uses(ph, s) {
      assert Users(callers[t := ph], s) == others + {t};
    } else {
      assert Users(callers[t := ph], s) == others;
    }
  }

  lemma HoldersChange(callers: map<string, Phase>, t: string, ph: Phase, s: int)
    ensures |Holders(callers[t := ph], s)| == |Holders(callers, s) - {t}| + (if Holds(ph, s) then 1 else 0)
  {
    hide Holds;
    var others := Holders(callers, s) - {t};
    if Holds(ph, s) {
      assert Holders(callers[t := ph], s) == others + {t};
    } else {
      assert Holders(callers[t := ph], s) == others;
    }
  }

  lemma WithoutOne(xs: set<string>, t: string)
    ensures |xs| == |xs - {t}| + (if t in xs then 1 else 0)
  {
    if t in xs {
      assert xs == xs - {t} + {t};
    } else {
      assert xs == xs - {t};
    }
  }

  lemma OutsideUsesNothing(s: int)
    ensures !Uses(Outside, s) && !Holds(Outside, s)
  {}

  /** How a caller's change of phase changes the counts. */
  lemma PhaseChange(callers: map<string, Phase>, t: string, ph: Phase, s: int)
    ensures var was := if t in callers then callers[t] else Outside;
            && |Users(callers[t := ph], s)| - |Users(callers, s)| == (if Uses(ph, s) then 1 else 0) - (if Uses(was, s) then 1 else 0)
            && |Holders(callers[t := ph], s)| - |Holders(callers, s)| == (if Holds(ph, s) then 1 else 0) - (if Holds(was, s) then 1 else 0)
  {
    hide Uses, Holds;
    UsersChange(callers, t, ph, s);
    HoldersChange(callers, t, ph, s);
    WithoutOne(Users(callers, s), t);
    WithoutOne(Holders(callers, s), t);
    OutsideUsesNothing(s);
  }

  /** A caller inside is counted by its semaphore. */
  lemma InsideCounted(st: State, t: string)
    requires Inv(st) && !PhaseOf(st, t).Outside?
    ensures var s := PhaseOf(st, t).sem;
            && s in st.sems && st.sems[s].users > 0
            && (PhaseOf(st, t).Holding? ==> st.sems[s].tokens > 0)
  {
    var ph := PhaseOf(st, t);
    assert InMap(st, t) && EntryOk(st, ph.project) && Counted(st, ph.sem);
    assert t in Users(st.callers, ph.sem);
    if ph.Holding? { assert t in Holders(st.callers, ph.sem); }
  }

  lemma CountedKept(st: State, step: Step, s: int)
    requires Inv(st) && Enabled(st, step)
    ensures Counted(Next(st, step), s)
  {
    hide Users, Holders;
    var st' := Next(st, step);
    var t := step.caller;
    assert Counted(st, s);
    assert forall p :: p in st.projects ==> EntryOk(st, p);
    PhaseChange(st.callers, t, PhaseOf(st', t), s);
    if step.Enters? {
      assert Counted(st, st.next);
      NewSemaphoreUnused(st, st.next);
      assert step.project in st.projects ==> EntryOk(st, step.project);
    }
  }

  /** No one uses a semaphore that does not exist yet. */
  lemma NewSemaphoreUnused(st: State, s: int)
    requires Inv(st) && s !in st.sems
    ensures |Users(st.callers, s)| == 0 && |Holders(st.callers, s)| == 0
  {
    forall t | t in st.callers ensures !Uses(st.callers[t], s) && !Holds(st.callers[t], s) {
      if !st.callers[t].Outside? { InsideCounted(st, t); }
    }
    hide Uses, Holds;
    assert Users(st.callers, s) == {};
    assert Holders(st.callers, s) == {};
  }

  lemma HoldersAreUsers(callers: map<string, Phase>, s: int)
    ensures |Holders(callers, s)| <= |Users(callers, s)|
  {
    assert Holders(callers, s) <= Users(callers, s);
    SubsetSize(Holders(callers, s), Users(callers, s));
  }

  /** The last user of a semaphore is its only user. */
  lemma LastUser(st: State, t: string, u: string, s: int)
    requires Counted(st, s) && s in st.sems && st.sems[s].users == 1
    requires Uses(PhaseOf(st, t), s) && Uses(PhaseOf(st, u), s)
    ensures t == u
  {
    hide Uses;
    OutsideUsesNothing(s);
    assert t in Users(st.callers, s) && u in Users(st.callers, s);
    SubsetSize({t, u}, Users(st.callers, s));
  }

  lemma InMapKept(st: State, step: Step, u: string)
    requires Inv(st) && Enabled(st, step)
    ensures InMap(Next(st, step), u)
  {
    hide Counted, EntryOk;
    var t := step.caller;
    assert InMap(st, u) && InMap(st, t);
    if step.Enters? {
      assert EntryOk(st, step.project);
      EntryExists(st, step.project);
    }
    if step.Leaves? && u != t && !PhaseOf(st, u).Outside? && PhaseOf(st, u).project == PhaseOf(st, t).project {
      var s := PhaseOf(st, t).sem;
      assert Counted(st, s);
      if st.sems[s].users == 1 { LastUser(st, t, u, s); }
    }
  }

  lemma EntryExists(st: State, p: string)
    requires EntryOk(st, p)
    ensures p in st.projects ==> st.projects[p] in st.sems
  {}

  lemma EntryKept(st: State, step: Step, p: string)
    requires Inv(st) && Enabled(st, step)
    ensures EntryOk(Next(st, step), p)
  {
    var t := step.caller;
    assert EntryOk(st, p) && InMap(st, t);
    forall q | q in st.projects ensures st.projects[q] in st.sems && st.projects[q] < st.next {
      assert EntryOk(st, q) && Counted(st, st.projects[q]);
    }
    if step.Enters? {
      assert EntryOk(st, step.project);
    }
    if step.Leaves? {
      var ph := PhaseOf(st, t);
      assert EntryOk(st, ph.project) && Counted(st, ph.sem);
      CountedKept(st, step, ph.sem);
      HoldersAreUsers(Next(st, step).callers, ph.sem);
    }
  }

  lemma InvKept(st: State, step: Step)
    requires Inv(st) && Enabled(st, step)
    ensures Inv(Next(st, step))
  {
    hide Next, Counted, InMap, EntryOk, Enabled;
    forall s ensures Counted(Next(st, step), s) { CountedKept(st, step, s); }
    forall u ensures InMap(Next(st, step), u) { InMapKept(st, step, u); }
    forall p ensures EntryOk(Next(st, step), p) { EntryKept(st, step, p); }
  }

  // ---- every interleaving

  ghost predicate Reaches(st: State, steps: seq<Step>, end: State)
    decreases |steps|
  {
    if steps == [] then end == st
    else Enabled(st, steps[0]) && Reaches(Next(st, steps[0]), steps[1..], end)
  }

  lemma {:induction false} ReachesInv(st: State, steps: seq<Step>, end: State)
    requires Inv(st) && Reaches(st, steps, end)
    ensures Inv(end) && end.capacity == st.capacity
    decreases |steps|
  {
    hide Inv, Enabled;
    if steps != [] {
      InvKept(st, steps[0]);
      ReachesInv(Next(st, steps[0]), steps[1..], end);
    }
  }

  function ProjectHolders(st: State, project: string): set<string> {
    set t | t in st.callers && st.callers[t].Holding? && st.callers[t].project == project
  }

  /**
    Under every interleaving: no more than the capacity of callers hold a project's semaphore at
    once, although semaphores are deleted and made again; every holder's semaphore is the one that
    the map has for its project; and every entry of the map has a user.
  */
  lemma CapacityNeverExceeded(capacity: nat, steps: seq<Step>, end: State, project: string)
    requires Reaches(Start(capacity), steps, end)
    ensures |ProjectHolders(end, project)| <= capacity
    ensures forall t :: t in ProjectHolders(end, project) ==>
              project in end.projects && end.callers[t].sem == end.projects[project]
    ensures project in end.projects ==>
              exists t :: t in end.callers && Uses(end.callers[t], end.projects[project])
  {
    StartInv(capacity);
    ReachesInv(Start(capacity), steps, end);
    hide Reaches;
    assert EntryOk(end, project);
    forall t | t in ProjectHolders(end, project)
      ensures project in end.projects && end.callers[t].sem == end.projects[project]
    {
      assert InMap(end, t);
    }
    if project in end.projects {
      var s := end.projects[project];
      assert Counted(end, s);
      forall t | t in ProjectHolders(end, project) ensures t in Holders(end.callers, s) { assert InMap(end, t); }
      assert ProjectHolders(end, project) <= Holders(end.callers, s);
      SubsetSize(ProjectHolders(end, project), Holders(end.callers, s));
      SomeMember(Users(end.callers, s));
      var t :| t in Users(end.callers, s);
      assert Uses(end.callers[t], s);
    } else {
      assert ProjectHolders(end, project) == {};
    }
  }

  lemma StartInv(capacity: nat)
    ensures Inv(Start(capacity))
  {
    var st := Start(capacity);
    forall s ensures Counted(st, s) {}
  }

  /** An entry is deleted only by the caller that was its semaphore's last user. */
  lemma DeletedOnlyUnused(capacity: nat, steps: seq<Step>, st: State, step: Step, project: string)
    requires Reaches(Start(capacity), steps, st) && Enabled(st, step)
    requires project in st.projects && project !in Next(st, step).projects
    ensures step.Leaves? && Users(Next(st, step).callers, st.projects[project]) == {}
  {
    StartInv(capacity);
    ReachesInv(Start(capacity), steps, st);
    hide Reaches;
    assert InMap(st, step.caller) && Counted(st, st.projects[project]);
    CountedKept(st, step, st.projects[project]);
  }

  /** The default branch of the select refuses only when the capacity is in use. */
  lemma RefusedOnlyWhenFull(capacity: nat, steps: seq<Step>, st: State, caller: string)
    requires Reaches(Start(capacity), steps, st) && Enabled(st, FailsFull(caller))
    ensures |Holders(st.callers, st.callers[caller].sem)| == capacity
  {
    StartInv(capacity);
    ReachesInv(Start(capacity), steps, st);
    hide Reaches;
    assert Counted(st, st.callers[caller].sem);
  }

  // ---- the limiter object

  /** The two parts under the lock and the two channel operations, in place. */
  class ProjectLimiter {
    const capacity: nat
    var projects: map<string, int>
    var sems: map<int, Sem>
    var next: int
    ghost var callers: map<string, Phase>

    constructor (capacity: nat)
      ensures this.capacity == capacity && Value() == Start(capacity)
    {
      this.capacity := capacity;
      projects := map[];
      sems := map[];
      next := 0;
      callers := map[];
    }

    ghost function Value(): State
      reads this
    {
      State(capacity, projects, sems, next, callers)
    }

    /** Acquire up to the select: the semaphore that the caller will send to. */
    method Join(project: string, ghost t: string) returns (s: int)
      requires Inv(Value()) && Enabled(Value(), Enters(t, project))
      modifies this
      ensures Value() == Next(old(Value()), Enters(t, project)) && Inv(Value())
      ensures PhaseOf(Value(), t) == Entered(project, s)
    {
      InvKept(Value(), Enters(t, project));
      assert EntryOk(Value(), project);
      hide Inv;
      if project in projects {
        s := projects[project];
      } else {
        s := next;
        next := next + 1;
        projects := projects[project := s];
        sems := sems[s := Sem(0, 0)];
      }
      ghost var before := sems;
      sems := sems[s := sems[s].(users := sems[s].users + 1)];
      callers := callers[t := Entered(project, s)];
      assert s == old(next) && project !in old(projects) ==> sems == old(sems)[s := Sem(0, 1)];
    }

    /** The select: true when a token was taken. */
    method TrySend(s: int, ghost t: string) returns (taken: bool)
      requires Inv(Value()) && PhaseOf(Value(), t).Entered? && PhaseOf(Value(), t).sem == s
      modifies this
      ensures Enabled(old(Value()), if taken then Takes(t) else FailsFull(t))
      ensures Value() == Next(old(Value()), if taken then Takes(t) else FailsFull(t)) && Inv(Value())
    {
      InsideCounted(Value(), t);
      ghost var ph := callers[t];
      taken := sems[s].tokens < capacity;
      InvKept(Value(), if taken then Takes(t) else FailsFull(t));
      hide Inv;
      if taken {
        sems := sems[s := sems[s].(tokens := sems[s].tokens + 1)];
        callers := callers[t := Holding(ph.project, s)];
      } else {
        callers := callers[t := Refused(ph.project, s)];
      }
    }

    method Receive(s: int, ghost t: string)
      requires Inv(Value()) && PhaseOf(Value(), t).Holding? && PhaseOf(Value(), t).sem == s
      modifies this
      ensures Enabled(old(Value()), Drains(t))
      ensures Value() == Next(old(Value()), Drains(t)) && Inv(Value())
    {
      InsideCounted(Value(), t);
      InvKept(Value(), Drains(t));
      hide Inv;
      sems := sems[s := sems[s].(tokens := sems[s].tokens - 1)];
      callers := callers[t := Drained(callers[t].project, s)];
    }

    method ReleaseUser(project: string, s: int, ghost t: string)
      requires Inv(Value()) && (PhaseOf(Value(), t) == Refused(project, s) || PhaseOf(Value(), t) == Drained(project, s))
      modifies this
      ensures Enabled(old(Value()), Leaves(t))
      ensures Value() == Next(old(Value()), Leaves(t)) && Inv(Value())
    {
      InsideCounted(Value(), t);
      InvKept(Value(), Leaves(t));
      hide Inv;
      sems := sems[s := sems[s].(users := sems[s].users - 1)];
      if sems[s].users == 0 && sems[s].tokens == 0 { projects := projects - {project}; }
      callers := callers[t := Outside];
    }
  }
}
