/** The worker pool as a step system: W workers, a lock around claiming, router
    commands and restarts, interleaved in any order. Reading the candidates is
    one query per state, and the state write of a tick trusts the snapshot it
    was claimed with. */
module Pool {
  import opened Lifecycle
  import opened Graph
  import Consolidation
  import AutoSplit
  import opened Machine
  import opened Backoff

  datatype Stored = Stored(state: ProjectState, ms: seq<Milestone>, killed: bool, paused: bool)

  datatype Worker =
    | Idle
    | Gathering(unread: set<ProjectState>, bag: set<(Pid, ProjectState)>, now: int)
    | Holding(pid: Pid, snap: ProjectState, flight: Flight)
    | Leaving(pid: Pid)

  /** `marks` is a history variable: the times of each project's transient
      failures in a row. Nothing reads it. */
  datatype State = State(
    db: map<Pid, Stored>, nextId: nat, claimed: set<Pid>, lock: Option<nat>,
    workers: seq<Worker>, ledger: Ledger, clock: int, marks: map<Pid, seq<int>>)

  function Initial(workers: nat): State {
    State(map[], 0, {}, None, seq(workers, _ => Idle), EMPTY, 0, map[])
  }

  datatype PoolStep =
    | Lock(w: nat, now: int)
    | Query(w: nat, state: ProjectState)
    | Claim(w: nat, pid: Pid, snap: ProjectState)
    | GiveUp(w: nat)
    | Begin(w: nat, o: Signals)
    | Return(w: nat, r: Reply)
    | Crashed(w: nat, transient: bool)
    | Release(w: nat)
    | Command(pid: Pid, command: Event)
    | Create(pid: Pid)
    | RestartAll
    | LoseKill(pid: Pid)
    | Pass(seconds: nat)

  const QUERIED: set<ProjectState> :=
    {Queued, Planning, ProjectState.Building, Replanning, Integration}

  function AsProject(s: State, pid: Pid, state: ProjectState, flight: Flight): Project
    requires pid in s.db
  {
    Project(state, s.db[pid].ms, s.db[pid].killed, s.db[pid].paused, s.nextId, flight)
  }

  /** The row after a tick that saw `snap`: its state is written only if moved. */
  function Store(s: Stored, snap: ProjectState, q: Project): Stored {
    Stored(if q.state == snap then s.state else q.state, q.ms, q.killed, q.paused)
  }

  predicate At(s: State, w: nat) {
    w < |s.workers|
  }

  function Put(s: State, w: nat, worker: Worker): State
    requires At(s, w)
  {
    s.(workers := s.workers[w := worker])
  }

  /** A tick that returned is released and clears the streak; one that waits or
      raised keeps the claim. */
  function Landing(s: State, w: nat, pid: Pid, snap: ProjectState, q: Project): State
    requires At(s, w) && pid in s.db
  {
    var t := s.(db := s.db[pid := Store(s.db[pid], snap, q)], nextId := q.nextId);
    if q.flight.Landed? then Put(t.(ledger := Clear(s.ledger, pid), marks := s.marks - {pid}), w, Leaving(pid))
    else Put(t, w, Holding(pid, snap, q.flight))
  }

  /** Whether some other project has a row `id`. */
  ghost predicate Elsewhere(s: State, pid: Pid, id: Id) {
    exists p :: p in s.db && p != pid && Has(s.db[p].ms, id)
  }

  ghost function Located(s: State, pid: Pid, r: Reply): Reply {
    match r
    case Decided(Split(id, into, _)) => Decided(Split(id, into, Elsewhere(s, pid, id)))
    case _ => r
  }

  /** What a replanner's decision does to the rows of another project. */
  function Abroad(ms: seq<Milestone>, flight: Flight, r: Reply, base: nat): seq<Milestone> {
    if !flight.AwaitReplan? then ms
    else match r
      case Decided(Split(id, into, _)) => ReplaceWith(ms, id, into, base)
      case Decided(Amend(id, patch)) => UpdateSpec(ms, id, patch)
      case _ => ms
  }

  function CrashState(stored: ProjectState, snap: ProjectState): ProjectState {
    if LegalProject(snap, Blocked) then Blocked else stored
  }

  function Commanded(cfg: Config, s: State, pid: Pid, command: Event): Stored
    requires pid in s.db && OperatorCommand(command)
  {
    var q := Step(cfg, AsProject(s, pid, s.db[pid].state, Landed), command);
    Stored(q.state, q.ms, q.killed, q.paused)
  }

  ghost function Advance(cfg: Config, s: State, a: PoolStep): State {
    match a
    case Lock(w, now) =>
      if At(s, w) && s.workers[w].Idle? && s.lock.None? && now <= s.clock
      then Put(s, w, Gathering(QUERIED, {}, now)).(lock := Some(w)) else s
    case Query(w, st) =>
      if At(s, w) && s.workers[w].Gathering? && st in s.workers[w].unread
      then Put(s, w, Gathering(s.workers[w].unread - {st},
                               s.workers[w].bag + (set p | p in s.db && s.db[p].state == st :: (p, st)),
                               s.workers[w].now))
      else s
    case Claim(w, pid, snap) =>
      if At(s, w) && s.workers[w].Gathering? && s.workers[w].unread == {} && (pid, snap) in s.workers[w].bag
         && pid !in s.claimed && Eligible(s.ledger, pid, s.workers[w].now)
      then Put(s, w, Holding(pid, snap, Landed)).(claimed := s.claimed + {pid}, lock := None) else s
    case GiveUp(w) =>
      if At(s, w) && s.workers[w].Gathering? && s.workers[w].unread == {}
      then Put(s, w, Idle).(lock := None) else s
    case Begin(w, o) =>
      if At(s, w) && s.workers[w].Holding? && s.workers[w].flight.Landed? && s.workers[w].pid in s.db
      then var Holding(pid, snap, _) := s.workers[w];
           Landing(s, w, pid, snap, Start(cfg, AsProject(s, pid, snap, Landed), o))
      else s
    case Return(w, r) =>
      if At(s, w) && s.workers[w].Holding? && Waiting(s.workers[w].flight) && s.workers[w].pid in s.db
      then var Holding(pid, snap, flight) := s.workers[w];
           var q := Finish(cfg, AsProject(s, pid, snap, flight), Located(s, pid, r));
           var t := Landing(s, w, pid, snap, q);
           t.(db := map p | p in t.db ::
                if p == pid then t.db[p] else t.db[p].(ms := Abroad(t.db[p].ms, flight, r, s.nextId)))
      else s
    case Crashed(w, transient) =>
      if At(s, w) && s.workers[w].Holding? && s.workers[w].flight.Raised? && s.workers[w].pid in s.db
      then var Holding(pid, snap, _) := s.workers[w];
           if Tolerated(s.ledger, pid, transient)
           then Put(s.(ledger := Punish(s.ledger, pid, s.clock), marks := s.marks[pid := Marks(s, pid) + [s.clock]]),
                    w, Leaving(pid))
           else Put(s.(ledger := Clear(s.ledger, pid), marks := s.marks - {pid},
                       db := s.db[pid := s.db[pid].(state := CrashState(s.db[pid].state, snap))]),
                    w, Leaving(pid))
      else s
    case Release(w) =>
      if At(s, w) && s.workers[w].Leaving? && s.lock.None?
      then Put(s, w, Idle).(claimed := s.claimed - {s.workers[w].pid}) else s
    case Command(pid, command) =>
      if pid in s.db && OperatorCommand(command)
      then s.(db := s.db[pid := Commanded(cfg, s, pid, command)]) else s
    case Create(pid) =>
      if pid in s.db then s else s.(db := s.db[pid := Stored(Queued, [], false, false)])
    case RestartAll =>
      s.(db := map p | p in s.db :: s.db[p].(ms := Reclaim(s.db[p].ms)),
         claimed := {}, lock := None, workers := seq(|s.workers|, _ => Idle),
         ledger := EMPTY, marks := map[])
    case LoseKill(pid) => if pid in s.db then s.(db := s.db[pid := s.db[pid].(killed := false)]) else s
    case Pass(seconds) => s.(clock := s.clock + seconds)
  }

  function Marks(s: State, pid: Pid): seq<int> {
    if pid in s.marks then s.marks[pid] else []
  }

  ghost function Run(cfg: Config, workers: nat, steps: seq<PoolStep>): State {
    if steps == [] then Initial(workers)
    else Advance(cfg, Run(cfg, workers, steps[..|steps|-1]), steps[|steps|-1])
  }

  // ------------------------------------------------------- the invariant

  predicate Occupies(worker: Worker, pid: Pid) {
    (worker.Holding? || worker.Leaving?) && worker.pid == pid
  }

  /** A candidate is current or out of reach: whoever could have moved its
      project since the query still has it claimed. */
  ghost predicate BagFits(s: State, bag: set<(Pid, ProjectState)>) {
    forall c | c in bag ::
      c.0 in s.db && (c.0 in s.claimed || (s.db[c.0].state == c.1 && Advanceable(c.1)))
  }

  ghost predicate WorkerFits(s: State, w: nat)
    requires At(s, w)
  {
    match s.workers[w]
    case Idle => true
    case Gathering(unread, bag, now) => s.lock == Some(w) && now <= s.clock && unread <= QUERIED && BagFits(s, bag)
    case Holding(pid, snap, flight) =>
      && pid in s.claimed && pid in s.db
      && s.db[pid].state == snap && Advanceable(snap)
      && (pid in s.ledger.until ==> s.ledger.until[pid] <= s.clock)
    case Leaving(pid) => pid in s.claimed && pid in s.db
  }

  /** No project has two workers. */
  ghost predicate Exclusive(s: State) {
    forall v, w, pid | 0 <= v < w < |s.workers| && Occupies(s.workers[v], pid) :: !Occupies(s.workers[w], pid)
  }

  ghost predicate BackoffFits(s: State) {
    && s.ledger.until.Keys == s.ledger.fails.Keys == s.marks.Keys
    && forall pid | pid in s.marks :: StreakFits(s.ledger, pid, s.marks[pid])
  }

  ghost predicate Safe(s: State) {
    && (forall w: nat | w < |s.workers| :: WorkerFits(s, w))
    && Exclusive(s) && BackoffFits(s)
  }

  // ------------------------------------------------------------- one step

  ghost predicate AllFit(s: State) {
    forall w: nat | w < |s.workers| :: WorkerFits(s, w)
  }

  /** Nobody starts to occupy a project. */
  lemma StaysExclusive(s: State, t: State)
    requires Exclusive(s) && |t.workers| == |s.workers|
    requires forall v, pid | 0 <= v < |s.workers| && Occupies(t.workers[v], pid) :: Occupies(s.workers[v], pid)
    ensures Exclusive(t)
  {
  }

  lemma LockSafe(cfg: Config, s: State, w: nat, now: int)
    requires Safe(s)
    ensures Safe(Advance(cfg, s, Lock(w, now)))
  {
    var t := Advance(cfg, s, Lock(w, now));
    forall v: nat | v < |t.workers| ensures WorkerFits(t, v) { assert WorkerFits(s, v); }
    StaysExclusive(s, t);
  }

  lemma QuerySafe(cfg: Config, s: State, w: nat, st: ProjectState)
    requires Safe(s)
    ensures Safe(Advance(cfg, s, Query(w, st)))
  {
    var t := Advance(cfg, s, Query(w, st));
    forall v: nat | v < |t.workers| ensures WorkerFits(t, v) { assert WorkerFits(s, v); }
    StaysExclusive(s, t);
  }

  lemma ClaimSafe(cfg: Config, s: State, w: nat, pid: Pid, snap: ProjectState)
    requires Safe(s)
    ensures Safe(Advance(cfg, s, Claim(w, pid, snap)))
  {
    var t := Advance(cfg, s, Claim(w, pid, snap));
    if t != s {
      assert WorkerFits(s, w);
      forall v: nat | v < |t.workers| ensures WorkerFits(t, v) { assert WorkerFits(s, v); }
      forall v, u, p | 0 <= v < u < |t.workers| && Occupies(t.workers[v], p) ensures !Occupies(t.workers[u], p) {
        assert WorkerFits(s, v) && WorkerFits(s, u);
      }
    }
  }

  lemma GiveUpSafe(cfg: Config, s: State, w: nat)
    requires Safe(s)
    ensures Safe(Advance(cfg, s, GiveUp(w)))
  {
    var t := Advance(cfg, s, GiveUp(w));
    if t != s {
      assert WorkerFits(s, w);
      forall v: nat | v < |t.workers| ensures WorkerFits(t, v) { assert WorkerFits(s, v); }
      StaysExclusive(s, t);
    }
  }

  lemma ReleaseSafe(cfg: Config, s: State, w: nat)
    requires Safe(s)
    ensures Safe(Advance(cfg, s, Release(w)))
  {
    hide StreakFits, Eligible;
    var t := Advance(cfg, s, Release(w));
    if t != s {
      forall v: nat | v < |t.workers| ensures WorkerFits(t, v) {
        assert WorkerFits(s, v) && WorkerFits(s, w);
        assert Occupies(s.workers[w], s.workers[w].pid);
        assert v != w ==> !Occupies(s.workers[v], s.workers[w].pid);
      }
      StaysExclusive(s, t);
    }
  }

  /** A tick that has not landed has not moved its project. */
  ghost predicate Grounded(p: Project, q: Project) {
    (q.flight.Landed? || q.state == p.state) && p.nextId <= q.nextId
  }

  lemma StartGrounded(cfg: Config, p: Project, o: Signals)
    ensures Grounded(p, Start(cfg, p, o))
  {
    hide LegalProject, SetState, RecordAttempt, Reclaim, NextPending, Consolidation.Due, AutoSplit.Bisect,
      ReplaceWith, AutoSplit.Splittable, AfterLastDone, InsertAt, OverCap;
  }

  lemma FinishGrounded(cfg: Config, p: Project, r: Reply)
    requires Waiting(p.flight)
    ensures Grounded(p, Finish(cfg, p, r))
  {
    hide LegalProject, SetState, RecordAttempt, ReplaceWith, UpdateSpec, Newborns, Has;
  }

  lemma LandingSafe(s: State, w: nat, pid: Pid, snap: ProjectState, q: Project)
    requires Safe(s) && At(s, w) && s.workers[w].Holding? && s.workers[w].pid == pid
        && s.workers[w].snap == snap && pid in s.db
    requires q.flight.Landed? || q.state == snap
    ensures Safe(Landing(s, w, pid, snap, q))
  {
    var t := Landing(s, w, pid, snap, q);
    assert WorkerFits(s, w) && Occupies(s.workers[w], pid);
    forall v: nat | v < |t.workers| ensures WorkerFits(t, v) {
      assert WorkerFits(s, v);
      assert v != w ==> !Occupies(s.workers[v], pid);
    }
    StaysExclusive(s, t);
  }

  lemma BeginSafe(cfg: Config, s: State, w: nat, o: Signals)
    requires Safe(s)
    ensures Safe(Advance(cfg, s, Begin(w, o)))
  {
    if At(s, w) && s.workers[w].Holding? && s.workers[w].flight.Landed? && s.workers[w].pid in s.db {
      var Holding(pid, snap, _) := s.workers[w];
      StartGrounded(cfg, AsProject(s, pid, snap, Landed), o);
      hide Start, Safe;
      LandingSafe(s, w, pid, snap, Start(cfg, AsProject(s, pid, snap, Landed), o));
    }
  }

  /** Rewriting milestones alone is invisible to the pool. */
  lemma RowsDoNotMatter(s: State, t: State)
    requires Safe(s) && t == s.(db := t.db) && t.db.Keys == s.db.Keys
    requires forall p | p in s.db :: t.db[p].state == s.db[p].state
    ensures Safe(t)
  {
    forall v: nat | v < |t.workers| ensures WorkerFits(t, v) { assert WorkerFits(s, v); }
    StaysExclusive(s, t);
  }

  lemma ReturnSafe(cfg: Config, s: State, w: nat, r: Reply)
    requires Safe(s)
    ensures Safe(Advance(cfg, s, Return(w, r)))
  {
    if At(s, w) && s.workers[w].Holding? && Waiting(s.workers[w].flight) && s.workers[w].pid in s.db {
      var Holding(pid, snap, flight) := s.workers[w];
      var p, r' := AsProject(s, pid, snap, flight), Located(s, pid, r);
      FinishGrounded(cfg, p, r');
      hide Finish, Safe, Abroad, Located;
      var t := Landing(s, w, pid, snap, Finish(cfg, p, r'));
      LandingSafe(s, w, pid, snap, Finish(cfg, p, r'));
      RowsDoNotMatter(t, Advance(cfg, s, Return(w, r)));
    }
  }

  lemma CrashBackoff(s: State, pid: Pid)
    requires BackoffFits(s) && Tolerated(s.ledger, pid, true)
    requires pid in s.ledger.until ==> s.ledger.until[pid] <= s.clock
    ensures StreakFits(Punish(s.ledger, pid, s.clock), pid, Marks(s, pid) + [s.clock])
  {
    if pid in s.marks {
      PunishFits(s.ledger, pid, s.marks[pid], s.clock);
    }
  }

  lemma CrashedFits(cfg: Config, s: State, w: nat, transient: bool, v: nat)
    requires AllFit(s) && Exclusive(s) && v < |s.workers|
    ensures WorkerFits(Advance(cfg, s, Crashed(w, transient)), v)
  {
    hide Wait, Tolerated, LegalProject;
    assert WorkerFits(s, v);
    if At(s, w) && s.workers[w].Holding? {
      assert Occupies(s.workers[w], s.workers[w].pid) && WorkerFits(s, w);
      assert v != w ==> !Occupies(s.workers[v], s.workers[w].pid);
    }
  }

  lemma CrashedBackoff(cfg: Config, s: State, w: nat, transient: bool)
    requires AllFit(s) && BackoffFits(s)
    ensures BackoffFits(Advance(cfg, s, Crashed(w, transient)))
  {
    hide Exclusive, StreakFits, LegalProject;
    if At(s, w) && s.workers[w].Holding? {
      assert WorkerFits(s, w);
      var pid := s.workers[w].pid;
      if transient && Tolerated(s.ledger, pid, true) { CrashBackoff(s, pid); }
      OthersBackoff(s, pid, s.clock);
    }
  }

  lemma OthersBackoff(s: State, pid: Pid, now: int)
    requires BackoffFits(s)
    ensures forall p | p in s.marks && p != pid ::
              StreakFits(Punish(s.ledger, pid, now), p, s.marks[p]) && StreakFits(Clear(s.ledger, pid), p, s.marks[p])
  {
    forall p | p in s.marks && p != pid
      ensures StreakFits(Punish(s.ledger, pid, now), p, s.marks[p]) && StreakFits(Clear(s.ledger, pid), p, s.marks[p])
    {
      assert StreakFits(s.ledger, p, s.marks[p]);
    }
  }

  lemma CrashedSafe(cfg: Config, s: State, w: nat, transient: bool)
    requires Safe(s)
    ensures Safe(Advance(cfg, s, Crashed(w, transient)))
  {
    hide WorkerFits, BackoffFits, Tolerated, CrashState;
    var t := Advance(cfg, s, Crashed(w, transient));
    CrashedBackoff(cfg, s, w, transient);
    StaysExclusive(s, t);
    forall v: nat | v < |t.workers| ensures WorkerFits(t, v) { CrashedFits(cfg, s, w, transient, v); }
  }

  lemma CommandSafe(cfg: Config, s: State, pid: Pid, command: Event)
    requires Safe(s)
    ensures Safe(Advance(cfg, s, Command(pid, command)))
  {
    var t := Advance(cfg, s, Command(pid, command));
    if pid in s.db && OperatorCommand(command) {
      assert Advanceable(s.db[pid].state) ==> t.db[pid].state == s.db[pid].state;
      forall v: nat | v < |t.workers| ensures WorkerFits(t, v) { assert WorkerFits(s, v); }
      StaysExclusive(s, t);
    }
  }

  lemma NobodyWorks(s: State)
    requires forall v | 0 <= v < |s.workers| :: s.workers[v].Idle?
    ensures Exclusive(s)
  {
  }

  lemma OthersSafe(cfg: Config, s: State, a: PoolStep)
    requires Safe(s) && (a.Create? || a.RestartAll? || a.LoseKill? || a.Pass?)
    ensures Safe(Advance(cfg, s, a))
  {
    hide Exclusive, StreakFits;
    var t := Advance(cfg, s, a);
    if a.RestartAll? {
      NobodyWorks(t);
    } else {
      forall v: nat | v < |t.workers| ensures WorkerFits(t, v) { assert WorkerFits(s, v); }
      StaysExclusive(s, t);
    }
  }

  lemma AdvanceSafe(cfg: Config, s: State, a: PoolStep)
    requires Safe(s)
    ensures Safe(Advance(cfg, s, a))
  {
    hide Safe, Advance;
    match a
    case Lock(w, now) => LockSafe(cfg, s, w, now);
    case Query(w, st) => QuerySafe(cfg, s, w, st);
    case Claim(w, pid, snap) => ClaimSafe(cfg, s, w, pid, snap);
    case GiveUp(w) => GiveUpSafe(cfg, s, w);
    case Begin(w, o) => BeginSafe(cfg, s, w, o);
    case Return(w, r) => ReturnSafe(cfg, s, w, r);
    case Crashed(w, transient) => CrashedSafe(cfg, s, w, transient);
    case Release(w) => ReleaseSafe(cfg, s, w);
    case Command(pid, command) => CommandSafe(cfg, s, pid, command);
    case _ => OthersSafe(cfg, s, a);
  }

  lemma {:induction false} RunSafe(cfg: Config, workers: nat, steps: seq<PoolStep>)
    ensures Safe(Run(cfg, workers, steps))
  {
    if steps != [] {
      RunSafe(cfg, workers, steps[..|steps|-1]);
      hide Safe, Advance;
      AdvanceSafe(cfg, Run(cfg, workers, steps[..|steps|-1]), steps[|steps|-1]);
    }
  }
}
