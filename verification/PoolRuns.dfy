/** What the pool's safety means project by project: stored states move along
    the table, backoff holds, and every project seen through the pool has lived
    a run of the one-project machine, so that machine's theorems apply. */
module PoolRuns {
  import opened Lifecycle
  import opened Graph
  import opened Machine
  import opened RunInvariant
  import opened NothingSkipped
  import opened Backoff
  import opened Pool
  import Approval

  // ------------------------------------------------------- exclusion, backoff

  lemma OneWorkerPerProject(cfg: Config, workers: nat, steps: seq<PoolStep>, v: nat, w: nat, pid: Pid)
    requires At(Run(cfg, workers, steps), v) && At(Run(cfg, workers, steps), w) && v != w
    ensures var s := Run(cfg, workers, steps);
            !(Occupies(s.workers[v], pid) && Occupies(s.workers[w], pid))
  {
    RunSafe(cfg, workers, steps);
  }

  ghost predicate Occupied(s: State, pid: Pid) {
    exists w: nat :: w < |s.workers| && Occupies(s.workers[w], pid)
  }

  /** Nothing is claimed, and the lock not held, for nobody. */
  ghost predicate NothingIdle(s: State) {
    && (forall pid | pid in s.claimed :: Occupied(s, pid))
    && (s.lock.Some? ==> At(s, s.lock.value) && s.workers[s.lock.value].Gathering?)
  }

  /** Worker w alone changed, and still has the project it had. */
  lemma OneWorkerMoves(s: State, t: State, w: nat)
    requires NothingIdle(s) && At(s, w) && |t.workers| == |s.workers| && t.claimed == s.claimed && t.lock == s.lock
    requires forall v | 0 <= v < |s.workers| && v != w :: t.workers[v] == s.workers[v]
    requires forall pid | Occupies(s.workers[w], pid) :: Occupies(t.workers[w], pid)
    requires s.workers[w].Gathering? ==> t.workers[w].Gathering?
    ensures NothingIdle(t)
  {
    forall pid | pid in t.claimed ensures Occupied(t, pid) {
      assert Occupied(s, pid);
      var v: nat :| v < |s.workers| && Occupies(s.workers[v], pid);
      assert Occupies(t.workers[v], pid);
    }
  }

  lemma ClaimingNothingIdle(cfg: Config, s: State, a: PoolStep)
    requires Safe(s) && NothingIdle(s) && (a.Lock? || a.Claim? || a.GiveUp? || a.Release?)
    ensures NothingIdle(Advance(cfg, s, a))
  {
    hide BackoffFits, Eligible, Exclusive;
    var t := Advance(cfg, s, a);
    if t != s {
      assert WorkerFits(s, a.w);
      forall pid | pid in t.claimed ensures Occupied(t, pid) {
        if a.Claim? && pid == a.pid {
          assert Occupies(t.workers[a.w], pid);
        } else {
          assert Occupied(s, pid);
          var v: nat :| v < |s.workers| && Occupies(s.workers[v], pid);
          assert Occupies(t.workers[v], pid);
        }
      }
    }
  }

  lemma WorkingNothingIdle(cfg: Config, s: State, a: PoolStep)
    requires NothingIdle(s) && (a.Query? || a.Begin? || a.Return? || a.Crashed?)
    ensures NothingIdle(Advance(cfg, s, a))
  {
    hide Eligible, Start, Finish, Located, Abroad, Store, Tolerated, Punish, Clear, NothingIdle;
    var t := Advance(cfg, s, a);
    if t != s { OneWorkerMoves(s, t, a.w); }
  }

  lemma {:induction false} RunsNothingIdle(cfg: Config, workers: nat, steps: seq<PoolStep>)
    ensures NothingIdle(Run(cfg, workers, steps))
  {
    hide NothingIdle, Start, Finish, Safe;
    if steps == [] {
      StartsIdle(workers);
    } else {
      var init, a := steps[..|steps|-1], steps[|steps|-1];
      RunsNothingIdle(cfg, workers, init);
      RunSafe(cfg, workers, init);
      var s := Run(cfg, workers, init);
      match a {
        case Lock(_, _) => ClaimingNothingIdle(cfg, s, a);
        case Claim(_, _, _) => ClaimingNothingIdle(cfg, s, a);
        case GiveUp(_) => ClaimingNothingIdle(cfg, s, a);
        case Release(_) => ClaimingNothingIdle(cfg, s, a);
        case Query(_, _) => WorkingNothingIdle(cfg, s, a);
        case Begin(_, _) => WorkingNothingIdle(cfg, s, a);
        case Return(_, _) => WorkingNothingIdle(cfg, s, a);
        case Crashed(_, _) => WorkingNothingIdle(cfg, s, a);
        case _ => OutsideNothingIdle(cfg, s, a);
      }
    }
  }

  lemma StartsIdle(workers: nat)
    ensures NothingIdle(Initial(workers))
  {
  }

  lemma OutsideNothingIdle(cfg: Config, s: State, a: PoolStep)
    requires NothingIdle(s) && (a.Command? || a.Create? || a.RestartAll? || a.LoseKill? || a.Pass?)
    ensures NothingIdle(Advance(cfg, s, a))
  {
    hide Commanded, Reclaim;
    var t := Advance(cfg, s, a);
    forall pid | pid in t.claimed ensures Occupied(t, pid) {
      assert Occupied(s, pid);
      var w: nat :| w < |s.workers| && Occupies(s.workers[w], pid);
      assert Occupies(t.workers[w], pid);
    }
  }

  /** No claim leaks: in every reachable state a project is claimed exactly when a
      worker has it, and the lock is held exactly by the worker that is choosing. */
  lemma NoClaimLeaks(cfg: Config, workers: nat, steps: seq<PoolStep>)
    ensures var s := Run(cfg, workers, steps);
            && (forall pid :: pid in s.claimed <==> exists w: nat :: w < |s.workers| && Occupies(s.workers[w], pid))
            && (forall w: nat | w < |s.workers| :: s.lock == Some(w) <==> s.workers[w].Gathering?)
  {
    RunSafe(cfg, workers, steps);
    RunsNothingIdle(cfg, workers, steps);
    var s := Run(cfg, workers, steps);
    hide Run, BackoffFits, Exclusive;
    forall pid ensures pid in s.claimed <==> Occupied(s, pid) {
      if Occupied(s, pid) {
        var w: nat :| w < |s.workers| && Occupies(s.workers[w], pid);
        assert WorkerFits(s, w);
      }
    }
    forall w: nat | w < |s.workers| ensures s.lock == Some(w) <==> s.workers[w].Gathering? { assert WorkerFits(s, w); }
  }

  /** The snapshot a tick acts on is the stored state, from its claim until its
      own write. */
  lemma SnapshotIsCurrent(cfg: Config, workers: nat, steps: seq<PoolStep>, w: nat)
    requires At(Run(cfg, workers, steps), w) && Run(cfg, workers, steps).workers[w].Holding?
    ensures var s := Run(cfg, workers, steps);
            var pid := s.workers[w].pid;
            pid in s.db && s.db[pid].state == s.workers[w].snap && Advanceable(s.workers[w].snap)
  {
    RunSafe(cfg, workers, steps);
    assert WorkerFits(Run(cfg, workers, steps), w);
  }

  /** A claim honours the cooldown that is current when it is made. */
  lemma NoClaimInCooldown(cfg: Config, workers: nat, steps: seq<PoolStep>, w: nat, pid: Pid, snap: ProjectState)
    ensures var s := Run(cfg, workers, steps);
            var t := Advance(cfg, s, Claim(w, pid, snap));
            t != s && pid in s.ledger.until ==> s.ledger.until[pid] <= s.clock
    ensures var s := Run(cfg, workers, steps);
            var t := Advance(cfg, s, Claim(w, pid, snap));
            At(s, w) && s.workers[w].Gathering? && s.workers[w].unread == {} && (pid, snap) in s.workers[w].bag ==>
              (t != s <==> pid !in s.claimed && (if pid in s.ledger.until then s.ledger.until[pid] else 0)
                                                  <= s.workers[w].now)
  {
    RunSafe(cfg, workers, steps);
    var s := Run(cfg, workers, steps);
    if At(s, w) { assert WorkerFits(s, w); }
  }

  lemma BlockableWhileAdvanceable(s: ProjectState)
    requires Advanceable(s)
    ensures LegalProject(s, Blocked)
  {
  }

  /** The fifth transient failure in a row blocks the project, at least 450
      seconds after the first; an earlier one leaves its state alone. */
  lemma FifthFailureBlocks(cfg: Config, workers: nat, steps: seq<PoolStep>, w: nat)
    requires var s := Run(cfg, workers, steps);
             At(s, w) && s.workers[w].Holding? && s.workers[w].flight.Raised?
    ensures var s := Run(cfg, workers, steps);
            var pid, t := s.workers[w].pid, Advance(cfg, s, Crashed(w, true));
            && pid in s.db && pid in t.db
            && |Marks(s, pid)| <= 4
            && (|Marks(s, pid)| == 4 ==> t.db[pid].state.Blocked? && s.clock - Marks(s, pid)[0] >= 450)
            && (|Marks(s, pid)| < 4 ==>
                  t.db[pid].state == s.db[pid].state && Marks(t, pid) == Marks(s, pid) + [s.clock])
  {
    hide Run, Exclusive, LegalProject, Wait;
    RunSafe(cfg, workers, steps);
    var s := Run(cfg, workers, steps);
    assert WorkerFits(s, w);
    var pid := s.workers[w].pid;
    BlockableWhileAdvanceable(s.workers[w].snap);
    if pid in s.marks {
      assert StreakFits(s.ledger, pid, s.marks[pid]);
      if |s.marks[pid]| == 4 { FullStreakSpan(s.ledger, pid, s.marks[pid], s.clock); }
    }
  }

  /** Failures in a row on the pool's books. */
  function Failures(s: State, pid: Pid): nat {
    if pid in s.ledger.fails then s.ledger.fails[pid] else 0
  }

  /** A crash blocks its project, and takes it off the books, exactly when it is
      not transient or the fifth in a row. Any other leaves the project alone, and
      puts it off for 30, 60, 120 or 240 seconds. No other project is touched. */
  lemma CrashBlocksIff(cfg: Config, workers: nat, steps: seq<PoolStep>, w: nat, transient: bool)
    requires var s := Run(cfg, workers, steps);
             At(s, w) && s.workers[w].Holding? && s.workers[w].flight.Raised?
    ensures var s := Run(cfg, workers, steps);
            var pid, n, t := s.workers[w].pid, Failures(s, s.workers[w].pid), Advance(cfg, s, Crashed(w, transient));
            && pid in s.db && t.db.Keys == s.db.Keys && t.workers[w] == Leaving(pid)
            && (t.db[pid].state.Blocked? <==> !transient || n >= 4)
            && t.db[pid] == s.db[pid].(state := if !transient || n >= 4 then Blocked else s.db[pid].state)
            && (if !transient || n >= 4 then pid !in t.ledger.fails && pid !in t.ledger.until
                else Failures(t, pid) == n + 1 && pid in t.ledger.until
                     && t.ledger.until[pid] == s.clock + [30, 60, 120, 240][n])
            && (forall p | p in s.db && p != pid :: t.db[p] == s.db[p])
            && t.ledger.fails - {pid} == s.ledger.fails - {pid} && t.ledger.until - {pid} == s.ledger.until - {pid}
  {
    hide Run, Exclusive, LegalProject, Wait, StreakFits;
    RunSafe(cfg, workers, steps);
    var s := Run(cfg, workers, steps);
    assert WorkerFits(s, w);
    BlockableWhileAdvanceable(s.workers[w].snap);
    Waits();
  }

  /** A tick that lands, moved or idle, ends its project's streak. */
  lemma CleanTickClears(cfg: Config, workers: nat, steps: seq<PoolStep>, w: nat, a: PoolStep)
    requires var s := Run(cfg, workers, steps);
             At(s, w) && s.workers[w].Holding? && (a.Begin? || a.Return?) && a.w == w
    ensures var s := Run(cfg, workers, steps);
            var pid, t := s.workers[w].pid, Advance(cfg, s, a);
            && t.ledger.fails - {pid} == s.ledger.fails - {pid} && t.ledger.until - {pid} == s.ledger.until - {pid}
            && (t.workers[w].Leaving? ==> pid !in t.ledger.fails && pid !in t.ledger.until)
            && (!t.workers[w].Leaving? ==> t.ledger == s.ledger)
  {
    hide Run, Start, Finish, Located, Abroad, Store;
  }

  /** A restart leaves no claim and no streak, and no worker at work. */
  lemma RestartForgets(cfg: Config, s: State)
    ensures var t := Advance(cfg, s, RestartAll);
            && t.claimed == {} && t.lock.None? && t.ledger.fails == map[] && t.ledger.until == map[]
            && |t.workers| == |s.workers| && (forall w: nat | w < |t.workers| :: t.workers[w].Idle?)
            && t.clock == s.clock && t.nextId == s.nextId
  {
  }

  // ------------------------------------------------------------ projection

  ghost predicate Holds(s: State, w: int, pid: Pid) {
    0 <= w < |s.workers| && s.workers[w].Holding? && s.workers[w].pid == pid
  }

  /** What the tick in flight for `pid`, if any, is waiting for. */
  ghost function FlightOf(s: State, pid: Pid): Flight {
    if exists w :: Holds(s, w, pid) then (var w :| Holds(s, w, pid); s.workers[w].flight) else Landed
  }

  ghost function View(s: State, pid: Pid): Project
    requires pid in s.db
  {
    AsProject(s, pid, s.db[pid].state, FlightOf(s, pid))
  }

  lemma FlightIs(s: State, w: nat, pid: Pid)
    requires Exclusive(s) && Holds(s, w, pid)
    ensures FlightOf(s, pid) == s.workers[w].flight
  {
    forall v | Holds(s, v, pid) ensures v == w {
      assert Occupies(s.workers[v], pid) && Occupies(s.workers[w], pid);
    }
  }

  /** Other workers' flights do not change when worker w's slot does. */
  lemma FlightFrame(s: State, t: State, pid: Pid)
    requires Exclusive(s) && Exclusive(t)
    requires forall w :: Holds(s, w, pid) <==> Holds(t, w, pid)
    requires forall w | Holds(s, w, pid) && Holds(t, w, pid) :: s.workers[w].flight == t.workers[w].flight
    ensures FlightOf(s, pid) == FlightOf(t, pid)
  {
    if w :| Holds(s, w, pid) {
      FlightIs(s, w, pid);
      FlightIs(t, w, pid);
    }
  }

  function Taken(s: State, t: State): nat {
    if t.nextId > s.nextId then t.nextId - s.nextId else 0
  }

  /** The events of project `pid` in one step of the pool. */
  ghost function Events(cfg: Config, s: State, a: PoolStep, pid: Pid): seq<Event> {
    match a
    case Begin(w, o) =>
      if !(At(s, w) && s.workers[w].Holding? && s.workers[w].flight.Landed? && s.workers[w].pid in s.db) then []
      else if s.workers[w].pid == pid then [TickStart(o)]
      else [Alloc(Taken(s, Advance(cfg, s, a)))]
    case Return(w, r) =>
      if !(At(s, w) && s.workers[w].Holding? && Waiting(s.workers[w].flight) && s.workers[w].pid in s.db) then []
      else if s.workers[w].pid == pid then [TickReply(Located(s, pid, r))]
      else ForeignEvents(s.workers[w].flight, r, Taken(s, Advance(cfg, s, a)))
    case Crashed(w, transient) =>
      if Holds(s, w, pid) && s.workers[w].flight.Raised? && pid in s.db
      then [Fallout(!Tolerated(s.ledger, pid, transient))] else []
    case Command(p, command) => if p == pid && OperatorCommand(command) then [command] else []
    case RestartAll => [Restart]
    case LoseKill(p) => if p == pid then [KillLost] else []
    case _ => []
  }

  ghost function ForeignEvents(flight: Flight, r: Reply, taken: nat): seq<Event> {
    if !flight.AwaitReplan? then [Alloc(taken)]
    else match r
      case Decided(Split(id, into, _)) => if taken > 0 then [ForeignSplit(id, into)] else []
      case Decided(Amend(id, patch)) => [ForeignAmend(id, patch)]
      case _ => [Alloc(taken)]
  }

  lemma FromOne(cfg: Config, p: Project, e: Event)
    ensures From(cfg, p, [e]) == Step(cfg, p, e)
  {
    assert [e][..0] == [];
  }

  /** After its own half-tick the project is what the half-tick says. */
  lemma LandingOwn(s: State, w: nat, pid: Pid, snap: ProjectState, q: Project)
    requires Safe(s) && Holds(s, w, pid) && s.workers[w].snap == snap && pid in s.db
    requires q.flight.Landed? || q.state == snap
    ensures View(Landing(s, w, pid, snap, q), pid) == q
  {
    var t := Landing(s, w, pid, snap, q);
    assert WorkerFits(s, w);
    LandingSafe(s, w, pid, snap, q);
    if q.flight.Landed? {
      forall v ensures !Holds(t, v, pid) {
        if v != w && Holds(t, v, pid) { assert Occupies(s.workers[v], pid) && Occupies(s.workers[w], pid); }
      }
    } else {
      FlightIs(t, w, pid);
    }
  }

  lemma LandingOther(s: State, w: nat, own: Pid, snap: ProjectState, q: Project, pid: Pid)
    requires Safe(s) && Holds(s, w, own) && s.workers[w].snap == snap && own in s.db && pid in s.db && pid != own
    requires q.flight.Landed? || q.state == snap
    ensures View(Landing(s, w, own, snap, q), pid) == View(s, pid).(nextId := q.nextId)
  {
    LandingSafe(s, w, own, snap, q);
    FlightFrame(s, Landing(s, w, own, snap, q), pid);
  }

  lemma BeginProjects(cfg: Config, s: State, w: nat, o: Signals, pid: Pid)
    requires Safe(s) && pid in s.db
    ensures pid in Advance(cfg, s, Begin(w, o)).db
    ensures View(Advance(cfg, s, Begin(w, o)), pid) == From(cfg, View(s, pid), Events(cfg, s, Begin(w, o), pid))
  {
    var t, es := Advance(cfg, s, Begin(w, o)), Events(cfg, s, Begin(w, o), pid);
    if At(s, w) && s.workers[w].Holding? && s.workers[w].flight.Landed? && s.workers[w].pid in s.db {
      var Holding(own, snap, _) := s.workers[w];
      var p := AsProject(s, own, snap, Landed);
      assert WorkerFits(s, w) && Holds(s, w, own);
      FlightIs(s, w, own);
      StartGrounded(cfg, p, o);
      hide Start, Safe, Exclusive;
      if pid == own {
        LandingOwn(s, w, pid, snap, Start(cfg, p, o));
        FromOne(cfg, View(s, pid), TickStart(o));
      } else {
        LandingOther(s, w, own, snap, Start(cfg, p, o), pid);
        FromOne(cfg, View(s, pid), Alloc(Taken(s, t)));
      }
    }
  }

  /** Ids a replanner's decision uses up. */
  lemma DecisionTakes(cfg: Config, p: Project, action: Action)
    requires p.flight.AwaitReplan?
    ensures Finish(cfg, p, Decided(action)).nextId
         == p.nextId + if action.Split? && (Has(p.ms, action.id) || action.elsewhere) then |action.into| else 0
  {
    hide LegalProject, Graph.ReplaceWith, Graph.UpdateSpec;
  }

  /** Seen from another project, a returning call is one foreign event. */
  lemma AbroadIsForeign(cfg: Config, s: State, own: Pid, snap: ProjectState, flight: Flight, r: Reply, pid: Pid)
    requires own in s.db && pid in s.db && own != pid && Waiting(flight)
    ensures var q := Finish(cfg, AsProject(s, own, snap, flight), Located(s, own, r));
            var v := View(s, pid);
            var taken := if q.nextId > s.nextId then q.nextId - s.nextId else 0;
            From(cfg, v, ForeignEvents(flight, r, taken)) == v.(ms := Abroad(v.ms, flight, r, s.nextId),
                nextId := q.nextId)
  {
    var p := AsProject(s, own, snap, flight);
    var q, v := Finish(cfg, p, Located(s, own, r)), View(s, pid);
    var taken := if q.nextId > s.nextId then q.nextId - s.nextId else 0;
    FinishGrounded(cfg, p, Located(s, own, r));
    FromOne(cfg, v, Alloc(taken));
    hide FlightOf;
    if flight.AwaitReplan? && r.Decided? {
      DecisionTakes(cfg, p, Located(s, own, r).action);
      hide Finish;
      ForeignDecision(cfg, v, r.action, taken);
      if r.action.Split? { assert Has(v.ms, r.action.id) ==> Elsewhere(s, own, r.action.id); }
      hide Step, ForeignEvents, Graph.ReplaceWith, Graph.UpdateSpec, Elsewhere;
    }
  }

  lemma ForeignDecision(cfg: Config, v: Project, action: Action, taken: nat)
    requires action.Split? ==> taken == 0 || taken == |action.into|
    requires action.Split? && Has(v.ms, action.id) ==> taken > 0
    requires !action.Split? ==> taken == 0
    ensures From(cfg, v, ForeignEvents(AwaitReplan, Decided(action), taken))
         == v.(ms := Abroad(v.ms, AwaitReplan, Decided(action), v.nextId), nextId := v.nextId + taken)
  {
    FromOne(cfg, v, Alloc(0));
    match action
    case Split(id, into, _) => FromOne(cfg, v, ForeignSplit(id, into));
    case Amend(id, patch) => FromOne(cfg, v, ForeignAmend(id, patch));
    case _ =>
  }

  lemma ReturnProjects(cfg: Config, s: State, w: nat, r: Reply, pid: Pid)
    requires Safe(s) && pid in s.db
    ensures pid in Advance(cfg, s, Return(w, r)).db
    ensures View(Advance(cfg, s, Return(w, r)), pid) == From(cfg, View(s, pid), Events(cfg, s, Return(w, r), pid))
  {
    hide Finish, Exclusive, Located, Abroad, BackoffFits, FlightOf;
    if At(s, w) && s.workers[w].Holding? && Waiting(s.workers[w].flight) && s.workers[w].pid in s.db {
      var Holding(own, snap, flight) := s.workers[w];
      var p, r' := AsProject(s, own, snap, flight), Located(s, own, r);
      assert WorkerFits(s, w) && Holds(s, w, own);
      FlightIs(s, w, own);
      FinishGrounded(cfg, p, r');
      AbroadView(cfg, s, w, r, pid);
      if pid == own {
        LandingOwn(s, w, pid, snap, Finish(cfg, p, r'));
        FromOne(cfg, View(s, pid), TickReply(r'));
      } else {
        LandingOther(s, w, own, snap, Finish(cfg, p, r'), pid);
        AbroadIsForeign(cfg, s, own, snap, flight, r, pid);
      }
    }
  }

  /** The pool after a return, project by project. */
  lemma AbroadView(cfg: Config, s: State, w: nat, r: Reply, pid: Pid)
    requires Safe(s) && pid in s.db && At(s, w) && s.workers[w].Holding? && Waiting(s.workers[w].flight)
        && s.workers[w].pid in s.db
    ensures var Holding(own, snap, flight) := s.workers[w];
            var t := Landing(s, w, own, snap, Finish(cfg, AsProject(s, own, snap, flight), Located(s, own, r)));
            var u := Advance(cfg, s, Return(w, r));
            && pid in t.db && pid in u.db && u.nextId == t.nextId
            && View(u, pid) == if pid == own then View(t, pid)
                               else View(t, pid).(ms := Abroad(View(t, pid).ms, flight, r, s.nextId))
  {
    var Holding(own, snap, flight) := s.workers[w];
    var t := Landing(s, w, own, snap, Finish(cfg, AsProject(s, own, snap, flight), Located(s, own, r)));
    var p := AsProject(s, own, snap, flight);
    FinishGrounded(cfg, p, Located(s, own, r));
    LandingSafe(s, w, own, snap, Finish(cfg, p, Located(s, own, r)));
    ReturnSafe(cfg, s, w, r);
    hide Finish, Located, Abroad, WorkerFits, BackoffFits, Exclusive;
    SameFlights(t, Advance(cfg, s, Return(w, r)), pid);
  }

  lemma SameFlights(s: State, t: State, pid: Pid)
    requires s.workers == t.workers && Exclusive(s) && Exclusive(t)
    ensures FlightOf(s, pid) == FlightOf(t, pid)
  {
    FlightFrame(s, t, pid);
  }

  lemma CrashedProjects(cfg: Config, s: State, w: nat, transient: bool, pid: Pid)
    requires Safe(s) && pid in s.db
    ensures pid in Advance(cfg, s, Crashed(w, transient)).db
    ensures View(Advance(cfg, s, Crashed(w, transient)), pid)
         == From(cfg, View(s, pid), Events(cfg, s, Crashed(w, transient), pid))
  {
    var t := Advance(cfg, s, Crashed(w, transient));
    if At(s, w) && s.workers[w].Holding? && s.workers[w].flight.Raised? && s.workers[w].pid in s.db {
      var own := s.workers[w].pid;
      assert WorkerFits(s, w) && Holds(s, w, own);
      CrashedSafe(cfg, s, w, transient);
      FlightIs(s, w, own);
      if pid == own {
        forall v: int ensures !Holds(t, v, pid) {
          if v != w && Holds(t, v, pid) { assert Occupies(s.workers[v], pid) && Occupies(s.workers[w], pid); }
        }
        FromOne(cfg, View(s, pid), Fallout(!Tolerated(s.ledger, pid, transient)));
      } else {
        FlightFrame(s, t, pid);
      }
    }
  }

  lemma HolderClaims(s: State, v: int, pid: Pid)
    requires Safe(s)
    ensures Holds(s, v, pid) ==> pid in s.claimed && pid in s.db
  {
    if Holds(s, v, pid) { assert WorkerFits(s, v); }
  }

  /** Claiming, querying and releasing do not concern the project: a claim
      starts with a tick not yet begun. */
  lemma ClaimProjects(cfg: Config, s: State, w: nat, p: Pid, snap: ProjectState, pid: Pid)
    requires Safe(s) && pid in s.db
    ensures pid in Advance(cfg, s, Claim(w, p, snap)).db
    ensures View(Advance(cfg, s, Claim(w, p, snap)), pid) == View(s, pid)
  {
    var t := Advance(cfg, s, Claim(w, p, snap));
    ClaimSafe(cfg, s, w, p, snap);
    if t != s && p == pid {
      assert Holds(t, w, pid);
      FlightIs(t, w, pid);
      forall v: int ensures !Holds(s, v, pid) { HolderClaims(s, v, pid); }
    } else {
      FlightFrame(s, t, pid);
    }
  }

  lemma IdleProjects(cfg: Config, s: State, a: PoolStep, pid: Pid)
    requires Safe(s) && pid in s.db
    requires a.Lock? || a.Query? || a.GiveUp? || a.Release? || a.Create? || a.Pass?
    ensures pid in Advance(cfg, s, a).db
    ensures View(Advance(cfg, s, a), pid) == View(s, pid)
  {
    hide Safe, Exclusive, FlightOf, Eligible, Reclaim, Start, Finish, Located, Abroad, Landing, Step, Tolerated, Punish;
    AdvanceSafe(cfg, s, a);
    SafeExcludes(s);
    SafeExcludes(Advance(cfg, s, a));
    FlightFrame(s, Advance(cfg, s, a), pid);
  }

  lemma SafeExcludes(s: State)
    requires Safe(s)
    ensures Exclusive(s)
  {
  }

  /** Commands neither see nor touch the tick in flight. */
  lemma CommandIgnoresFlight(cfg: Config, p: Project, c: Event, f: Flight)
    requires OperatorCommand(c)
    ensures Step(cfg, p.(flight := f), c) == Step(cfg, p, c).(flight := f)
  {
  }

  lemma CommandTakesNoIds(cfg: Config, p: Project, c: Event)
    requires OperatorCommand(c)
    ensures Step(cfg, p, c).nextId == p.nextId
  {
  }

  lemma CommandProjects(cfg: Config, s: State, p: Pid, command: Event, pid: Pid)
    requires Safe(s) && pid in s.db
    ensures pid in Advance(cfg, s, Command(p, command)).db
    ensures View(Advance(cfg, s, Command(p, command)), pid)
         == From(cfg, View(s, pid), Events(cfg, s, Command(p, command), pid))
  {
    hide Safe, Exclusive, FlightOf, Step;
    if p == pid && OperatorCommand(command) {
      CommandIgnoresFlight(cfg, AsProject(s, pid, s.db[pid].state, Landed), command, FlightOf(s, pid));
      CommandTakesNoIds(cfg, AsProject(s, pid, s.db[pid].state, Landed), command);
    }
    CommandSafe(cfg, s, p, command);
    SafeExcludes(s);
    SafeExcludes(Advance(cfg, s, Command(p, command)));
    SameFlights(s, Advance(cfg, s, Command(p, command)), pid);
    FromOne(cfg, View(s, pid), command);
  }

  lemma RestartProjects(cfg: Config, s: State, pid: Pid)
    requires Safe(s) && pid in s.db
    ensures pid in Advance(cfg, s, RestartAll).db
    ensures View(Advance(cfg, s, RestartAll), pid) == From(cfg, View(s, pid), Events(cfg, s, RestartAll, pid))
  {
    FromOne(cfg, View(s, pid), Restart);
  }

  lemma LoseKillProjects(cfg: Config, s: State, p: Pid, pid: Pid)
    requires Safe(s) && pid in s.db
    ensures pid in Advance(cfg, s, LoseKill(p)).db
    ensures View(Advance(cfg, s, LoseKill(p)), pid) == From(cfg, View(s, pid), Events(cfg, s, LoseKill(p), pid))
  {
    hide Safe, Exclusive, FlightOf;
    AdvanceSafe(cfg, s, LoseKill(p));
    SafeExcludes(s);
    SafeExcludes(Advance(cfg, s, LoseKill(p)));
    SameFlights(s, Advance(cfg, s, LoseKill(p)), pid);
    FromOne(cfg, View(s, pid), KillLost);
  }

  /** One step of the pool is, for each project, a few of its own events. */
  lemma StepProjects(cfg: Config, s: State, a: PoolStep, pid: Pid)
    requires Safe(s) && pid in s.db
    ensures pid in Advance(cfg, s, a).db
    ensures View(Advance(cfg, s, a), pid) == From(cfg, View(s, pid), Events(cfg, s, a, pid))
  {
    hide Safe, Advance, View;
    match a
    case Begin(w, o) => BeginProjects(cfg, s, w, o, pid);
    case Return(w, r) => ReturnProjects(cfg, s, w, r, pid);
    case Crashed(w, transient) => CrashedProjects(cfg, s, w, transient, pid);
    case Command(p, command) => CommandProjects(cfg, s, p, command, pid);
    case RestartAll => RestartProjects(cfg, s, pid);
    case LoseKill(p) => LoseKillProjects(cfg, s, p, pid);
    case Claim(w, p, snap) => ClaimProjects(cfg, s, w, p, snap, pid);
    case _ => IdleProjects(cfg, s, a, pid);
  }

  /** The events project `pid` has lived in a run of the pool. */
  ghost function History(cfg: Config, workers: nat, steps: seq<PoolStep>, pid: Pid): seq<Event> {
    if steps == [] then []
    else
      var init := steps[..|steps|-1];
      var s := Run(cfg, workers, init);
      if pid in s.db then History(cfg, workers, init, pid) + Events(cfg, s, steps[|steps|-1], pid)
      else [Alloc(s.nextId)]
  }

  lemma NewProject(cfg: Config, s: State, a: PoolStep, pid: Pid)
    requires Safe(s) && pid !in s.db && pid in Advance(cfg, s, a).db
    ensures View(Advance(cfg, s, a), pid) == Exec(cfg, [Alloc(s.nextId)])
  {
    FromOne(cfg, NEW_PROJECT, Alloc(s.nextId));
    forall v: int ensures !Holds(s, v, pid) { HolderClaims(s, v, pid); }
    OnlyCreateAdds(cfg, s, a, pid);
    assert forall v: int :: Holds(Advance(cfg, s, a), v, pid) <==> Holds(s, v, pid);
  }

  lemma OnlyCreateAdds(cfg: Config, s: State, a: PoolStep, pid: Pid)
    requires pid !in s.db && pid in Advance(cfg, s, a).db
    ensures a == Create(pid)
  {
  }

  /** Every interleaving of W workers, router commands and restarts looks, to
      each project, like one run of the one-project machine. */
  lemma {:induction false} EveryProjectLivesARun(cfg: Config, workers: nat, steps: seq<PoolStep>, pid: Pid)
    requires pid in Run(cfg, workers, steps).db
    ensures View(Run(cfg, workers, steps), pid) == Exec(cfg, History(cfg, workers, steps, pid))
  {
    if steps != [] {
      var init, a := steps[..|steps|-1], steps[|steps|-1];
      var s := Run(cfg, workers, init);
      RunSafe(cfg, workers, init);
      hide Safe, Advance, View, Events;
      if pid in s.db {
        EveryProjectLivesARun(cfg, workers, init, pid);
        StepProjects(cfg, s, a, pid);
        FromConcat(cfg, NEW_PROJECT, History(cfg, workers, init, pid), Events(cfg, s, a, pid));
      } else {
        NewProject(cfg, s, a, pid);
      }
    }
  }

  // ------------------------------------------- what follows in the pool

  /** No transition guard and no key constraint ever fires in any worker. */
  lemma PoolGuardsNeverFire(cfg: Config, workers: nat, steps: seq<PoolStep>, w: nat)
    requires var s := Run(cfg, workers, steps);
             At(s, w) && s.workers[w].Holding? && s.workers[w].flight.Raised?
    ensures var f := Run(cfg, workers, steps).workers[w].flight.fault;
            f.CrewError? || f.NoSuchRow?
  {
    var s := Run(cfg, workers, steps);
    RunSafe(cfg, workers, steps);
    assert WorkerFits(s, w) && Holds(s, w, s.workers[w].pid);
    FlightIs(s, w, s.workers[w].pid);
    EveryProjectLivesARun(cfg, workers, steps, s.workers[w].pid);
    GuardsNeverFire(cfg, History(cfg, workers, steps, s.workers[w].pid));
  }

  lemma AtMostOneEvent(cfg: Config, s: State, a: PoolStep, pid: Pid)
    ensures |Events(cfg, s, a, pid)| <= 1
  {
    hide Advance;
  }

  /** Every stored change of state is an edge of the project table. */
  lemma StoredEdgesAreLegal(cfg: Config, workers: nat, steps: seq<PoolStep>, a: PoolStep, pid: Pid)
    ensures var s, t := Run(cfg, workers, steps), Advance(cfg, Run(cfg, workers, steps), a);
            pid in s.db && pid in t.db && t.db[pid].state != s.db[pid].state ==>
              LegalProject(s.db[pid].state, t.db[pid].state)
  {
    hide Run, Advance, Events, Safe, Step, Core, FlightOf;
    var s := Run(cfg, workers, steps);
    if pid in s.db {
      RunSafe(cfg, workers, steps);
      EveryProjectLivesARun(cfg, workers, steps, pid);
      StepProjects(cfg, s, a, pid);
      AtMostOneEvent(cfg, s, a, pid);
      var es, p := Events(cfg, s, a, pid), View(s, pid);
      if |es| == 1 {
        FromOne(cfg, p, es[0]);
        assert es == [es[0]];
        Reachable(cfg, History(cfg, workers, steps, pid));
        StepEntry(cfg, p, es[0]);
      }
    }
  }

  /** Under the gate, a project nobody approved does no work in the pool. */
  lemma PoolApprovalGate(cfg: Config, workers: nat, steps: seq<PoolStep>, pid: Pid)
    requires cfg.requireApproval && cfg.wired && pid in Run(cfg, workers, steps).db
    requires forall n | 0 <= n < |steps| :: steps[n] != Command(pid, Approve)
    ensures var row := Run(cfg, workers, steps).db[pid];
            !Approval.Working(row.state) && Approval.AllPending(row.ms)
  {
    EveryProjectLivesARun(cfg, workers, steps, pid);
    HistoryUnapproved(cfg, workers, steps, pid);
    Approval.NoWorkBeforeApproval(cfg, History(cfg, workers, steps, pid));
  }

  lemma {:induction false} HistoryUnapproved(cfg: Config, workers: nat, steps: seq<PoolStep>, pid: Pid)
    requires forall n | 0 <= n < |steps| :: steps[n] != Command(pid, Approve)
    ensures Approval.Unapproved(History(cfg, workers, steps, pid))
  {
    if steps != [] {
      HistoryUnapproved(cfg, workers, steps[..|steps|-1], pid);
      EventsUnapproved(cfg, Run(cfg, workers, steps[..|steps|-1]), steps[|steps|-1], pid);
      hide Events, Advance;
    }
  }

  lemma EventsUnapproved(cfg: Config, s: State, a: PoolStep, pid: Pid)
    requires a != Command(pid, Approve)
    ensures Approval.Unapproved(Events(cfg, s, a, pid))
  {
    hide Advance;
  }
}
