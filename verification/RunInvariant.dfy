/** What every step keeps, whatever the crews, the operator, restarts and other
    projects' replanners do: `Core`, and what follows from it. */
module RunInvariant {
  import opened Lifecycle
  import opened Graph
  import opened Consolidation
  import opened AutoSplit
  import opened Machine

  ghost predicate NoneBuilding(ms: seq<Milestone>) {
    forall i | 0 <= i < |ms| :: !ms[i].state.Building?
  }

  ghost predicate AllDone(ms: seq<Milestone>) {
    forall i | 0 <= i < |ms| :: ms[i].state.Done?
  }

  ghost predicate FlightFits(p: Project) {
    match p.flight
    case Landed => true
    case AwaitPlan => p.state.Planning?
    case AwaitBuild(mid, _) => p.state.Building? && mid < p.nextId
    case AwaitReplan => p.state.Replanning?
    case AwaitCi => p.state.Integration?
    case Raised(f) => Advanceable(p.state) && (f.CrewError? || f.NoSuchRow?)
  }

  /** Only the row being built is BUILDING, and it is as the tick read it. */
  ghost predicate BuildFits(p: Project) {
    p.flight.AwaitBuild? ==>
      forall i | 0 <= i < |p.ms| ::
        && (p.ms[i].state.Building? <==> p.ms[i].id == p.flight.mid)
        && (p.ms[i].id == p.flight.mid ==> p.ms[i].retries == p.flight.retries)
  }

  ghost predicate Planned(cfg: Config, p: Project) {
    && (p.state.Queued? || p.state.Planning? ==> p.ms == [])
    && (cfg.wired && PastPlanning(p.state) ==> p.ms != [])
  }

  predicate PastPlanning(s: ProjectState) {
    s.AwaitingApproval? || s.Building? || s.Replanning? || s.Integration? || s.Done?
  }

  ghost predicate Core(cfg: Config, p: Project) {
    && UniqueIds(p.ms) && IdsBelow(p.ms, p.nextId)
    && FlightFits(p) && BuildFits(p) && Planned(cfg, p)
    && (p.state.Building? || p.state.Blocked? || p.state.Killed? || NoneBuilding(p.ms))
  }

  // ------------------------------------------------------------- one step

  /** The shape of a build tick's first half: after reclaiming, the next row k
      is found and at most that row changes. */
  lemma StartBuildShape(cfg: Config, p: Project, o: Signals)
    requires Core(cfg, p) && p.state.Building? && p.flight.Landed?
    ensures var q, r := StartBuild(cfg, p, o), Reclaim(p.ms);
            var k := NextPending(r);
            && UniqueIds(r) && NoneBuilding(r)
            && (q.flight.Landed? || q.flight.AwaitBuild?)
            && ((q.ms == r && !q.state.Replanning?)
                || (k < |r| && (q.state.Blocked? || q.state.Replanning?) && !q.flight.AwaitBuild? && !o.milestoneOk
                    && q.ms == r[k := Attempted(r[k], false, None)])
                || (k < |r| && q.flight == AwaitBuild(r[k].id, r[k].retries) && q.state.Building?
                    && q.ms == r[k := r[k].(state := MilestoneState.Building)]))
            && (q.state.Integration? ==> k == |r| && q.ms == r)
            && (q.ms == r ==> q.flight.Landed?)
            && q.nextId == p.nextId && q.killed == p.killed && q.paused == p.paused
            && (q.state.Building? || q.state.Blocked? || q.state.Integration? || q.state.Replanning?)
  {
    var r := Reclaim(p.ms);
    var k := NextPending(r);
    if k < |r| {
      IndexOfAt(r, k);
    }
  }

  lemma StartBuildKeeps(cfg: Config, p: Project, o: Signals)
    requires Core(cfg, p) && p.state.Building? && p.flight.Landed?
    ensures Core(cfg, StartBuild(cfg, p, o))
  {
    StartBuildShape(cfg, p, o);
  }

  lemma ConsolidateKeeps(cfg: Config, p: Project)
    requires Core(cfg, p) && p.state.Replanning? && p.flight.Landed?
    ensures Core(cfg, Consolidate(cfg, p))
  {
    InsertAtIds(p.ms, AfterLastDone(p.ms), ConsolidationSpec(), p.nextId);
  }

  lemma ConsolidateStays(cfg: Config, p: Project)
    ensures Consolidate(cfg, p).(ms := p.ms, nextId := p.nextId) == p && |Consolidate(cfg, p).ms| >= |p.ms|
  {
  }

  lemma ApplyKeeps(cfg: Config, p: Project, action: Action)
    requires Core(cfg, p) && p.state.Replanning?
    ensures Core(cfg, Apply(p, action))
  {
    if action.Split? {
      ReplaceWithIds(p.ms, action.id, action.into, p.nextId);
    }
  }

  lemma ConsolidateFacts(cfg: Config, p: Project)
    requires Core(cfg, p) && p.state.Replanning? && p.flight.Landed?
    ensures var c := Consolidate(cfg, p);
            UniqueIds(c.ms) && NoneBuilding(c.ms) && c.state.Replanning? && c.flight.Landed?
  {
    ConsolidateKeeps(cfg, p);
  }

  /** A replan tick's first half: after a due consolidation, at most the next
      row k is bisected, and then the project is BUILDING. */
  lemma StartReplanShape(cfg: Config, p: Project, o: Signals)
    requires Core(cfg, p) && p.state.Replanning? && p.flight.Landed?
    ensures var q, c := StartReplan(cfg, p, o), Consolidate(cfg, p);
            var k := NextPending(c.ms);
            && UniqueIds(c.ms) && NoneBuilding(c.ms)
            && ((q.ms == c.ms && q.nextId == c.nextId)
                || (k < |c.ms| && Splittable(c.ms[k].spec) && q.state.Building? && q.flight.Landed?
                    && q.nextId == c.nextId + 2
                    && q.ms == Splice(c.ms, k, Newborns(Bisect(c.ms[k].spec), c.nextId))))
            && (q.state.Integration? ==> q.ms == c.ms && k == |c.ms|)
            && (q.flight.AwaitReplan? ==> q.state.Replanning?)
            && (q.flight.Landed? ==> q.state.Building? || q.state.Integration?)
            && (q.flight.Landed? || q.flight.AwaitReplan?)
  {
    hide Consolidate, Bisect, Core, NoneBuilding, IdsBelow, UniqueIds, Splittable;
    ConsolidateFacts(cfg, p);
    var c := Consolidate(cfg, p);
    var k := NextPending(c.ms);
    if k < |c.ms| {
      IndexOfAt(c.ms, k);
    }
  }

  lemma StartReplanKeeps(cfg: Config, p: Project, o: Signals)
    requires Core(cfg, p) && p.state.Replanning? && p.flight.Landed?
    ensures Core(cfg, StartReplan(cfg, p, o))
  {
    hide Consolidate, Apply, Bisect, Splittable, UniqueIds, IdsBelow, NoneBuilding;
    ConsolidateKeeps(cfg, p);
    ConsolidateStays(cfg, p);
    var q := Consolidate(cfg, p);
    var k := NextPending(q.ms);
    if k < |q.ms| {
      ApplyKeeps(cfg, q, Split(q.ms[k].id, Bisect(q.ms[k].spec), false));
    }
  }

  /** A returning build either finds its row k gone, or changes only that row,
      which is still BUILDING as it was read. */
  lemma FinishBuildShape(cfg: Config, p: Project, r: Reply)
    requires Core(cfg, p) && p.flight.AwaitBuild? && (r.Built? || r.BuildFailed? || r.BudgetExceeded?)
    ensures var q, k := Finish(cfg, p, r), IndexOf(p.ms, p.flight.mid);
            if k == |p.ms| then q == Raise(p, NoSuchRow)
            else
              && p.ms[k].state.Building? && p.ms[k].retries == p.flight.retries
              && (forall i | 0 <= i < |p.ms| && i != k :: !p.ms[i].state.Building?)
              && q == match r {
                case Built(c) => p.(ms := p.ms[k := Attempted(p.ms[k], true, c)], state := Replanning, flight := Landed)
                case BuildFailed =>
                  p.(ms := p.ms[k := Attempted(p.ms[k], false, None)], flight := Landed,
                     state := if p.ms[k].retries + 1 >= cfg.retryLimit then Blocked else Replanning)
                case _ => p.(ms := p.ms[k := p.ms[k].(state := Pending)], flight := Landed)
              }
  {
    var k := IndexOf(p.ms, p.flight.mid);
    forall i | 0 <= i < |p.ms| && i != k ensures !p.ms[i].state.Building? {
      IndexOfAt(p.ms, i);
    }
  }

  lemma FinishBuildKeeps(cfg: Config, p: Project, r: Reply)
    requires Core(cfg, p) && p.flight.AwaitBuild?
    ensures Core(cfg, Finish(cfg, p, r))
  {
    if r.Built? || r.BuildFailed? || r.BudgetExceeded? {
      FinishBuildShape(cfg, p, r);
    }
  }

  lemma FinishKeeps(cfg: Config, p: Project, r: Reply)
    requires Core(cfg, p) && Waiting(p.flight)
    ensures Core(cfg, Finish(cfg, p, r))
  {
    if p.flight.AwaitReplan? && r.Decided? {
      ApplyKeeps(cfg, p, r.action);
    } else if p.flight.AwaitBuild? {
      FinishBuildKeeps(cfg, p, r);
    }
  }

  lemma StartKeeps(cfg: Config, p: Project, o: Signals)
    requires Core(cfg, p) && p.flight.Landed? && Advanceable(p.state)
    ensures Core(cfg, Start(cfg, p, o))
  {
    hide StartBuild, StartReplan;
    if p.state.Building? { StartBuildKeeps(cfg, p, o); }
    if p.state.Replanning? { StartReplanKeeps(cfg, p, o); }
  }

  lemma CommandKeeps(cfg: Config, p: Project, e: Event)
    requires Core(cfg, p) && OperatorCommand(e)
    ensures Core(cfg, Step(cfg, p, e))
  {
  }

  lemma ForeignSplitKeeps(cfg: Config, p: Project, id: Id, into: Children)
    requires Core(cfg, p)
    ensures Core(cfg, Step(cfg, p, ForeignSplit(id, into)))
  {
    ReplaceWithIds(p.ms, id, into, p.nextId);
  }

  lemma OutsideKeeps(cfg: Config, p: Project, e: Event)
    requires Core(cfg, p) && (e.Fallout? || e.Restart? || e.KillLost? || e.Alloc? || e.ForeignAmend?)
    ensures Core(cfg, Step(cfg, p, e))
  {
    hide Start, Finish, OnResume;
  }

  lemma StepKeeps(cfg: Config, p: Project, e: Event)
    requires Core(cfg, p)
    ensures Core(cfg, Step(cfg, p, e))
  {
    hide Core, Start, Finish, OnResume;
    match e
    case TickStart(o) => if p.flight.Landed? && Advanceable(p.state) { StartKeeps(cfg, p, o); }
    case TickReply(r) => if Waiting(p.flight) { FinishKeeps(cfg, p, r); }
    case ForeignSplit(id, into) => ForeignSplitKeeps(cfg, p, id, into);
    case _ => if OperatorCommand(e) { CommandKeeps(cfg, p, e); } else { OutsideKeeps(cfg, p, e); }
  }

  // ------------------------------------------------------------ every run

  lemma {:induction false} FromKeeps(cfg: Config, p: Project, es: seq<Event>)
    requires Core(cfg, p)
    ensures Core(cfg, From(cfg, p, es))
  {
    if es != [] {
      FromKeeps(cfg, p, es[..|es|-1]);
      StepKeeps(cfg, From(cfg, p, es[..|es|-1]), es[|es|-1]);
    }
  }

  lemma Reachable(cfg: Config, es: seq<Event>)
    ensures Core(cfg, Exec(cfg, es))
  {
    FromKeeps(cfg, NEW_PROJECT, es);
  }
}
