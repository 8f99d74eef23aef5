/** One project as a state machine. `Start` is a tick up to its first opaque
    call (crew or CI), `Finish` what it writes once that call comes back, and
    an `Event` is anything that may happen to the project. Commands of the
    operator, other workers and restarts may fall between the two halves. */
module Machine {
  import opened Lifecycle
  import opened Graph
  import opened Consolidation
  import opened AutoSplit

  /** Settings held fixed in a run. `wired` is whether the router was given the
      milestone repository; a cap of 0 is off. */
  datatype Config = Config(retryLimit: int, maxMilestones: int, every: int,
                           requireApproval: bool, wired: bool)

  /** What the tick in flight is waiting for. `AwaitBuild` carries the id and
      retry count of the row it read when it started. */
  datatype Flight =
    | Landed
    | AwaitPlan
    | AwaitBuild(mid: Id, retries: nat)
    | AwaitReplan
    | AwaitCi
    | Raised(fault: Fault)

  datatype Project = Project(state: ProjectState, ms: seq<Milestone>, killed: bool,
                             paused: bool, nextId: nat, flight: Flight)

  const NEW_PROJECT := Project(Queued, [], false, false, 0, Landed)

  /** What a tick reads besides the project: kill switch, caps, budgets and
      the session history of the milestone it is about to build. */
  datatype Signals = Signals(globalKill: bool, costOver: bool, dailyOk: bool,
                             milestoneOk: bool, overBudget: bool)

  /** `elsewhere`: the named row exists, but in another project. */
  datatype Action =
    | Noop
    | Amend(id: Id, patch: Patch)
    | Split(id: Id, into: Children, elsewhere: bool)
    | Escalate

  datatype Reply =
    | Crash
    | Planned(specs: PlanSpecs)
    | Built(commit: Option<string>)
    | BuildFailed
    | BudgetExceeded
    | Decided(action: Action)
    | CiVerdict(passed: bool)

  // ------------------------------------------------------------- the tick

  function Raise(p: Project, fault: Fault): Project {
    p.(flight := Raised(fault))
  }

  /** `Tick._move`: guarded by the state the tick believes in. */
  function Move(p: Project, to: ProjectState): Project {
    if LegalProject(p.state, to) then p.(state := to, flight := Landed) else Raise(p, IllegalHop)
  }

  function Start(cfg: Config, p: Project, o: Signals): Project {
    if o.globalKill then p
    else if p.killed then Move(p, Killed)
    else if p.paused then p
    else match p.state
      case Queued => Move(p, Planning)
      case Planning => p.(flight := AwaitPlan)
      case Building => StartBuild(cfg, p, o)
      case Replanning => StartReplan(cfg, p, o)
      case Integration => p.(flight := AwaitCi)
      case _ => p
  }

  predicate OverCap(cfg: Config, rows: nat) {
    cfg.maxMilestones > 0 && rows > cfg.maxMilestones
  }

  function StartBuild(cfg: Config, p: Project, o: Signals): Project {
    var q := p.(ms := Reclaim(p.ms));
    if OverCap(cfg, |q.ms|) || o.costOver then Move(q, Blocked) else BuildNext(cfg, q, o)
  }

  function BuildNext(cfg: Config, p: Project, o: Signals): Project {
    var k := NextPending(p.ms);
    if k == |p.ms| then Move(p, Integration)
    else if !o.dailyOk then p
    else if !o.milestoneOk then Attempt(cfg, p, p.ms[k].id, p.ms[k].retries)
    else match SetState(p.ms, p.ms[k].id, MilestoneState.Building)
      case Refused(f) => Raise(p, f)
      case Written(ms) => p.(ms := ms, flight := AwaitBuild(ms[k].id, ms[k].retries))
  }

  /** A failed attempt on row `mid`, read with `retries` spent before it. */
  function Attempt(cfg: Config, p: Project, mid: Id, retries: nat): Project {
    match RecordAttempt(p.ms, mid, false, None)
    case Refused(f) => Raise(p, f)
    case Written(ms) =>
      Move(p.(ms := ms), if retries + 1 >= cfg.retryLimit then Blocked else Replanning)
  }

  /** Insert a due consolidation after the last done row. */
  function Consolidate(cfg: Config, p: Project): Project {
    var k := AfterLastDone(p.ms);
    if Due(p.ms, cfg.every) && k > 0 then
      p.(ms := InsertAt(p.ms, k, Newborn(p.nextId, ConsolidationSpec())), nextId := p.nextId + 1)
    else p
  }

  function StartReplan(cfg: Config, p: Project, o: Signals): Project {
    ReplanNext(cfg, Consolidate(cfg, p), o)
  }

  function ReplanNext(cfg: Config, p: Project, o: Signals): Project {
    var k := NextPending(p.ms);
    if k == |p.ms| then Move(p, Integration)
    else if o.overBudget && Splittable(p.ms[k].spec) then
      Apply(p, Split(p.ms[k].id, Bisect(p.ms[k].spec), false))
    else if p.ms[k].retries == 0 || !o.milestoneOk then Move(p, ProjectState.Building)
    else p.(flight := AwaitReplan)
  }

  function Apply(p: Project, action: Action): Project {
    match action
    case Noop => Move(p, ProjectState.Building)
    case Amend(id, patch) => Move(p.(ms := UpdateSpec(p.ms, id, patch)), ProjectState.Building)
    case Split(id, into, elsewhere) =>
      if Has(p.ms, id) || elsewhere then
        Move(p.(ms := ReplaceWith(p.ms, id, into, p.nextId), nextId := p.nextId + |into|), ProjectState.Building)
      else Raise(p, NoSuchRow)
    case Escalate => Move(p, Blocked)
  }

  /** What the tick does with the reply; any other reply is a crash. */
  function Finish(cfg: Config, p: Project, r: Reply): Project {
    match (p.flight, r)
    case (AwaitPlan, Planned(specs)) =>
      if p.ms != [] then Raise(p, OrdinalClash)
      else Move(p.(ms := Newborns(specs, p.nextId), nextId := p.nextId + |specs|),
                if cfg.requireApproval then AwaitingApproval else ProjectState.Building)
    case (AwaitBuild(mid, _), BudgetExceeded) =>
      (match SetState(p.ms, mid, Pending)
       case Refused(f) => Raise(p, f)
       case Written(ms) => p.(ms := ms, flight := Landed))
    case (AwaitBuild(mid, retries), BuildFailed) => Attempt(cfg, p, mid, retries)
    case (AwaitBuild(mid, _), Built(commit)) =>
      (match RecordAttempt(p.ms, mid, true, commit)
       case Refused(f) => Raise(p, f)
       case Written(ms) => Move(p.(ms := ms), Replanning))
    case (AwaitReplan, Decided(action)) => Apply(p, action)
    case (AwaitCi, CiVerdict(passed)) => Move(p, if passed then ProjectState.Done else Blocked)
    case _ => Raise(p, CrewError)
  }

  predicate Waiting(f: Flight) {
    f.AwaitPlan? || f.AwaitBuild? || f.AwaitReplan? || f.AwaitCi?
  }

  function Conclude(cfg: Config, p: Project, r: Reply): Project {
    if Waiting(p.flight) then Finish(cfg, p, r) else p
  }

  /** A whole tick in one go: what `advance_project` does when nothing else
      happens in between. */
  function TickOnce(cfg: Config, p: Project, o: Signals, r: Reply): Project {
    Conclude(cfg, Start(cfg, p, o), r)
  }

  // --------------------------------------------------------------- events

  datatype Event =
    | TickStart(o: Signals)
    | TickReply(r: Reply)
    | Fallout(block: bool)                       // the pool's reaction to a raise
    | Approve | Pause | Resume | Abort           // the operator
    | Restart
    | KillLost                                   // the kill flag's store is wiped
    | Alloc(count: nat)                          // ids taken by other projects
    | ForeignSplit(id: Id, into: Children)       // another project's replanner
    | ForeignAmend(target: Id, patch: Patch)     //   naming a row of this one

  predicate OperatorCommand(e: Event) {
    e.Approve? || e.Pause? || e.Resume? || e.Abort?
  }

  function OnResume(cfg: Config, p: Project): Project {
    var q := p.(paused := false, killed := false);
    if !p.state.Blocked? then q
    else if cfg.wired && p.ms == [] then q.(state := Planning)
    else q.(ms := if cfg.wired then ResetRetries(p.ms) else p.ms, state := ProjectState.Building)
  }

  /** An event that is not enabled leaves the project as it is. */
  function Step(cfg: Config, p: Project, e: Event): Project {
    match e
    case TickStart(o) =>
      if p.flight.Landed? && Advanceable(p.state) then Start(cfg, p, o) else p
    case TickReply(r) =>
      if Waiting(p.flight) then Finish(cfg, p, r) else p
    case Fallout(block) =>
      if !p.flight.Raised? then p
      else p.(state := if block && LegalProject(p.state, Blocked) then Blocked else p.state, flight := Landed)
    case Approve => if p.state.AwaitingApproval? then p.(state := ProjectState.Building) else p
    case Pause => p.(paused := true)
    case Resume => OnResume(cfg, p)
    case Abort => p.(killed := true)
    case Restart => p.(ms := Reclaim(p.ms), flight := Landed)
    case KillLost => p.(killed := false)
    case Alloc(count) => p.(nextId := p.nextId + count)
    case ForeignSplit(id, into) =>
      p.(ms := ReplaceWith(p.ms, id, into, p.nextId), nextId := p.nextId + |into|)
    case ForeignAmend(target, patch) => p.(ms := UpdateSpec(p.ms, target, patch))
  }

  /** The project after a run of events from `p`. */
  function From(cfg: Config, p: Project, es: seq<Event>): Project {
    if es == [] then p
    else Step(cfg, From(cfg, p, es[..|es|-1]), es[|es|-1])
  }

  function Exec(cfg: Config, es: seq<Event>): Project {
    From(cfg, NEW_PROJECT, es)
  }

  lemma FromSnoc(cfg: Config, p: Project, es: seq<Event>, e: Event)
    ensures From(cfg, p, es + [e]) == Step(cfg, From(cfg, p, es), e)
  {
    assert (es + [e])[..|es|] == es;
  }

  lemma {:induction false} FromConcat(cfg: Config, p: Project, a: seq<Event>, b: seq<Event>)
    ensures From(cfg, p, a + b) == From(cfg, From(cfg, p, a), b)
  {
    if b == [] {
      assert a + b == a;
    } else {
      assert (a + b)[..|a + b|-1] == a + b[..|b|-1];
      FromConcat(cfg, p, a, b[..|b|-1]);
    }
  }

  /** No command of the operator in the run. */
  ghost predicate Unattended(es: seq<Event>) {
    forall n | 0 <= n < |es| :: !OperatorCommand(es[n])
  }

  /** Steps of a run that change the project's state. */
  ghost function Advances(cfg: Config, p: Project, es: seq<Event>): nat {
    if es == [] then 0
    else
      var q := From(cfg, p, es[..|es|-1]);
      Advances(cfg, p, es[..|es|-1]) + if Step(cfg, q, es[|es|-1]).state != q.state then 1 else 0
  }

  lemma {:induction false} AdvancesConcat(cfg: Config, p: Project, a: seq<Event>, b: seq<Event>)
    ensures Advances(cfg, p, a + b) == Advances(cfg, p, a) + Advances(cfg, From(cfg, p, a), b)
  {
    if b == [] {
      assert a + b == a;
    } else {
      var init := b[..|b|-1];
      assert (a + b)[..|a + b|-1] == a + init;
      AdvancesConcat(cfg, p, a, init);
      FromConcat(cfg, p, a, init);
    }
  }
}
