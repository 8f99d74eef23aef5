/** The tick (orchestrator/tick.py) over the repositories. Crew and CI results
    are parameters; every handler is proved to do to its project exactly what
    the machine's `TickOnce` says, and to the rows of others what `Abroad` says. */
module Ticking {
  import opened Lifecycle
  import opened Graph
  import opened Rewrites
  import opened Consolidation
  import opened AutoSplit
  import opened Machine
  import opened Backoff
  import opened MilestoneTable
  import opened MilestoneStore
  import opened ProjectStore
  import Halting
  import Pool

  datatype Outcome = Idle | Moved(to: ProjectState) | Raising(fault: Fault)

  function OutcomeOf(p: Project, q: Project): Outcome {
    if q.flight.Raised? then Raising(q.flight.fault)
    else if q.state != p.state then Moved(q.state) else Idle
  }

  /** `_last_done`. */
  method LastDone(ms: seq<Milestone>) returns (last: Option<nat>)
    ensures last == if AfterLastDone(ms) == 0 then None else Some(AfterLastDone(ms) - 1)
  {
    last := None;
    for i := 0 to |ms|
      invariant last.Some? ==> last.value < i && ms[last.value].state.Done?
      invariant forall j | (if last.Some? then last.value + 1 else 0) <= j < i :: !ms[j].state.Done?
    {
      if ms[i].state.Done? { last := Some(i); }
    }
  }

  lemma MarkedBuilding(ms: seq<Milestone>, k: nat)
    requires UniqueIds(ms) && k < |ms| && Open(ms[k])
    ensures Has(ms, ms[k].id)
    ensures var after := ms[k := ms[k].(state := MilestoneState.Building)];
            SetState(ms, ms[k].id, MilestoneState.Building) == Written(after) && Has(after, ms[k].id)
  {
    IndexOfAt(ms, k);
    IndexOfAt(ms[k := ms[k].(state := MilestoneState.Building)], k);
  }

  lemma AttemptLands(cfg: Config, p: Project, mid: Id, retries: nat)
    requires p.flight.Landed?
    ensures !Waiting(Attempt(cfg, p, mid, retries).flight)
  {
  }

  /** What the reply of a build crew does to the project and to the outcome. */
  lemma BuildReply(cfg: Config, p: Project, mid: Id, retries: nat, r: Reply)
    requires p.flight.Landed?
    ensures var q := Finish(cfg, p.(flight := AwaitBuild(mid, retries)), r);
            var q' := q.(flight := Landed);
            match r
            case BudgetExceeded =>
              (match SetState(p.ms, mid, Pending)
               case Refused(f) => q' == p && OutcomeOf(p, q) == Raising(f)
               case Written(ms) => q' == p.(ms := ms) && OutcomeOf(p, q) == Idle)
            case BuildFailed =>
              var a := Attempt(cfg, p, mid, retries);
              q' == a.(flight := Landed) && OutcomeOf(p, q) == OutcomeOf(p, a)
            case Built(commit) =>
              (match Graph.RecordAttempt(p.ms, mid, true, commit)
               case Refused(f) => q' == p && OutcomeOf(p, q) == Raising(f)
               case Written(ms) =>
                 var a := Machine.Move(p.(ms := ms), Replanning);
                 q' == a.(flight := Landed) && OutcomeOf(p, q) == OutcomeOf(p, a))
            case _ => q' == p && OutcomeOf(p, q) == Raising(CrewError)
  {
    hide SetState, Graph.RecordAttempt, LegalProject;
  }

  /** A build tick below the guard, from a graph whose rows have distinct ids:
      marking the next row cannot fail. */
  lemma BuildNextCases(cfg: Config, p: Project, o: Signals, r: Reply)
    requires UniqueIds(p.ms) && p.flight.Landed?
    ensures var k := NextPending(p.ms);
            && Conclude(cfg, BuildNext(cfg, p, o), r) ==
               (if k == |p.ms| then Machine.Move(p, Integration)
                else if !o.dailyOk then p
                else if !o.milestoneOk then Attempt(cfg, p, p.ms[k].id, p.ms[k].retries)
                else Finish(cfg, p.(ms := p.ms[k := p.ms[k].(state := MilestoneState.Building)],
                                    flight := AwaitBuild(p.ms[k].id, p.ms[k].retries)), r))
            && (k < |p.ms| ==> Has(p.ms, p.ms[k].id))
    ensures !BuildNext(cfg, p, o).flight.AwaitReplan?
  {
    var k := NextPending(p.ms);
    if k < |p.ms| {
      MarkedBuilding(p.ms, k);
      AttemptLands(cfg, p, p.ms[k].id, p.ms[k].retries);
    }
    hide Attempt, Finish, SetState, Has, LegalProject;
  }

  lemma ApplyLands(p: Project, action: Action)
    requires p.flight.Landed?
    ensures !Waiting(Apply(p, action).flight)
  {
  }

  /** What a decision makes of the project's state. */
  lemma ApplyDecides(p: Project, action: Action)
    requires p.state.Replanning? && p.flight.Landed?
    ensures var q := Apply(p, action);
            && (OutcomeOf(p, q) == Moved(Blocked) <==> action.Escalate?)
            && q.state == (if q.flight.Raised? then Replanning
                           else if action.Escalate? then Blocked else ProjectState.Building)
            && (q.flight.Raised? <==> action.Split? && !Has(p.ms, action.id) && !action.elsewhere)
            && (action.Escalate? || q.flight.Raised? ==> q.ms == p.ms && q.nextId == p.nextId)
  {
    hide Graph.ReplaceWith, Graph.UpdateSpec, Has;
  }

  /** Where the flight was waiting does not matter to what the reply does. */
  lemma ReplanReply(cfg: Config, p: Project, r: Reply)
    requires p.flight.AwaitReplan?
    ensures if r.Decided? then
              var q := Apply(p.(flight := Landed), r.action);
              Finish(cfg, p, r).(flight := Landed) == q.(flight := Landed)
              && OutcomeOf(p, Finish(cfg, p, r)) == OutcomeOf(p, q)
            else Finish(cfg, p, r) == Raise(p, CrewError)
  {
  }

  /** A replan tick behind the cadence check, with its reply. */
  lemma ReplanNextCases(cfg: Config, p: Project, o: Signals, r: Reply)
    requires p.flight.Landed?
    ensures var k := NextPending(p.ms);
            var q := ReplanNext(cfg, p, o);
            if k == |p.ms| then
              !q.flight.AwaitReplan? && Conclude(cfg, q, r) == Machine.Move(p, Integration)
            else if o.overBudget && Splittable(p.ms[k].spec) then
              !q.flight.AwaitReplan? && Conclude(cfg, q, r) == Apply(p, Split(p.ms[k].id, Bisect(p.ms[k].spec), false))
            else if p.ms[k].retries == 0 || !o.milestoneOk then
              !q.flight.AwaitReplan? && Conclude(cfg, q, r) == Machine.Move(p, ProjectState.Building)
            else
              q == p.(flight := AwaitReplan) && Conclude(cfg, q, r) == Finish(cfg, q, r)
  {
    var k := NextPending(p.ms);
    if k < |p.ms| { ApplyLands(p, Split(p.ms[k].id, Bisect(p.ms[k].spec), false)); }
    hide Apply, Finish, LegalProject;
  }

  /** A tick that is held back, or finds its project aborted. */
  lemma HeldTick(cfg: Config, p: Project, o: Signals, r: Reply)
    requires p.flight.Landed? && (o.globalKill || p.killed || p.paused)
    ensures !Start(cfg, p, o).flight.AwaitReplan?
    ensures TickOnce(cfg, p, o, r) == if !o.globalKill && p.killed then Machine.Move(p, Killed) else p
  {
    hide LegalProject, Finish, StartBuild, StartReplan;
  }

  /** Any other tick goes by the state. */
  lemma ActiveTick(cfg: Config, p: Project, o: Signals, r: Reply)
    requires p.flight.Landed? && !o.globalKill && !p.killed && !p.paused
    ensures var q := Start(cfg, p, o);
            match p.state
            case Queued => !q.flight.AwaitReplan? && TickOnce(cfg, p, o, r) == Machine.Move(p, Planning)
            case Planning => !q.flight.AwaitReplan? && TickOnce(cfg, p, o, r) == Finish(cfg, p.(flight := AwaitPlan), r)
            case Building => q == StartBuild(cfg, p, o) && TickOnce(cfg, p, o, r) == Conclude(cfg, q, r)
            case Replanning => q == StartReplan(cfg, p, o) && TickOnce(cfg, p, o, r) == Conclude(cfg, q, r)
            case Integration =>
              !q.flight.AwaitReplan? && TickOnce(cfg, p, o, r) == Finish(cfg, p.(flight := AwaitCi), r)
            case _ => !q.flight.AwaitReplan? && TickOnce(cfg, p, o, r) == p
  {
    hide LegalProject, Finish, StartBuild, StartReplan;
  }

  /** Signals the two tick bodies do not read. */
  lemma ReplanReads(cfg: Config, p: Project, a: Signals, b: Signals)
    requires a.overBudget == b.overBudget && a.milestoneOk == b.milestoneOk
    ensures ReplanNext(cfg, p, a) == ReplanNext(cfg, p, b)
  {
  }

  lemma BuildReads(cfg: Config, p: Project, a: Signals, b: Signals)
    requires a == b.(globalKill := a.globalKill, overBudget := a.overBudget)
    ensures StartBuild(cfg, p, a) == StartBuild(cfg, p, b)
  {
  }

  /** Only the replanner's caller looks into a decision. */
  lemma OnlyReplanDecides(cfg: Config, p: Project, a: Reply, b: Reply)
    requires !p.flight.AwaitReplan? && (a == b || (a.Decided? && b.Decided?))
    ensures Conclude(cfg, p, a) == Conclude(cfg, p, b)
    ensures Waiting(p.flight) ==> Finish(cfg, p, a) == Finish(cfg, p, b)
  {
    hide Apply, Attempt, SetState, Graph.RecordAttempt, LegalProject, Newborns;
  }

  lemma CiReply(cfg: Config, p: Project, r: Reply)
    requires p.flight.AwaitCi?
    ensures Finish(cfg, p, r) == if r.CiVerdict? then Machine.Move(p, if r.passed then ProjectState.Done else Blocked)
                                 else Raise(p, CrewError)
  {
    hide LegalProject;
  }

  /** A tick that raises has not moved its project. */
  lemma RaisedStays(cfg: Config, p: Project, o: Signals, r: Reply)
    requires p.flight.Landed?
    ensures TickOnce(cfg, p, o, r).flight.Raised? ==> TickOnce(cfg, p, o, r).state == p.state
    ensures !Waiting(TickOnce(cfg, p, o, r).flight)
  {
    var q := Start(cfg, p, o);
    Pool.StartGrounded(cfg, p, o);
    if Waiting(q.flight) {
      Pool.FinishGrounded(cfg, q, r);
      Halting.ReplyLands(cfg, q, r);
    }
    hide Start, Finish;
  }

  /** The outcome of a tick tells whether, and where, it moved its project. */
  lemma OutcomeTells(cfg: Config, p: Project, o: Signals, r: Reply)
    requires p.flight.Landed?
    ensures var q := TickOnce(cfg, p, o, r);
            var out := OutcomeOf(p, q);
            && (if out.Moved? then out.to == q.state != p.state else q.state == p.state)
            && (out.Raising? <==> q.flight.Raised?) && (q == p ==> out == Idle)
  {
    RaisedStays(cfg, p, o, r);
    hide TickOnce;
  }

  /** A next row over its caps is split in half and the project goes on to build. */
  lemma OverBudgetSplits(cfg: Config, p: Project, o: Signals, r: Reply)
    requires UniqueIds(p.ms) && p.flight.Landed? && p.state.Replanning? && o.overBudget
    requires var k := NextPending(p.ms); k < |p.ms| && Splittable(p.ms[k].spec)
    ensures var k, q := NextPending(p.ms), Conclude(cfg, ReplanNext(cfg, p, o), r);
            q.state.Building? && q.ms == Splice(p.ms, k, Newborns(Bisect(p.ms[k].spec), p.nextId))
  {
    IndexOfAt(p.ms, NextPending(p.ms));
    hide Splice, Newborns, Bisect, Finish;
  }

  lemma ConsolidatedIds(cfg: Config, p: Project)
    requires UniqueIds(p.ms) && IdsBelow(p.ms, p.nextId)
    ensures var c := Consolidate(cfg, p); UniqueIds(c.ms) && c.state == p.state && c.flight == p.flight
  {
    InsertAtIds(p.ms, AfterLastDone(p.ms), ConsolidationSpec(), p.nextId);
  }

  class Tick {
    const cfg: Config
    const milestones: MilestoneRepo
    const projects: ProjectRepo
    const kills: KillSwitch
    const predictor: AutoSplitPredictor

    constructor (cfg: Config, milestones: MilestoneRepo, projects: ProjectRepo, kills: KillSwitch,
                 predictor: AutoSplitPredictor)
      ensures this.cfg == cfg && this.milestones == milestones && this.projects == projects
      ensures this.kills == kills && this.predictor == predictor
    {
      this.cfg, this.milestones, this.projects := cfg, milestones, projects;
      this.kills, this.predictor := kills, predictor;
    }

    ghost predicate Valid(pid: Pid)
      reads milestones, projects
    {
      milestones.Valid() && pid in projects.states
    }

    /** The project as the machine sees it between two ticks. */
    ghost function View(pid: Pid): Project
      requires pid in projects.states
      reads milestones, projects, kills
    {
      ViewOf(milestones, projects, kills, pid)
    }

    /** The stores are where the machine's q says, and nothing else moved. */
    twostate predicate Reached(pid: Pid, q: Project)
      requires pid in projects.states
      reads milestones, projects, kills
    {
      && View(pid) == q.(flight := Landed)
      && projects.states == old(projects.states)[pid := q.state]
    }

    /** Other projects feel only the replanner's action, once the tick that
        started at p has its reply. */
    twostate predicate Spread(pid: Pid, p: Project, r: Reply)
      reads milestones
    {
      forall x: Pid | x != pid ::
        milestones.Listing(x) == Pool.Abroad(old(milestones.Listing(x)), p.flight, r, p.nextId)
    }

    ghost predicate Foreign(pid: Pid, id: Id)
      reads milestones
    {
      id in milestones.rows && milestones.rows[id].pid != pid
    }

    /** What the replanner's action meets in the table: a Split may name a row of
        another project. */
    ghost function Located(pid: Pid, r: Reply): Reply
      reads milestones
    {
      match r
      case Decided(Split(id, into, _)) =>
        Decided(Split(id, into, Foreign(pid, id)))
      case _ => r
    }

    /** Whether the next row's session history is over a cap. */
    ghost predicate Foresees(ms: seq<Milestone>)
      reads predictor
    {
      NextPending(ms) < |ms| && predictor.TooBig(ms[NextPending(ms)].id)
    }

    /** What the machine's tick would read: the budgets as given, the kill switch
        and the verdict on the next row from the stores. */
    ghost function Seen(pid: Pid, o: Signals): Signals
      requires pid in projects.states
      reads milestones, projects, kills, predictor
    {
      o.(globalKill := kills.tripped, overBudget := Foresees(Consolidate(cfg, View(pid)).ms))
    }

    /** The same behind the cadence check. */
    ghost function SeenNext(pid: Pid, o: Signals): Signals
      requires pid in projects.states
      reads milestones, projects, kills, predictor
    {
      o.(overBudget := Foresees(View(pid).ms))
    }

    // ------------------------------------------------------------ helpers

    /** `_move`, guarded by the snapshot the tick was given. */
    method Move(pid: Pid, snap: ProjectState, to: ProjectState) returns (out: Outcome)
      requires Valid(pid) && projects.states[pid] == snap
      modifies projects`states
      ensures Valid(pid) && Reached(pid, Machine.Move(old(View(pid)), to))
      ensures out == OutcomeOf(old(View(pid)), Machine.Move(old(View(pid)), to))
    {
      if !LegalProject(snap, to) {
        return Raising(IllegalHop);
      }
      var _ := projects.UpdateState(pid, to);
      out := Moved(to);
    }

    /** The rows of this project that a dead attempt left building go back to
        pending, one by one. */
    method ReclaimOrphans(pid: Pid, listed: seq<Milestone>)
      requires Valid(pid) && listed == milestones.Listing(pid)
      modifies milestones
      ensures Valid(pid) && milestones.nextId == old(milestones.nextId)
      ensures milestones.Listing(pid) == Reclaim(listed)
      ensures OtherListsKept(milestones, pid)
    {
      for i := 0 to |listed|
        invariant Valid(pid) && milestones.nextId == old(milestones.nextId) && OtherListsKept(milestones, pid)
        invariant |milestones.Listing(pid)| == |listed|
        invariant forall j | 0 <= j < |listed| ::
                    milestones.Listing(pid)[j] == if j < i then Requeue(listed[j]) else listed[j]
      {
        if listed[i].state.Building? {
          GraphIds(milestones.rows, milestones.graphs, milestones.nextId, pid);
          IndexOfAt(milestones.Listing(pid), i);
          Whereabouts(milestones.rows, milestones.graphs, milestones.nextId, listed[i].id);
          var _ := milestones.UpdateState(listed[i].id, Pending);
        }
      }
    }

    /** `_reclaim_and_guard`. */
    method ReclaimAndGuard(pid: Pid, o: Signals) returns (drift: Option<Outcome>)
      requires Valid(pid) && projects.states[pid].Building?
      modifies milestones, projects`states
      ensures Valid(pid) && OtherListsKept(milestones, pid)
      ensures drift.Some? <==> 0 < cfg.maxMilestones < |old(milestones.Listing(pid))| || o.costOver
      ensures projects.states == if drift.Some? then old(projects.states)[pid := Blocked] else old(projects.states)
      ensures drift.Some? ==> drift.value == Moved(Blocked)
      ensures Swept(old(milestones.Listing(pid)), milestones.Listing(pid), |old(milestones.Listing(pid))|)
      ensures var q := old(View(pid)).(ms := Reclaim(old(View(pid)).ms));
              if drift.Some? then
                && Reached(pid, Machine.Move(q, Blocked))
                && drift.value == OutcomeOf(old(View(pid)), Machine.Move(q, Blocked))
              else Reached(pid, q)
    {
      var listed := milestones.ListForProject(pid);
      ReclaimingSweeps(listed);
      ReclaimOrphans(pid, listed);
      if OverCap(cfg, |listed|) || o.costOver {
        var out := Move(pid, ProjectState.Building, Blocked);
        return Some(out);
      }
      drift := None;
    }

    /** `_handle_build_failure`, and the circuit breaker before a build. */
    method FailAttempt(pid: Pid, mid: Id, retries: nat) returns (out: Outcome)
      requires Valid(pid) && projects.states[pid].Building? && Has(milestones.Listing(pid), mid)
      modifies milestones, projects`states
      ensures Valid(pid) && OtherListsKept(milestones, pid)
      ensures Reached(pid, Attempt(cfg, old(View(pid)), mid, retries))
      ensures out == OutcomeOf(old(View(pid)), Attempt(cfg, old(View(pid)), mid, retries))
    {
      Whereabouts(milestones.rows, milestones.graphs, milestones.nextId, mid);
      hide Table, LegalProject, Graph.RecordAttempt, Has;
      var fault := milestones.RecordAttempt(mid, false, None);
      if fault.Some? {
        return Raising(fault.value);
      }
      out := Move(pid, ProjectState.Building, if retries + 1 >= cfg.retryLimit then Blocked else Replanning);
    }

    // ----------------------------------------------------------- handlers

    /** `_plan`: the rows and the move are one block. */
    method Plan(pid: Pid, r: Reply) returns (out: Outcome)
      requires Valid(pid) && projects.states[pid].Planning?
      modifies milestones, projects`states
      ensures Valid(pid) && OtherListsKept(milestones, pid)
      ensures var q := Finish(cfg, old(View(pid)).(flight := AwaitPlan), r);
              Reached(pid, q) && out == OutcomeOf(old(View(pid)), q)
    {
      if !r.Planned? {
        return Raising(CrewError);
      }
      var fault := milestones.CreateMany(pid, r.specs);
      if fault.Some? {
        return Raising(fault.value);
      }
      out := Move(pid, Planning, if cfg.requireApproval then AwaitingApproval else ProjectState.Building);
    }

    /** What the tick does with the build crew's result. */
    method Build(pid: Pid, mid: Id, retries: nat, r: Reply) returns (out: Outcome)
      requires Valid(pid) && projects.states[pid].Building? && Has(milestones.Listing(pid), mid)
      modifies milestones, projects`states
      ensures Valid(pid) && OtherListsKept(milestones, pid)
      ensures var q := Finish(cfg, old(View(pid)).(flight := AwaitBuild(mid, retries)), r);
              Reached(pid, q) && out == OutcomeOf(old(View(pid)), q)
    {
      hide Table, Finish, Attempt, LegalProject, SetState, Graph.RecordAttempt, Has, IndexOf, Machine.Move;
      Whereabouts(milestones.rows, milestones.graphs, milestones.nextId, mid);
      BuildReply(cfg, View(pid), mid, retries, r);
      match r {
        case BudgetExceeded =>
          var fault := milestones.UpdateState(mid, Pending);
          out := if fault.Some? then Raising(fault.value) else Idle;
        case BuildFailed =>
          out := FailAttempt(pid, mid, retries);
        case Built(commit) =>
          var fault := milestones.RecordAttempt(mid, true, commit);
          if fault.Some? {
            return Raising(fault.value);
          }
          out := Move(pid, ProjectState.Building, Replanning);
        case _ =>
          out := Raising(CrewError);
      }
    }

    /** Row `next` is marked as building and handed to the crew. */
    method BuildRow(pid: Pid, ghost k: nat, next: Milestone, r: Reply) returns (out: Outcome)
      requires Valid(pid) && projects.states[pid].Building?
      requires k < |milestones.Listing(pid)| && milestones.Listing(pid)[k] == next && Open(next)
      modifies milestones, projects`states
      ensures Valid(pid) && OtherListsKept(milestones, pid)
      ensures var p := old(View(pid));
              var q := Finish(cfg, p.(ms := p.ms[k := next.(state := MilestoneState.Building)],
                                      flight := AwaitBuild(next.id, next.retries)), r);
              Reached(pid, q) && out == OutcomeOf(p, q)
    {
      GraphIds(milestones.rows, milestones.graphs, milestones.nextId, pid);
      MarkedBuilding(milestones.Listing(pid), k);
      Whereabouts(milestones.rows, milestones.graphs, milestones.nextId, next.id);
      hide Table, UniqueIds, Finish, SetState, Has;
      var _ := milestones.UpdateState(next.id, MilestoneState.Building);
      out := Build(pid, next.id, next.retries, r);
    }

    /** `_build_one_milestone` below the guard. */
    method BuildNextRow(pid: Pid, o: Signals, r: Reply) returns (out: Outcome)
      requires Valid(pid) && projects.states[pid].Building?
      modifies milestones, projects`states
      ensures Valid(pid) && OtherListsKept(milestones, pid)
      ensures var q := Conclude(cfg, BuildNext(cfg, old(View(pid)), o), r);
              Reached(pid, q) && out == OutcomeOf(old(View(pid)), q)
      ensures !BuildNext(cfg, old(View(pid)), o).flight.AwaitReplan?
    {
      GraphIds(milestones.rows, milestones.graphs, milestones.nextId, pid);
      ghost var ms, k := milestones.Listing(pid), NextPending(milestones.Listing(pid));
      BuildNextCases(cfg, View(pid), o, r);
      hide Table, LegalProject, Finish, Attempt, Has, UniqueIds, NextPending, BuildNext, Conclude, Machine.Move;
      var next := milestones.NextPendingRow(pid);
      if next.None? {
        out := Move(pid, ProjectState.Building, Integration);
        return;
      }
      if !o.dailyOk {
        return Idle;
      }
      if !o.milestoneOk {
        out := FailAttempt(pid, next.value.id, next.value.retries);
        return;
      }
      out := BuildRow(pid, k, next.value, r);
    }

    /** `_build_one_milestone`. */
    method BuildOneMilestone(pid: Pid, o: Signals, r: Reply) returns (out: Outcome)
      requires Valid(pid) && projects.states[pid].Building?
      modifies milestones, projects`states
      ensures Valid(pid) && OtherListsKept(milestones, pid)
      ensures var q := Conclude(cfg, StartBuild(cfg, old(View(pid)), o), r);
              Reached(pid, q) && out == OutcomeOf(old(View(pid)), q)
      ensures !StartBuild(cfg, old(View(pid)), o).flight.AwaitReplan?
    {
      hide Table, LegalProject, Finish, BuildNext, Reclaim;
      var drift := ReclaimAndGuard(pid, o);
      if drift.Some? {
        return drift.value;
      }
      out := BuildNextRow(pid, o, r);
    }

    /** `_apply_action`: an escalation blocks the project and leaves all rows. */
    method ApplyAction(pid: Pid, action: Action) returns (out: Outcome)
      requires Valid(pid) && projects.states[pid].Replanning?
      modifies milestones, projects`states
      ensures Valid(pid)
      ensures var q := Apply(old(View(pid)), old(Located(pid, Decided(action))).action);
              Reached(pid, q) && out == OutcomeOf(old(View(pid)), q)
      ensures Spread(pid, old(View(pid)).(flight := AwaitReplan), Decided(action))
      ensures out == Moved(Blocked) <==> action.Escalate?
      ensures !out.Raising? ==>
        projects.states == old(projects.states)[pid := if action.Escalate? then Blocked else ProjectState.Building]
      ensures out.Raising? ==> projects.states == old(projects.states)
      ensures action.Escalate? || out.Raising? ==>
        && milestones.nextId == old(milestones.nextId)
        && forall p: Pid :: milestones.Listing(p) == old(milestones.Listing(p))
    {
      hide Table, LegalProject, Splice, Newborns, Merge, Machine.Move, IndexOf;
      ApplyDecides(View(pid), Located(pid, Decided(action)).action);
      match action {
        case Noop =>
          out := Move(pid, Replanning, ProjectState.Building);
        case Amend(id, patch) =>
          var _ := milestones.UpdateSpec(id, patch);
          out := Move(pid, Replanning, ProjectState.Building);
        case Split(id, into, _) =>
          Whereabouts(milestones.rows, milestones.graphs, milestones.nextId, id);
          var fault := milestones.ReplaceWith(id, into);
          if fault.Some? {
            return Raising(fault.value);
          }
          out := Move(pid, Replanning, ProjectState.Building);
        case Escalate =>
          out := Move(pid, Replanning, Blocked);
      }
    }

    method InsertBehind(pid: Pid, last: Id, ghost k: nat, spec: Spec)
      requires Valid(pid) && k < |milestones.Listing(pid)| && milestones.Listing(pid)[k].id == last
      modifies milestones
      ensures Valid(pid) && OtherListsKept(milestones, pid) && milestones.nextId == old(milestones.nextId) + 1
      ensures milestones.Listing(pid)
           == InsertAt(old(milestones.Listing(pid)), k + 1, Newborn(old(milestones.nextId), spec))
      ensures forall id: Id :: Foreign(pid, id) == old(Foreign(pid, id))
    {
      ghost var rows, graphs, nextId := milestones.rows, milestones.graphs, milestones.nextId;
      GraphIds(rows, graphs, nextId, pid);
      IndexOfAt(milestones.Listing(pid), k);
      Whereabouts(rows, graphs, nextId, last);
      hide Table, InsertAt;
      var _ := milestones.InsertAfter(last, spec);
      forall p: Pid | p != pid ensures GraphIn(milestones.graphs, p) == GraphIn(graphs, p) {
        assert milestones.Listing(p) == old(milestones.Listing(p));
      }
      forall id: Id ensures Foreign(pid, id) == old(Foreign(pid, id)) {
        StillElsewhere(rows, graphs, nextId, milestones.rows, milestones.graphs, milestones.nextId, pid, id);
      }
    }

    /** The cadence check of `_replan`. */
    method InsertConsolidation(pid: Pid)
      requires Valid(pid)
      modifies milestones
      ensures Valid(pid) && OtherListsKept(milestones, pid)
      ensures View(pid) == Consolidate(cfg, old(View(pid)))
      ensures forall id: Id :: Foreign(pid, id) == old(Foreign(pid, id))
    {
      hide Table, Due, InsertAt, ConsolidationSpec, Newborn;
      var listed := milestones.ListForProject(pid);
      var due := ShouldInsertConsolidation(listed, cfg.every);
      if due {
        var last := LastDone(listed);
        if last.Some? {
          InsertBehind(pid, listed[last.value].id, last.value, ConsolidationSpec());
        }
      }
    }

    /** The mechanical half of `_replan`. */
    method SplitInHalf(pid: Pid, next: Milestone, into: Children) returns (out: Outcome)
      requires Valid(pid) && projects.states[pid].Replanning? && next in milestones.Listing(pid)
      modifies milestones, projects`states
      ensures Valid(pid) && OtherListsKept(milestones, pid)
      ensures var q := Apply(old(View(pid)), Split(next.id, into, false));
              Reached(pid, q) && out == OutcomeOf(old(View(pid)), q)
    {
      GraphIds(milestones.rows, milestones.graphs, milestones.nextId, pid);
      ghost var k :| 0 <= k < |milestones.Listing(pid)| && milestones.Listing(pid)[k] == next;
      IndexOfAt(milestones.Listing(pid), k);
      Whereabouts(milestones.rows, milestones.graphs, milestones.nextId, next.id);
      hide Table, Apply;
      out := ApplyAction(pid, Split(next.id, into, false));
    }

    /** `_replan` behind the cadence check. */
    method ReplanNextRow(pid: Pid, o: Signals, r: Reply) returns (out: Outcome)
      requires Valid(pid) && projects.states[pid].Replanning?
      modifies milestones, projects`states
      ensures Valid(pid)
      ensures var q := Conclude(cfg, ReplanNext(cfg, old(View(pid)), old(SeenNext(pid, o))), old(Located(pid, r)));
              Reached(pid, q) && out == OutcomeOf(old(View(pid)), q)
      ensures Spread(pid, ReplanNext(cfg, old(View(pid)), old(SeenNext(pid, o))), r)
    {
      hide Table, LegalProject, Finish, Apply, Bisect, Foreign, Splittable, Machine.Move, NextPending;
      hide ReplanNext, Conclude;
      ghost var p, seen, l := View(pid), SeenNext(pid, o), Located(pid, r);
      ReplanNextCases(cfg, p, seen, l);
      ReplanReply(cfg, p.(flight := AwaitReplan), l);
      var next := milestones.NextPendingRow(pid);
      if next.None? {
        out := Move(pid, Replanning, Integration);
        return;
      }
      var cheap := predictor.Predict(next.value);
      if cheap.Some? {
        out := SplitInHalf(pid, next.value, cheap.value);
        return;
      }
      if next.value.retries == 0 {
        out := Move(pid, Replanning, ProjectState.Building);
        return;
      }
      if !o.milestoneOk {
        out := Move(pid, Replanning, ProjectState.Building);
        return;
      }
      if !r.Decided? {
        return Raising(CrewError);
      }
      out := ApplyAction(pid, r.action);
    }

    /** In what `Replan` does, a next row whose sessions went over the caps, and
        that can be halved, is. */
    lemma OverBudgetHalves(pid: Pid, o: Signals, r: Reply)
      requires Valid(pid) && projects.states[pid].Replanning?
      ensures var c := Consolidate(cfg, View(pid));
              var k := NextPending(c.ms);
              k < |c.ms| && predictor.TooBig(c.ms[k].id) && Splittable(c.ms[k].spec) ==>
                var q := Conclude(cfg, StartReplan(cfg, View(pid), Seen(pid, o)), Located(pid, r));
                q.state.Building? && q.ms == Splice(c.ms, k, Newborns(Bisect(c.ms[k].spec), c.nextId))
    {
      hide Consolidate, ReplanNext, Conclude, Splittable;
      GraphIds(milestones.rows, milestones.graphs, milestones.nextId, pid);
      ConsolidatedIds(cfg, View(pid));
      var c := Consolidate(cfg, View(pid));
      var k := NextPending(c.ms);
      if k < |c.ms| && predictor.TooBig(c.ms[k].id) && Splittable(c.ms[k].spec) {
        OverBudgetSplits(cfg, c, Seen(pid, o), Located(pid, r));
      }
    }

    /** `_replan`. */
    method Replan(pid: Pid, o: Signals, r: Reply) returns (out: Outcome)
      requires Valid(pid) && projects.states[pid].Replanning?
      modifies milestones, projects`states
      ensures Valid(pid)
      ensures var q := Conclude(cfg, StartReplan(cfg, old(View(pid)), old(Seen(pid, o))), old(Located(pid, r)));
              Reached(pid, q) && out == OutcomeOf(old(View(pid)), q)
      ensures Spread(pid, StartReplan(cfg, old(View(pid)), old(Seen(pid, o))), r)
    {
      hide Table, Conclude, ReplanNext, Consolidate, Foreign, Foresees;
      ReplanReads(cfg, Consolidate(cfg, View(pid)), Seen(pid, o), o.(overBudget := Seen(pid, o).overBudget));
      InsertConsolidation(pid);
      out := ReplanNextRow(pid, o, r);
    }

    /** `_integrate`. */
    method Integrate(pid: Pid, r: Reply) returns (out: Outcome)
      requires Valid(pid) && projects.states[pid].Integration?
      modifies projects`states
      ensures Valid(pid)
      ensures var q := Finish(cfg, old(View(pid)).(flight := AwaitCi), r);
              Reached(pid, q) && out == OutcomeOf(old(View(pid)), q)
    {
      CiReply(cfg, View(pid).(flight := AwaitCi), r);
      hide Finish, Table, LegalProject;
      if !r.CiVerdict? {
        return Raising(CrewError);
      }
      out := Move(pid, Integration, if r.passed then ProjectState.Done else Blocked);
    }

    // --------------------------------------------------------------- entry

    /** `_advance_active`. */
    method AdvanceActive(pid: Pid, snap: ProjectState, o: Signals, r: Reply) returns (out: Outcome)
      requires Valid(pid) && projects.states[pid] == snap
      requires !kills.tripped && pid !in kills.killed && pid !in projects.paused
      modifies milestones, projects`states
      ensures Valid(pid)
      ensures var q := TickOnce(cfg, old(View(pid)), old(Seen(pid, o)), old(Located(pid, r)));
              Reached(pid, q) && out == OutcomeOf(old(View(pid)), q)
      ensures Spread(pid, Start(cfg, old(View(pid)), old(Seen(pid, o))), r)
    {
      hide Table, LegalProject, Finish, StartBuild, StartReplan, Start, TickOnce, Conclude;
      hide Machine.Move, Consolidate, Foresees;
      ghost var p, l := Start(cfg, View(pid), Seen(pid, o)), Located(pid, r);
      ActiveTick(cfg, View(pid), Seen(pid, o), l);
      BuildReads(cfg, View(pid), Seen(pid, o), o);
      if !p.flight.AwaitReplan? { OnlyReplanDecides(cfg, p, r, l); }
      OnlyReplanDecides(cfg, View(pid).(flight := AwaitPlan), r, l);
      OnlyReplanDecides(cfg, View(pid).(flight := AwaitCi), r, l);
      match snap {
        case Queued =>
          out := Move(pid, snap, Planning);
        case Planning =>
          out := Plan(pid, r);
        case Building =>
          out := BuildOneMilestone(pid, o, r);
        case Replanning =>
          out := Replan(pid, o, r);
        case Integration =>
          out := Integrate(pid, r);
        case _ =>
          out := Idle;
      }
    }

    /** In what `AdvanceProject` does, the global switch holds every project, and a
        pause any that is not aborted. */
    lemma SwitchesHold(pid: Pid, o: Signals, r: Reply)
      requires pid in projects.states
      requires kills.tripped || (pid in projects.paused && pid !in kills.killed)
      ensures var q := TickOnce(cfg, View(pid), Seen(pid, o), Located(pid, r));
              q == View(pid) && OutcomeOf(View(pid), q) == Idle
    {
      HeldTick(cfg, View(pid), Seen(pid, o), Located(pid, r));
      hide TickOnce, Foresees;
    }

    /** The switches at the head of `advance_project`: what happens to a project
        that one of them holds or ends. */
    method HoldOrKill(pid: Pid, snap: ProjectState, ghost o: Signals, ghost r: Reply) returns (out: Outcome)
      requires Valid(pid) && projects.states[pid] == snap
      requires kills.tripped || pid in kills.killed || pid in projects.paused
      modifies projects`states
      ensures Valid(pid)
      ensures var q := TickOnce(cfg, old(View(pid)), old(Seen(pid, o)), old(Located(pid, r)));
              Reached(pid, q) && out == OutcomeOf(old(View(pid)), q)
      ensures !Start(cfg, old(View(pid)), old(Seen(pid, o))).flight.AwaitReplan?
    {
      hide Table, LegalProject, Start, TickOnce, Foresees, Machine.Move, Consolidate;
      HeldTick(cfg, View(pid), Seen(pid, o), Located(pid, r));
      if kills.tripped {
        return Idle;
      }
      if pid in kills.killed {
        out := Move(pid, snap, Killed);
        return;
      }
      out := Idle;
    }

    /** `advance_project`, from the snapshot the pool claimed. That the snapshot
        is the stored state is `PoolRuns.SnapshotIsCurrent`. */
    method AdvanceProject(pid: Pid, snap: ProjectState, o: Signals, r: Reply) returns (out: Outcome)
      requires Valid(pid) && projects.states[pid] == snap
      modifies milestones, projects`states
      ensures Valid(pid)
      ensures var q := TickOnce(cfg, old(View(pid)), old(Seen(pid, o)), old(Located(pid, r)));
              Reached(pid, q) && out == OutcomeOf(old(View(pid)), q)
      ensures Spread(pid, Start(cfg, old(View(pid)), old(Seen(pid, o))), r)
    {
      hide Table, Start, TickOnce, Foresees, Consolidate, Graph.ReplaceWith, Graph.UpdateSpec, OutcomeOf;
      if kills.tripped || pid in kills.killed || pid in projects.paused {
        out := HoldOrKill(pid, snap, o, r);
        return;
      }
      out := AdvanceActive(pid, snap, o, r);
    }
  }
}
