/** The operator's commands (orchestrator/command_router.py) over the
    repositories, each proved to be the machine's event of the same name. */
module CommandRouting {
  import opened Lifecycle
  import opened Graph
  import opened Machine
  import opened Backoff
  import opened MilestoneTable
  import opened MilestoneStore
  import opened ProjectStore

  /** The destructive command needs a second, confirmed dispatch. */
  datatype Command = ApproveProject | PauseProject | ResumeProject | AbortProject(confirmed: bool)

  datatype Answer =
    | NeedsConfirmation | NotFound | NotAwaiting(state: ProjectState)
    | Approved | Paused | ResumedToPlanning | ResumedFromBlocked | Resumed | KillTripped

  predicate Accepted(a: Answer) {
    !a.NeedsConfirmation? && !a.NotFound? && !a.NotAwaiting?
  }

  function EventOf(c: Command): Event {
    match c
    case ApproveProject => Approve
    case PauseProject => Pause
    case ResumeProject => Resume
    case AbortProject(_) => Abort
  }

  predicate Unconfirmed(c: Command) {
    c.AbortProject? && !c.confirmed
  }

  lemma RefusedApproval(cfg: Config, p: Project)
    ensures !p.state.AwaitingApproval? ==> Step(cfg, p, Approve) == p
  {
  }

  /** `milestones` is null when the router was built without the repository. */
  class Router {
    const cfg: Config
    const projects: ProjectRepo
    const kills: KillSwitch
    const milestones: MilestoneRepo?
    ghost const table: MilestoneRepo

    ghost predicate Valid()
      reads table
    {
      table.Valid() && (cfg.wired <==> milestones == table) && (!cfg.wired <==> milestones == null)
    }

    constructor (cfg: Config, projects: ProjectRepo, kills: KillSwitch, ghost table: MilestoneRepo,
        milestones: MilestoneRepo?)
      ensures this.cfg == cfg && this.projects == projects && this.kills == kills
      ensures this.table == table && this.milestones == milestones
    {
      this.cfg, this.projects, this.kills, this.table, this.milestones := cfg, projects, kills, table, milestones;
    }

    ghost function View(pid: Pid): Project
      requires pid in projects.states
      reads table, projects, kills
    {
      ViewOf(table, projects, kills, pid)
    }

    /** Everything outside project `pid`. */
    twostate predicate Apart(pid: Pid)
      reads table, projects, kills
    {
      && projects.states.Keys == old(projects.states.Keys)
      && (forall p | p in projects.states && p != pid :: projects.states[p] == old(projects.states[p]))
      && projects.paused - {pid} == old(projects.paused) - {pid}
      && kills.killed - {pid} == old(kills.killed) - {pid} && kills.tripped == old(kills.tripped)
      && OtherListsKept(table, pid)
    }

    method Approve(pid: Pid) returns (a: Answer)
      requires Valid()
      modifies projects`states
      ensures Valid() && Apart(pid)
      ensures pid !in projects.states ==> a == NotFound
      ensures pid in projects.states ==> View(pid) == Step(cfg, old(View(pid)), Event.Approve)
      ensures pid in projects.states ==>
        a == if old(View(pid)).state.AwaitingApproval? then Approved else NotAwaiting(old(View(pid)).state)
      ensures projects.states == if a.Approved? then old(projects.states)[pid := ProjectState.Building]
                                 else old(projects.states)
    {
      if pid !in projects.states {
        return NotFound;
      }
      if !projects.states[pid].AwaitingApproval? {
        return NotAwaiting(projects.states[pid]);
      }
      var _ := projects.UpdateState(pid, ProjectState.Building);
      a := Approved;
    }

    method Pause(pid: Pid) returns (a: Answer)
      requires Valid()
      modifies projects`paused
      ensures Valid() && Apart(pid) && a == Paused
      ensures projects.paused == old(projects.paused) + if pid in projects.states then {pid} else {}
      ensures pid in projects.states ==> View(pid) == Step(cfg, old(View(pid)), Event.Pause)
    {
      projects.SetPaused(pid, true);
      a := Paused;
    }

    /** Back to planning without milestones, else to building with renewed
        attempts. */
    method Unblock(pid: Pid) returns (a: Answer)
      requires Valid() && pid in projects.states && projects.states[pid].Blocked?
      modifies projects`states, table
      ensures Valid() && Apart(pid)
      ensures View(pid).(paused := false, killed := false) == OnResume(cfg, old(View(pid)))
      ensures View(pid).paused == old(View(pid)).paused && View(pid).killed == old(View(pid)).killed
      ensures projects.states == old(projects.states)[pid := View(pid).state]
      ensures View(pid).state.Planning? || View(pid).state.Building?
      ensures a == if View(pid).state.Planning? then ResumedToPlanning else ResumedFromBlocked
    {
      hide Table;
      var planned := true;
      if milestones != null {
        var listed := milestones.ListForProject(pid);
        planned := listed != [];
      }
      if !planned {
        var _ := projects.UpdateState(pid, Planning);
        return ResumedToPlanning;
      }
      if milestones != null {
        var _ := milestones.ResetRetryCount(pid);
      }
      var _ := projects.UpdateState(pid, ProjectState.Building);
      a := ResumedFromBlocked;
    }

    method Resume(pid: Pid) returns (a: Answer)
      requires Valid()
      modifies projects, kills`killed, table
      ensures Valid() && Apart(pid)
      ensures pid in projects.states ==> View(pid) == Step(cfg, old(View(pid)), Event.Resume)
      ensures projects.paused == old(projects.paused) - {pid} && kills.killed == old(kills.killed) - {pid}
      ensures a.Resumed? ==> projects.states == old(projects.states)
      ensures !a.Resumed? ==>
        projects.states == old(projects.states)[pid := if a.ResumedToPlanning? then Planning else ProjectState.Building]
      ensures a == if pid !in projects.states || !old(projects.states[pid]).Blocked? then Resumed
                   else if View(pid).state.Planning? then ResumedToPlanning else ResumedFromBlocked
    {
      hide Table, ResetRetries;
      projects.SetPaused(pid, false);
      kills.ResetFor(pid);
      if pid in projects.states && projects.states[pid].Blocked? {
        a := Unblock(pid);
        return;
      }
      a := Resumed;
    }

    method Abort(pid: Pid) returns (a: Answer)
      requires Valid()
      modifies kills`killed
      ensures Valid() && Apart(pid) && a == KillTripped && kills.killed == old(kills.killed) + {pid}
      ensures pid in projects.states ==> View(pid) == Step(cfg, old(View(pid)), Event.Abort)
    {
      kills.TripFor(pid);
      a := KillTripped;
    }

    /** An unconfirmed destructive command changes nothing; any other command is
        its event, and is refused only without effect. Pausing sets the pause flag
        and aborting the kill flag, each that alone; approving and resuming are the
        only ones to move the project, resuming the only one to touch milestones. */
    method Dispatch(pid: Pid, c: Command) returns (a: Answer)
      requires Valid()
      modifies projects, kills`killed, table
      ensures Valid() && Apart(pid)
      ensures pid in projects.states ==>
        View(pid) == if Unconfirmed(c) then old(View(pid)) else Step(cfg, old(View(pid)), EventOf(c))
      ensures a == NeedsConfirmation <==> c == AbortProject(false)
      ensures a == KillTripped <==> c == AbortProject(true)
      ensures a == Paused <==> c.PauseProject?
      ensures c.ApproveProject? ==>
        a == if pid !in projects.states then NotFound
             else if old(projects.states[pid]).AwaitingApproval? then Approved
             else NotAwaiting(old(projects.states[pid]))
      ensures c.ResumeProject? ==>
        (a.Resumed? <==> pid !in projects.states || !old(projects.states[pid]).Blocked?)
        && (a.Resumed? || a.ResumedToPlanning? || a.ResumedFromBlocked?)
      ensures projects.paused ==
        if c.PauseProject? && pid in projects.states then old(projects.paused) + {pid}
        else if c.ResumeProject? then old(projects.paused) - {pid} else old(projects.paused)
      ensures kills.killed ==
        if c == AbortProject(true) then old(kills.killed) + {pid}
        else if c.ResumeProject? then old(kills.killed) - {pid} else old(kills.killed)
      ensures projects.states ==
        if a.Approved? || a.ResumedFromBlocked? then old(projects.states)[pid := ProjectState.Building]
        else if a.ResumedToPlanning? then old(projects.states)[pid := Planning]
        else old(projects.states)
      ensures !c.ResumeProject? ==> unchanged(table)
      ensures pid in projects.states && !Accepted(a) ==> View(pid) == old(View(pid))
    {
      hide Table, OnResume, Step;
      if pid in projects.states { RefusedApproval(cfg, View(pid)); }
      if Unconfirmed(c) {
        return NeedsConfirmation;
      }
      match c {
        case ApproveProject => a := Approve(pid);
        case PauseProject => a := Pause(pid);
        case ResumeProject => a := Resume(pid);
        case AbortProject(_) => a := Abort(pid);
      }
    }
  }
}
