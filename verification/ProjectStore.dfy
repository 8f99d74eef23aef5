/** The projects table (PsycopgProjectRepo) and the kill switch, as far as the
    tick, the router and the pool touch them, and one project as the machine
    sees it through the stores. */
module ProjectStore {
  import opened Lifecycle
  import opened Machine
  import opened Backoff
  import opened MilestoneStore

  class ProjectRepo {
    var states: map<Pid, ProjectState>
    var paused: set<Pid>
    var createdAt: map<Pid, int>

    /** Every project has its `created_at`. */
    ghost predicate Valid()
      reads this
    {
      states.Keys == createdAt.Keys
    }

    constructor ()
      ensures Valid() && states == map[] && paused == {} && createdAt == map[]
    {
      states, paused, createdAt := map[], {}, map[];
    }

    method Create(pid: Pid, now: int)
      requires Valid() && pid !in states
      modifies this`states, this`createdAt
      ensures Valid() && states == old(states)[pid := Queued] && createdAt == old(createdAt)[pid := now]
    {
      states, createdAt := states[pid := Queued], createdAt[pid := now];
    }

    /** Unguarded: the caller answers for legality. An unknown project is an error
        and leaves no trace. */
    method UpdateState(pid: Pid, to: ProjectState) returns (known: bool)
      modifies this`states
      ensures known <==> pid in old(states)
      ensures states == if known then old(states)[pid := to] else old(states)
    {
      known := pid in states;
      if known {
        states := states[pid := to];
      }
    }

    /** UPDATE projects SET is_paused: nothing to update without the row. */
    method SetPaused(pid: Pid, on: bool)
      modifies this`paused
      ensures paused == if !on then old(paused) - {pid}
                        else if pid in states then old(paused) + {pid} else old(paused)
    {
      if !on {
        paused := paused - {pid};
      } else if pid in states {
        paused := paused + {pid};
      }
    }
  }

  class KillSwitch {
    var tripped: bool
    var killed: set<Pid>

    constructor ()
      ensures !tripped && killed == {}
    {
      tripped, killed := false, {};
    }

    method TripFor(pid: Pid)
      modifies this`killed
      ensures killed == old(killed) + {pid}
    {
      killed := killed + {pid};
    }

    method ResetFor(pid: Pid)
      modifies this`killed
      ensures killed == old(killed) - {pid}
    {
      killed := killed - {pid};
    }
  }

  /** The project between two halves of a tick. */
  ghost function ViewOf(milestones: MilestoneRepo, projects: ProjectRepo, kills: KillSwitch, pid: Pid): Project
    requires pid in projects.states
    reads milestones, projects, kills
  {
    Project(projects.states[pid], milestones.Listing(pid), pid in kills.killed, pid in projects.paused,
            milestones.nextId, Landed)
  }

  twostate predicate OtherListsKept(milestones: MilestoneRepo, pid: Pid)
    reads milestones
  {
    forall p: Pid | p != pid :: milestones.Listing(p) == old(milestones.Listing(p))
  }
}
