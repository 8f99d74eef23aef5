/** The approval gate. */
module Approval {
  import opened Lifecycle
  import opened Graph
  import opened Machine
  import opened NothingSkipped
  import opened Samples

  ghost predicate Unapproved(es: seq<Event>) {
    forall n | 0 <= n < |es| :: !es[n].Approve?
  }

  predicate Working(s: ProjectState) {
    s.Building? || s.Replanning? || s.Integration? || s.Done?
  }

  ghost predicate AllPending(ms: seq<Milestone>) {
    forall i | 0 <= i < |ms| :: ms[i].state.Pending? && ms[i].retries == 0 && ms[i].commit.None?
  }

  /** In front of the gate only an unplanned project can be blocked, so resuming
      it leads back to planning. */
  ghost predicate AtGate(p: Project) {
    && !Working(p.state) && AllPending(p.ms)
    && (p.state.Queued? || p.state.Planning? || p.state.Blocked? ==> p.ms == [])
    && (p.flight.Landed? || (p.state.Planning? && (p.flight.AwaitPlan? || p.flight.Raised?)))
  }

  lemma GateHolds(cfg: Config, p: Project, e: Event)
    requires cfg.requireApproval && cfg.wired && AtGate(p) && !e.Approve?
    ensures AtGate(Step(cfg, p, e))
  {
    hide StartBuild, StartReplan, Apply, Attempt, SetState, RecordAttempt, Merge;
  }

  lemma {:induction false} NoWorkBeforeApproval(cfg: Config, es: seq<Event>)
    requires cfg.requireApproval && cfg.wired && Unapproved(es)
    ensures AtGate(Exec(cfg, es))
  {
    if es != [] {
      NoWorkBeforeApproval(cfg, es[..|es|-1]);
      GateHolds(cfg, Exec(cfg, es[..|es|-1]), es[|es|-1]);
    }
  }

  lemma UngatedPlan(cfg: Config)
    requires !cfg.requireApproval
    ensures Exec(cfg, ONE_PLAN).state.Building?
  {
    OnePlanRuns(cfg);
  }

  ghost predicate GatedRun(cfg: Config, es: seq<Event>) {
    Unapproved(es) ==> !Working(Exec(cfg, es).state) && AllPending(Exec(cfg, es).ms)
  }

  /** No run works or touches a milestone before an Approve, exactly when the
      gate is on and the router can see the milestones. */
  lemma ApprovalGateIff(cfg: Config)
    ensures (forall es :: GatedRun(cfg, es)) <==> cfg.requireApproval && cfg.wired
  {
    if cfg.requireApproval && cfg.wired {
      forall es ensures GatedRun(cfg, es) {
        if Unapproved(es) { NoWorkBeforeApproval(cfg, es); }
      }
    } else if !cfg.requireApproval {
      UngatedPlan(cfg);
      assert !GatedRun(cfg, ONE_PLAN);
    } else {
      UnwiredResume(cfg);
      assert !GatedRun(cfg, CRASHED_PLAN);
    }
  }
}
