/** The other half of `Bounded`: ticks that are not held back do advance, so
    that boundedly many of them settle a project. */
module Progress {
  import opened Lifecycle
  import opened Graph
  import AutoSplit
  import opened Machine
  import opened RunInvariant
  import opened Bounded

  /** A reply to what the tick waits for: no crash, no budget stop, no Split of a
      row that does not exist. */
  predicate Answers(p: Project, r: Reply) {
    match p.flight
    case AwaitPlan => r.Planned?
    case AwaitBuild(_, _) => r.Built? || r.BuildFailed?
    case AwaitReplan => r.Decided? && (r.action.Split? ==> Has(p.ms, r.action.id) || r.action.elsewhere)
    case AwaitCi => r.CiVerdict?
    case _ => true
  }

  /** Neither the global switch nor the daily budget is in the way, and the call,
      if there is one, is answered. */
  predicate Unhindered(cfg: Config, p: Project, o: Signals, r: Reply) {
    !o.globalKill && o.dailyOk && Answers(Start(cfg, p, o), r)
  }

  lemma BuildTickMoves(cfg: Config, p: Project, o: Signals)
    requires Core(cfg, p) && p.state.Building? && p.flight.Landed? && o.dailyOk
    ensures var q := StartBuild(cfg, p, o);
            if q.flight.AwaitBuild? then Has(q.ms, q.flight.mid) else q.flight.Landed? && q.state != p.state
  {
    hide LegalProject;
    StartBuildMoves(cfg, p, o);
    StartBuildShape(cfg, p, o);
    StartBuildKeeps(cfg, p, o);
    hide StartBuild, Reclaim;
    var q, k := StartBuild(cfg, p, o), NextPending(Reclaim(p.ms));
    if q.flight.AwaitBuild? { IndexOfAt(q.ms, k); }
  }

  lemma StartBuildMoves(cfg: Config, p: Project, o: Signals)
    requires Core(cfg, p) && p.state.Building? && p.flight.Landed? && o.dailyOk
    ensures var q := StartBuild(cfg, p, o); q.flight.Landed? ==> q.state != p.state
  {
    hide Reclaim, SetState, RecordAttempt;
  }

  lemma BuildReplyMoves(cfg: Config, p: Project, r: Reply)
    requires Core(cfg, p) && p.flight.AwaitBuild? && Has(p.ms, p.flight.mid) && (r.Built? || r.BuildFailed?)
    ensures Finish(cfg, p, r).flight.Landed? && Finish(cfg, p, r).state != p.state
  {
    hide Finish, UniqueIds, IdsBelow;
    FinishBuildShape(cfg, p, r);
  }

  lemma OtherReplyMoves(cfg: Config, p: Project, r: Reply)
    requires Core(cfg, p) && Waiting(p.flight) && !p.flight.AwaitBuild? && Answers(p, r)
    requires p.flight.AwaitPlan? ==> p.ms == []
    ensures Finish(cfg, p, r).flight.Landed? && Finish(cfg, p, r).state != p.state
  {
    hide Newborns, UpdateSpec, ReplaceWith, Has, UniqueIds, IdsBelow, NoneBuilding;
  }

  lemma ReplanTickMoves(cfg: Config, p: Project, o: Signals)
    requires Core(cfg, p) && p.state.Replanning? && p.flight.Landed?
    ensures var q := StartReplan(cfg, p, o); q.flight.AwaitReplan? || (q.flight.Landed? && q.state != p.state)
  {
    hide StartReplan, Consolidate, UniqueIds, IdsBelow, NoneBuilding, AutoSplit.Bisect, AutoSplit.Splittable;
    StartReplanShape(cfg, p, o);
  }

  /** The first half of an unhindered tick moves the project or calls out. */
  lemma StartMoves(cfg: Config, p: Project, o: Signals)
    requires Core(cfg, p) && p.flight.Landed? && Advanceable(p.state) && !p.paused
    requires !o.globalKill && o.dailyOk
    ensures var q := Start(cfg, p, o);
            && (if Waiting(q.flight) then q.state == p.state else q.flight.Landed? && q.state != p.state)
            && (q.flight.AwaitBuild? ==> Has(q.ms, q.flight.mid))
            && (q.flight.AwaitPlan? ==> q.ms == [])
            && q.paused == p.paused
  {
    hide StartBuild, StartReplan, UniqueIds, IdsBelow, NoneBuilding, Has;
    if p.state.Building? {
      BuildTickMoves(cfg, p, o);
      StartBuildShape(cfg, p, o);
      StartBuildKeeps(cfg, p, o);
    }
    if p.state.Replanning? {
      ReplanTickMoves(cfg, p, o);
      StartReplanShape(cfg, p, o);
      StartReplanPauses(cfg, p, o);
    }
  }

  lemma StartReplanPauses(cfg: Config, p: Project, o: Signals)
    ensures StartReplan(cfg, p, o).paused == p.paused
  {
    hide Consolidation.Due, AutoSplit.Bisect, AutoSplit.Splittable, ReplaceWith, NextPending, LegalProject;
  }

  /** A tick that nothing holds back changes the project's state. */
  lemma TickAdvances(cfg: Config, p: Project, o: Signals, r: Reply)
    requires Core(cfg, p) && p.flight.Landed? && Advanceable(p.state) && !p.paused && Unhindered(cfg, p, o, r)
    ensures var q := TickOnce(cfg, p, o, r); q.flight.Landed? && q.state != p.state
  {
    hide Start, Finish, UniqueIds, IdsBelow, NoneBuilding, Has;
    StartMoves(cfg, p, o);
    StartKeeps(cfg, p, o);
    var q := Start(cfg, p, o);
    if Waiting(q.flight) {
      if q.flight.AwaitBuild? { BuildReplyMoves(cfg, q, r); } else { OtherReplyMoves(cfg, q, r); }
    }
  }

  // ------------------------------------------------------- settling down

  datatype Input = Input(o: Signals, r: Reply)

  /** The pool ticks the project as long as it is advanceable. */
  function Drive(cfg: Config, p: Project, inputs: seq<Input>): Project
    decreases |inputs|
  {
    if inputs == [] || !Advanceable(p.state) then p
    else Drive(cfg, TickOnce(cfg, p, inputs[0].o, inputs[0].r), inputs[1..])
  }

  /** None of these ticks is held back. */
  predicate Smooth(cfg: Config, p: Project, inputs: seq<Input>)
    decreases |inputs|
  {
    inputs != [] && Advanceable(p.state) ==>
      && Unhindered(cfg, p, inputs[0].o, inputs[0].r)
      && Smooth(cfg, TickOnce(cfg, p, inputs[0].o, inputs[0].r), inputs[1..])
  }

  /** An advancing tick pays with the measure. */
  lemma TickDescends(cfg: Config, p: Project, o: Signals, r: Reply)
    requires Core(cfg, p) && p.flight.Landed? && Advanceable(p.state) && cfg.maxMilestones > 0
    ensures Core(cfg, TickOnce(cfg, p, o, r)) && TickOnce(cfg, p, o, r).paused == p.paused
    ensures Descends(cfg, p, TickOnce(cfg, p, o, r))
  {
    var q := Start(cfg, p, o);
    hide Start, Finish, Measure, Core;
    StepKeeps(cfg, p, TickStart(o));
    StepDescends(cfg, p, TickStart(o));
    StartPauses(cfg, p, o);
    if Waiting(q.flight) {
      StepKeeps(cfg, q, TickReply(r));
      StepDescends(cfg, q, TickReply(r));
      FinishPauses(cfg, q, r);
    }
  }

  lemma StartPauses(cfg: Config, p: Project, o: Signals)
    ensures Start(cfg, p, o).paused == p.paused
  {
    hide StartReplan, SetState, RecordAttempt, LegalProject, NextPending;
    StartReplanPauses(cfg, p, o);
  }

  lemma FinishPauses(cfg: Config, p: Project, r: Reply)
    requires Waiting(p.flight)
    ensures Finish(cfg, p, r).paused == p.paused
  {
    hide SetState, RecordAttempt, LegalProject, ReplaceWith, UpdateSpec, Newborns, Has;
  }

  lemma AdvanceableMeasure(cfg: Config, p: Project)
    requires Advanceable(p.state)
    ensures Measure(cfg, p) >= 1
  {
  }

  lemma {:induction false} DrivenDown(cfg: Config, p: Project, inputs: seq<Input>)
    requires Core(cfg, p) && p.flight.Landed? && !p.paused && cfg.maxMilestones > 0 && Smooth(cfg, p, inputs)
    ensures |inputs| >= Measure(cfg, p) ==> !Advanceable(Drive(cfg, p, inputs).state)
    decreases |inputs|
  {
    hide Core, Unhindered, Measure;
    if Advanceable(p.state) {
      AdvanceableMeasure(cfg, p);
      if inputs != [] {
        var Input(o, r) := inputs[0];
        TickAdvances(cfg, p, o, r);
        TickDescends(cfg, p, o, r);
        hide TickOnce;
        DrivenDown(cfg, TickOnce(cfg, p, o, r), inputs[1..]);
      }
    }
  }

  /** With the cap on, Ceiling + 2 ticks that nothing holds back take any
      reachable project that is not paused to AWAITING_APPROVAL, DONE, BLOCKED or
      KILLED. */
  lemma Settles(cfg: Config, before: seq<Event>, inputs: seq<Input>)
    requires cfg.maxMilestones > 0 && Exec(cfg, before).flight.Landed? && !Exec(cfg, before).paused
    requires Smooth(cfg, Exec(cfg, before), inputs) && |inputs| >= Ceiling(cfg) + 2
    ensures var s := Drive(cfg, Exec(cfg, before), inputs).state;
            s.AwaitingApproval? || s.Done? || s.Blocked? || s.Killed?
  {
    hide Core, Ceiling, Measure, Smooth, Drive;
    Reachable(cfg, before);
    MeasureBelow(cfg, Exec(cfg, before));
    DrivenDown(cfg, Exec(cfg, before), inputs);
  }
}
