/** Legality and completeness of every run: guards never fire, state changes
    follow the table, and INTEGRATION is entered only with all work done. What
    holds of a project once it is there is in `Shipping`. */
module NothingSkipped {
  import opened Lifecycle
  import opened Graph
  import opened Machine
  import opened RunInvariant
  import opened Samples

  /** Neither transition guard nor the (project, ordinal) key ever rejects a
      write; a tick raises only for a crew, or for a row that is not there. */
  lemma GuardsNeverFire(cfg: Config, es: seq<Event>)
    ensures var f := Exec(cfg, es).flight;
            f.Raised? ==> f.fault.CrewError? || f.fault.NoSuchRow?
  {
    Reachable(cfg, es);
  }

  lemma EdgesAreLegal(cfg: Config, es: seq<Event>, e: Event)
    ensures var p, q := Exec(cfg, es), Exec(cfg, es + [e]);
            p.state != q.state ==> LegalProject(p.state, q.state)
  {
    Reachable(cfg, es);
    FromSnoc(cfg, NEW_PROJECT, es, e);
    StepEntry(cfg, Exec(cfg, es), e);
  }

  // ------------------------------------------- nothing skipped, exactly when

  ghost predicate EntryIsSound(cfg: Config, es: seq<Event>, e: Event) {
    var p, q := Exec(cfg, es), Exec(cfg, es + [e]);
    && (!p.state.Integration? && q.state.Integration? ==> q.ms != [] && AllDone(q.ms))
    && (!p.state.Done? && q.state.Done? ==> p.flight.AwaitCi? && e == TickReply(CiVerdict(true)))
  }

  lemma WiredEntryIsSound(cfg: Config, es: seq<Event>, e: Event)
    requires cfg.wired
    ensures EntryIsSound(cfg, es, e)
  {
    Reachable(cfg, es);
    Reachable(cfg, es + [e]);
    FromSnoc(cfg, NEW_PROJECT, es, e);
    StepEntry(cfg, Exec(cfg, es), e);
  }

  /** What a step may do to the project's state. */
  ghost predicate Enters(p: Project, e: Event, q: Project) {
    && (!p.state.Integration? && q.state.Integration? ==> AllDone(q.ms))
    && (!p.state.Done? && q.state.Done? ==> p.flight.AwaitCi? && e == TickReply(CiVerdict(true)))
    && (p.state != q.state ==> LegalProject(p.state, q.state))
  }

  lemma StartEntry(cfg: Config, p: Project, o: Signals)
    requires Core(cfg, p) && p.flight.Landed?
    ensures Enters(p, TickStart(o), Start(cfg, p, o))
  {
    hide StartBuild, StartReplan, Reclaim;
    if p.state.Building? { StartBuildShape(cfg, p, o); }
    if p.state.Replanning? { StartReplanShape(cfg, p, o); }
  }

  lemma FinishEntry(cfg: Config, p: Project, r: Reply)
    requires Core(cfg, p) && Waiting(p.flight)
    ensures Enters(p, TickReply(r), Finish(cfg, p, r))
  {
    hide SetState, RecordAttempt, ReplaceWith, UpdateSpec, Newborns, AllDone, Has;
  }

  lemma StepEntry(cfg: Config, p: Project, e: Event)
    requires Core(cfg, p)
    ensures Enters(p, e, Step(cfg, p, e))
  {
    hide Start, Finish;
    match e
    case TickStart(o) => if p.flight.Landed? { StartEntry(cfg, p, o); }
    case TickReply(r) => if Waiting(p.flight) { FinishEntry(cfg, p, r); }
    case _ =>
  }

  /** A planning crash, blocked and resumed. */
  const CRASHED_PLAN := [TickStart(CALM), TickStart(CALM), TickReply(Crash), Fallout(true), Resume]

  /** A router without the milestone repository resumes it into BUILDING. */
  lemma UnwiredResume(cfg: Config)
    requires !cfg.wired
    ensures Exec(cfg, CRASHED_PLAN) == NEW_PROJECT.(state := ProjectState.Building)
  {
    hide StartBuild, StartReplan, Apply, Attempt, SetState;
    var run := CRASHED_PLAN;
    assert run[..4][..3] == run[..3] && run[..3][..2] == run[..2] && run[..2][..1] == run[..1] && run[..1][..0] == [];
    assert From(cfg, NEW_PROJECT, run[..1]) == NEW_PROJECT.(state := Planning);
    assert From(cfg, NEW_PROJECT, run[..2]) == NEW_PROJECT.(state := Planning, flight := AwaitPlan);
    assert From(cfg, NEW_PROJECT, run[..3]).state.Planning?;
    assert From(cfg, NEW_PROJECT, run[..4]) == NEW_PROJECT.(state := Blocked);
  }

  /** Every run enters INTEGRATION only with a non-empty all-done list, and DONE
      only on a passing CI, exactly when the router can see the milestones. */
  lemma NothingSkippedIff(cfg: Config)
    ensures (forall es, e :: EntryIsSound(cfg, es, e)) <==> cfg.wired
  {
    if cfg.wired {
      forall es, e ensures EntryIsSound(cfg, es, e) { WiredEntryIsSound(cfg, es, e); }
    } else {
      UnwiredResume(cfg);
      FromSnoc(cfg, NEW_PROJECT, CRASHED_PLAN, TickStart(CALM));
      assert Exec(cfg, CRASHED_PLAN + [TickStart(CALM)]).state.Integration?;
      assert !EntryIsSound(cfg, CRASHED_PLAN, TickStart(CALM));
    }
  }
}
