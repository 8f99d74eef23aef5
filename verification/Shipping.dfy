/** What a project in INTEGRATION or DONE holds: all its milestones done, unless
    one of its rows was split while it was there. */
module Shipping {
  import opened Lifecycle
  import opened Graph
  import opened Consolidation
  import opened Machine
  import opened RunInvariant
  import opened NothingSkipped
  import opened Samples

  predicate Closing(s: ProjectState) {
    s.Integration? || s.Done?
  }

  ghost predicate Finished(p: Project) {
    Closing(p.state) ==> p.ms != [] && AllDone(p.ms)
  }

  /** Another project's replanner splits a row of a closing project. */
  predicate SplitsClosing(p: Project, e: Event) {
    Closing(p.state) && e.ForeignSplit? && Has(p.ms, e.id)
  }

  lemma ClosingStays(cfg: Config, p: Project, e: Event)
    requires FlightFits(p) && Closing(p.state) && AllDone(p.ms) && !SplitsClosing(p, e)
    ensures |Step(cfg, p, e).ms| == |p.ms| && AllDone(Step(cfg, p, e).ms)
  {
    hide StartBuild, StartReplan, Apply, Attempt, SetState, RecordAttempt, Newborns, LegalProject, Merge;
  }

  lemma SplitReopens(cfg: Config, p: Project, e: Event)
    requires SplitsClosing(p, e)
    ensures Closing(Step(cfg, p, e).state) && !AllDone(Step(cfg, p, e).ms)
  {
    hide Start, Finish, OnResume;
    assert Step(cfg, p, e).ms[IndexOf(p.ms, e.id)].state.Pending?;
  }

  /** One step leaves a finished project finished exactly when it is not such a
      Split. */
  lemma FinishedStep(cfg: Config, p: Project, e: Event)
    requires cfg.wired && Core(cfg, p) && Finished(p)
    ensures Finished(Step(cfg, p, e)) <==> !SplitsClosing(p, e)
  {
    hide Step, UniqueIds, IdsBelow, NoneBuilding, AllDone, BuildFits;
    if SplitsClosing(p, e) {
      SplitReopens(cfg, p, e);
    } else if Closing(p.state) {
      ClosingStays(cfg, p, e);
    } else {
      StepEntry(cfg, p, e);
    }
    StepKeeps(cfg, p, e);
  }

  ghost predicate SparesClosing(cfg: Config, es: seq<Event>) {
    forall n | 0 <= n < |es| :: !SplitsClosing(Exec(cfg, es[..n]), es[n])
  }

  ghost predicate AlwaysFinished(cfg: Config, es: seq<Event>) {
    forall n | 0 <= n <= |es| :: Finished(Exec(cfg, es[..n]))
  }

  lemma {:induction false} SparedIsFinished(cfg: Config, es: seq<Event>)
    requires cfg.wired && SparesClosing(cfg, es)
    ensures Finished(Exec(cfg, es))
  {
    if es != [] {
      var init := es[..|es|-1];
      forall n | 0 <= n < |init| ensures !SplitsClosing(Exec(cfg, init[..n]), init[n]) {
        assert init[..n] == es[..n] && init[n] == es[n];
      }
      SparedIsFinished(cfg, init);
      Reachable(cfg, init);
      hide Step, Finished, SplitsClosing, Core;
      FinishedStep(cfg, Exec(cfg, init), es[|es|-1]);
      assert es[..|es|-1] == init;
    }
  }

  /** Nothing unfinished is in INTEGRATION or DONE at any point of a run, exactly
      when no row was split while its project was there. */
  lemma AlwaysFinishedIff(cfg: Config, es: seq<Event>)
    requires cfg.wired
    ensures AlwaysFinished(cfg, es) <==> SparesClosing(cfg, es)
  {
    hide Step, Finished, SplitsClosing, Core;
    if SparesClosing(cfg, es) {
      forall n | 0 <= n <= |es| ensures Finished(Exec(cfg, es[..n])) {
        forall m | 0 <= m < |es[..n]| ensures !SplitsClosing(Exec(cfg, es[..n][..m]), es[..n][m]) {
          assert es[..n][..m] == es[..m] && es[..n][m] == es[m];
        }
        SparedIsFinished(cfg, es[..n]);
      }
    }
    if AlwaysFinished(cfg, es) {
      forall n | 0 <= n < |es| ensures !SplitsClosing(Exec(cfg, es[..n]), es[n]) {
        assert es[..n+1] == es[..n] + [es[n]];
        FromSnoc(cfg, NEW_PROJECT, es[..n], es[n]);
        assert Finished(Exec(cfg, es[..n])) && Finished(Exec(cfg, es[..n+1]));
        Reachable(cfg, es[..n]);
        FinishedStep(cfg, Exec(cfg, es[..n]), es[n]);
      }
    }
  }

  /** Every such run ships only finished work exactly when the router can see the
      milestones. */
  lemma ShipsFinishedIff(cfg: Config)
    ensures (forall es | SparesClosing(cfg, es) :: Finished(Exec(cfg, es))) <==> cfg.wired
  {
    if cfg.wired {
      forall es | SparesClosing(cfg, es) ensures Finished(Exec(cfg, es)) { SparedIsFinished(cfg, es); }
    } else {
      UnwiredResume(cfg);
      FromSnoc(cfg, NEW_PROJECT, CRASHED_PLAN, TickStart(CALM));
      var es := CRASHED_PLAN + [TickStart(CALM)];
      assert SparesClosing(cfg, es);
      assert !Finished(Exec(cfg, es));
    }
  }

  // ------------------------------------------------- shipping pending work

  /** The project below, in INTEGRATION, its CI running. */
  const CLOSING := FIRST_BUILT + [TickStart(CALM)] + [TickStart(CALM)]

  /** Meanwhile its only, finished milestone is split from outside. */
  const SPLIT_CLOSING := CLOSING + [ForeignSplit(0, TWO_BLANKS)] + [TickReply(CiVerdict(true))]

  lemma ClosingRuns(cfg: Config)
    requires cfg.every != 1
    ensures Exec(cfg, CLOSING) == Tried(0).(ms := [BUILT], state := Integration, flight := AwaitCi)
  {
    FirstBuiltRuns(cfg);
    FromSnoc(cfg, NEW_PROJECT, FIRST_BUILT, TickStart(CALM));
    FromSnoc(cfg, NEW_PROJECT, FIRST_BUILT + [TickStart(CALM)], TickStart(CALM));
    NotDueAfterOne(cfg);
  }

  lemma NotDueAfterOne(cfg: Config)
    requires cfg.every != 1
    ensures var p := Tried(0).(ms := [BUILT], state := Replanning); Consolidate(cfg, p) == p
  {
    assert !IsConsolidation(BUILT) && [BUILT][1..] == [];
    assert Tally([BUILT], 0) == Tally([], 1) == 1;
    assert cfg.every > 1 ==> 1 % cfg.every == 1;
  }

  lemma PassesCi(cfg: Config, p: Project)
    requires p.flight.AwaitCi? && p.state.Integration?
    ensures Step(cfg, p, TickReply(CiVerdict(true))) == p.(state := ProjectState.Done, flight := Landed)
  {
  }

  lemma SplitsBuilt(p: Project)
    requires Closing(p.state) && p.ms == [BUILT]
    ensures SplitsClosing(p, ForeignSplit(0, TWO_BLANKS))
  {
    assert IndexOf([BUILT], 0) == 0;
  }

  /** It ends in DONE with both of its milestones pending, wired or not. */
  lemma ShipsPendingWork(cfg: Config)
    requires cfg.every != 1
    ensures var p := Exec(cfg, SPLIT_CLOSING);
            p.state.Done? && |p.ms| == 2 && p.ms[0].state.Pending? && p.ms[1].state.Pending?
    ensures !SparesClosing(cfg, SPLIT_CLOSING)
  {
    hide Step, SplitsClosing;
    ClosingRuns(cfg);
    var p := Exec(cfg, CLOSING);
    SplitBuilt(cfg, p);
    PassesCi(cfg, Step(cfg, p, ForeignSplit(0, TWO_BLANKS)));
    FromSnoc(cfg, NEW_PROJECT, CLOSING, ForeignSplit(0, TWO_BLANKS));
    FromSnoc(cfg, NEW_PROJECT, CLOSING + [ForeignSplit(0, TWO_BLANKS)], TickReply(CiVerdict(true)));
    SplitsBuilt(p);
    var es, n := SPLIT_CLOSING, |CLOSING|;
    assert es[..n] == CLOSING && es[n] == ForeignSplit(0, TWO_BLANKS);
    assert SplitsClosing(Exec(cfg, es[..n]), es[n]);
  }
}
