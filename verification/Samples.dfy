/** A few short concrete runs, shared by the counterexamples. */
module Samples {
  import opened Lifecycle
  import opened Graph
  import opened Machine

  /** Nothing in the way of the tick. */
  const CALM := Signals(false, false, true, true, false)

  /** The milestone's token cap is spent. */
  const TRIPPED := Signals(false, false, true, false, false)

  const TWO_BLANKS: Children := [BLANK, BLANK]

  /** Planned with one blank milestone. */
  const ONE_PLAN := [TickStart(CALM), TickStart(CALM), TickReply(Planned([BLANK]))]

  /** The same, approved if need be. */
  const FIRST_PLAN := ONE_PLAN + [Approve]

  /** Whose only milestone is then built. */
  const FIRST_BUILT := FIRST_PLAN + [TickStart(CALM)] + [TickReply(Built(None))]

  /** One blank milestone with r failed attempts, project BUILDING. */
  function Tried(r: nat): Project {
    Project(ProjectState.Building, [Milestone(0, BLANK, if r == 0 then Pending else Failed, r, None)], false,
        false, 1, Landed)
  }

  const BUILT := Milestone(0, BLANK, MilestoneState.Done, 0, None)

  lemma OnePlanRuns(cfg: Config)
    ensures Exec(cfg, ONE_PLAN)
         == Tried(0).(state := if cfg.requireApproval then AwaitingApproval else ProjectState.Building)
  {
    var run := ONE_PLAN;
    assert run[..2][..1] == run[..1] && run[..1][..0] == [];
    assert From(cfg, NEW_PROJECT, run[..1]) == NEW_PROJECT.(state := Planning);
    assert From(cfg, NEW_PROJECT, run[..2]) == NEW_PROJECT.(state := Planning, flight := AwaitPlan);
    assert Newborns([BLANK], 0) == [Newborn(0, BLANK)];
  }

  lemma FirstPlanRuns(cfg: Config)
    ensures Exec(cfg, FIRST_PLAN) == Tried(0)
  {
    OnePlanRuns(cfg);
    FromSnoc(cfg, NEW_PROJECT, ONE_PLAN, Approve);
  }

  lemma FirstBuiltRuns(cfg: Config)
    ensures Exec(cfg, FIRST_BUILT) == Tried(0).(ms := [BUILT], state := Replanning)
  {
    FirstPlanRuns(cfg);
    FromSnoc(cfg, NEW_PROJECT, FIRST_PLAN, TickStart(CALM));
    FromSnoc(cfg, NEW_PROJECT, FIRST_PLAN + [TickStart(CALM)], TickReply(Built(None)));
    var p := Tried(0);
    assert Reclaim(p.ms) == p.ms && NextPending(p.ms) == 0 && IndexOf(p.ms, 0) == 0;
    var q := Step(cfg, p, TickStart(CALM));
    assert q.ms == [p.ms[0].(state := MilestoneState.Building)] && q.flight == AwaitBuild(0, 0);
    assert IndexOf(q.ms, 0) == 0;
  }

  /** Its finished milestone split from outside. */
  lemma SplitBuilt(cfg: Config, p: Project)
    requires p.ms == [BUILT]
    ensures Step(cfg, p, ForeignSplit(0, TWO_BLANKS))
         == p.(ms := [Newborn(p.nextId, BLANK), Newborn(p.nextId + 1, BLANK)], nextId := p.nextId + 2)
  {
    hide Start, Finish, OnResume, SetState;
    assert IndexOf(p.ms, BUILT.id) == 0;
    var kids := Newborns(TWO_BLANKS, p.nextId);
    assert kids == [Newborn(p.nextId, BLANK), Newborn(p.nextId + 1, BLANK)];
    assert Splice(p.ms, 0, kids) == kids;
  }
}
