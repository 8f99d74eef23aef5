/** What each step does to a project, said in the fields of its row and of its
    milestones: a second account of the machine, beside the functions the first is
    made of. Only the cadence check is named again, by the replan tick behind it. */
module Effects {
  import opened Lifecycle
  import opened Graph
  import opened Rewrites
  import opened Markers
  import opened AutoSplit
  import opened Consolidation
  import opened Machine
  import opened RunInvariant

  // -------------------------------------------------------- a tick begins

  /** Neither stopped nor paused nor already under way. */
  predicate Free(p: Project, o: Signals) {
    p.flight.Landed? && !o.globalKill && !p.killed && !p.paused
  }

  /** The switches come first, the kill flag before the pause. */
  lemma HeldTick(cfg: Config, p: Project, o: Signals)
    requires p.flight.Landed? && Advanceable(p.state)
    ensures var q := Step(cfg, p, TickStart(o));
            && (o.globalKill ==> q == p)
            && (!o.globalKill && p.killed ==> q == p.(state := Killed))
            && (!o.globalKill && !p.killed && p.paused ==> q == p)
  {
    hide StartBuild, StartReplan;
  }

  /** A project already under way is not ticked, and nobody hears a reply or a
      crash that is not awaited. */
  lemma UnawaitedEvents(cfg: Config, p: Project, e: Event)
    requires (e.TickStart? && !p.flight.Landed?) || (e.TickReply? && (p.flight.Landed? || p.flight.Raised?))
          || (e.Fallout? && !p.flight.Raised?) || e.Alloc?
    ensures Step(cfg, p, e) == p.(nextId := p.nextId + if e.Alloc? then e.count else 0)
  {
    hide Start, Finish, OnResume;
  }

  /** A tick in one go is its two halves, one after the other. */
  lemma WholeTick(cfg: Config, p: Project, o: Signals, r: Reply)
    requires p.flight.Landed? && Advanceable(p.state)
    ensures TickOnce(cfg, p, o, r) == Step(cfg, Step(cfg, p, TickStart(o)), TickReply(r))
  {
    hide Start, Finish, OnResume;
  }

  lemma CallingTick(cfg: Config, p: Project, o: Signals)
    requires Free(p, o)
    ensures var q := Step(cfg, p, TickStart(o));
            && (p.state.Queued? ==> q == p.(state := Planning))
            && (p.state.Planning? ==> q == p.(flight := AwaitPlan))
            && (p.state.Integration? ==> q == p.(flight := AwaitCi))
            && (!Advanceable(p.state) ==> q == p)
  {
    hide StartBuild, StartReplan;
  }

  /** What a build tick does with row k, the next. */
  ghost predicate BuildBegins(cfg: Config, o: Signals, p: Project, q: Project, k: nat) {
    && FirstUndone(p.ms, k) && Swept(p.ms, q.ms, k)
    && if o.milestoneOk then
         && q.state.Building? && q.flight == AwaitBuild(p.ms[k].id, p.ms[k].retries)
         && q.ms[k] == p.ms[k].(state := MilestoneState.Building)
       else
         && q.state == (if p.ms[k].retries + 1 >= cfg.retryLimit then Blocked else Replanning)
         && q.flight.Landed? && q.ms[k] == p.ms[k].(state := Failed, retries := p.ms[k].retries + 1)
  }

  /** Over the scope or cost cap the project is blocked; with all work done it
      goes to integration; out of daily budget it waits; otherwise the next
      milestone starts, or fails for want of its own budget. */
  ghost predicate BuildTicked(cfg: Config, o: Signals, p: Project, q: Project) {
    && q == p.(state := q.state, ms := q.ms, flight := q.flight)
    && if 0 < cfg.maxMilestones < |p.ms| || o.costOver then
         q.state.Blocked? && q.flight.Landed? && Swept(p.ms, q.ms, |p.ms|)
       else if AllDone(p.ms) then
         q == p.(state := Integration)
       else if !o.dailyOk then
         q.state.Building? && q.flight.Landed? && Swept(p.ms, q.ms, |p.ms|)
       else exists k :: BuildBegins(cfg, o, p, q, k)
  }

  lemma BuildTick(cfg: Config, p: Project, o: Signals)
    requires Core(cfg, p) && p.state.Building? && Free(p, o)
    ensures BuildTicked(cfg, o, p, Step(cfg, p, TickStart(o)))
  {
    hide Core, Start, BuildNext, Finish, OnResume;
    BuildTickGuarded(cfg, p, o);
    if NextPending(Reclaim(p.ms)) == |p.ms| { NothingLeft(cfg, p, o); } else { NextBegins(cfg, p, o); }
  }

  lemma NothingLeft(cfg: Config, p: Project, o: Signals)
    requires p.state.Building? && Free(p, o) && NextPending(Reclaim(p.ms)) == |p.ms|
    ensures AllDone(p.ms) && Reclaim(p.ms) == p.ms
    ensures BuildNext(cfg, p.(ms := Reclaim(p.ms)), o) == p.(state := Integration)
  {
    var r := Reclaim(p.ms);
    assert forall i | 0 <= i < |r| :: !Open(r[i]);
    forall i | 0 <= i < |r| ensures p.ms[i].state.Done? && r[i] == p.ms[i] { assert !Open(r[i]); }
  }

  lemma BuildTickGuarded(cfg: Config, p: Project, o: Signals)
    requires p.state.Building? && Free(p, o)
    ensures Step(cfg, p, TickStart(o)) ==
              if 0 < cfg.maxMilestones < |p.ms| || o.costOver then p.(ms := Reclaim(p.ms), state := Blocked)
              else BuildNext(cfg, p.(ms := Reclaim(p.ms)), o)
  {
    hide BuildNext, StartReplan;
  }

  lemma NextBegins(cfg: Config, p: Project, o: Signals)
    requires Core(cfg, p) && p.state.Building? && Free(p, o) && NextPending(Reclaim(p.ms)) < |p.ms|
    ensures var q := BuildNext(cfg, p.(ms := Reclaim(p.ms)), o);
            && q == p.(state := q.state, ms := q.ms, flight := q.flight)
            && (if o.dailyOk then BuildBegins(cfg, o, p, q, NextPending(Reclaim(p.ms)))
                else q == p.(ms := Reclaim(p.ms)))
  {
    hide IdsBelow, RunInvariant.Planned, BuildFits, StartReplan, Finish, OnResume;
    var r := Reclaim(p.ms);
    IndexOfAt(r, NextPending(r));
  }

  /** The scope guard blocks a project with more milestones than the cap and no
      other: with nothing else in the way its next milestone starts. */
  lemma ScopeGuard(cfg: Config, p: Project, o: Signals)
    requires Core(cfg, p) && p.state.Building? && Free(p, o) && !o.costOver && o.dailyOk && o.milestoneOk
    ensures var q := Step(cfg, p, TickStart(o));
            && (q.state.Blocked? <==> 0 < cfg.maxMilestones < |p.ms|)
            && (!q.state.Blocked? ==> AllDone(p.ms) || exists k :: BuildBegins(cfg, o, p, q, k) && q.flight.AwaitBuild?)
  {
    hide Step, Core, Swept, FirstUndone;
    BuildTick(cfg, p, o);
  }

  // -------------------------------------------------- the cadence, a replan

  /** The two children of a bisected milestone. */
  ghost predicate Halves(spec: Spec, into: seq<Spec>) {
    && |into| == 2
    && into[0].title == spec.title + " (part 1)" && into[1].title == spec.title + " (part 2)"
    && into[0].description == into[1].description == spec.description
    && into[0].criteria + into[1].criteria == spec.criteria
    && |into[1].criteria| <= |into[0].criteria| <= |into[1].criteria| + 1
    && into[0].note == (if spec.note == "" then "[AUTO-SPLIT 1/2]" else spec.note + " [AUTO-SPLIT 1/2]")
    && into[1].note == (if spec.note == "" then "[AUTO-SPLIT 2/2]" else spec.note + " [AUTO-SPLIT 2/2]")
  }

  /** A child inherits description and note text, under a title and a mark of its
      own. */
  lemma HalvesInherit(spec: Spec)
    ensures Halves(spec, Bisect(spec))
  {
    assert spec.note + " " + HALF_1 == spec.note + (" " + HALF_1);
    assert spec.note + " " + HALF_2 == spec.note + (" " + HALF_2);
    assert " " + HALF_1 == " [AUTO-SPLIT 1/2]" && " " + HALF_2 == " [AUTO-SPLIT 2/2]";
    assert spec.note == "" ==> spec.note + "" + HALF_1 == HALF_1 && spec.note + "" + HALF_2 == HALF_2;
  }

  /** The row for a consolidation stands right behind the last done one. */
  ghost predicate ConsolidatesAt(p: Project, q: Project, k: nat) {
    && 0 < k <= |p.ms| && p.ms[k-1].state.Done? && (forall i | k <= i < |p.ms| :: !p.ms[i].state.Done?)
    && q == p.(nextId := p.nextId + 1,
               ms := p.ms[..k] + [Milestone(p.nextId, ConsolidationSpec(), Pending, 0, None)] + p.ms[k..])
  }

  /** The cadence check inserts exactly when no consolidation is open and the
      milestones done since the last one are a positive multiple of it. */
  ghost predicate CadenceChecked(cfg: Config, p: Project, q: Project) {
    var n := |DoneSince(p.ms)|;
    if cfg.every > 0 && n > 0 && n % cfg.every == 0 && NoneOpen(p.ms)
    then exists k :: ConsolidatesAt(p, q, k)
    else q == p
  }

  lemma CadenceTick(cfg: Config, p: Project)
    ensures CadenceChecked(cfg, p, Consolidate(cfg, p))
  {
    DueMeans(p.ms, cfg.every);
    hide Due, DoneSince, NoneOpen;
    var q, k := Consolidate(cfg, p), AfterLastDone(p.ms);
    if Due(p.ms, cfg.every) {
      SomeDone(p.ms);
      assert ConsolidatesAt(p, q, k);
    }
  }

  lemma SomeDone(ms: seq<Milestone>)
    requires |DoneSince(ms)| > 0
    ensures AfterLastDone(ms) > 0
  {
    var i :| i in DoneSince(ms);
  }

  ghost predicate ReplanBegins(o: Signals, c: Project, q: Project, k: nat) {
    && FirstUndone(c.ms, k)
    && var m := c.ms[k];
       if o.overBudget && !Contains(m.spec.note, "[AUTO-SPLIT") && |m.spec.criteria| >= 2 then
         && q == c.(state := ProjectState.Building, ms := q.ms, nextId := c.nextId + 2)
         && exists into :: Halves(m.spec, into) && DividedAt(c.ms, q.ms, k, into, c.nextId)
       else if m.retries == 0 || !o.milestoneOk then q == c.(state := ProjectState.Building)
       else q == c.(flight := AwaitReplan)
  }

  /** Behind the cadence check: with all work done to integration; a next
      milestone that went over its caps and can still be halved is halved; one
      never tried, or out of budget, is built; any other goes to the replanner. */
  ghost predicate ReplanTicked(o: Signals, c: Project, q: Project) {
    if AllDone(c.ms) then q == c.(state := Integration) else exists k :: ReplanBegins(o, c, q, k)
  }

  lemma ReplanTick(cfg: Config, p: Project, o: Signals)
    requires Core(cfg, p) && p.state.Replanning? && Free(p, o)
    ensures ReplanTicked(o, Consolidate(cfg, p), Step(cfg, p, TickStart(o)))
  {
    hide Consolidate, Bisect, UniqueIds, IdsBelow, Contains, BuildFits, RunInvariant.Planned;
    ConsolidateFacts(cfg, p);
    ConsolidateStays(cfg, p);
    var q, c := Step(cfg, p, TickStart(o)), Consolidate(cfg, p);
    assert q == ReplanNext(cfg, c, o);
    var k := NextPending(c.ms);
    if k < |c.ms| {
      IndexOfAt(c.ms, k);
      var m := c.ms[k];
      if o.overBudget && Splittable(m.spec) { HalvingTick(c, q, k); }
      assert ReplanBegins(o, c, q, k);
    } else {
      assert forall i | 0 <= i < |c.ms| :: !Open(c.ms[i]);
    }
  }

  lemma SplittingDivides(c: Project, k: nat, into: Children)
    requires k < |c.ms| && IndexOf(c.ms, c.ms[k].id) == k && c.state.Replanning? && c.flight.Landed?
    ensures var q := Apply(c, Split(c.ms[k].id, into, false));
            && q == c.(state := ProjectState.Building, ms := q.ms, nextId := c.nextId + |into|)
            && DividedAt(c.ms, q.ms, k, into, c.nextId)
  {
    var ms := Splice(c.ms, k, Newborns(into, c.nextId));
    assert ms[k..k+|into|] == Newborns(into, c.nextId);
    hide Graph.UpdateSpec;
  }

  lemma HalvingTick(c: Project, q: Project, k: nat)
    requires k < |c.ms| && IndexOf(c.ms, c.ms[k].id) == k && c.state.Replanning? && c.flight.Landed?
    requires q == Apply(c, Split(c.ms[k].id, Bisect(c.ms[k].spec), false))
    ensures q == c.(state := ProjectState.Building, ms := q.ms, nextId := c.nextId + 2)
    ensures exists into :: Halves(c.ms[k].spec, into) && DividedAt(c.ms, q.ms, k, into, c.nextId)
  {
    hide Halves, Bisect, Apply, DividedAt;
    var into := Bisect(c.ms[k].spec);
    HalvesInherit(c.ms[k].spec);
    SplittingDivides(c, k, into);
  }

  // ------------------------------------------------------ a call comes back

  /** A plan becomes the project's milestones, each spec in full. */
  ghost predicate PlanTaken(cfg: Config, p: Project, q: Project, specs: seq<Spec>) {
    && q == p.(state := if cfg.requireApproval then AwaitingApproval else ProjectState.Building,
               ms := q.ms, nextId := p.nextId + |specs|, flight := Landed)
    && Untried(q.ms, specs, p.nextId)
  }

  lemma PlanReply(cfg: Config, p: Project, specs: PlanSpecs)
    requires Core(cfg, p) && p.flight.AwaitPlan?
    ensures PlanTaken(cfg, p, Step(cfg, p, TickReply(Planned(specs))), specs)
  {
  }

  /** The built row k, and the project behind it. */
  ghost predicate BuildEnds(cfg: Config, p: Project, q: Project, r: Reply, k: nat) {
    && OnlyRow(p.ms, q.ms, k) && p.flight.AwaitBuild? && p.ms[k].id == p.flight.mid && q.flight.Landed?
    && match r
       case Built(commit) =>
         && q.state.Replanning?
         && q.ms[k] == p.ms[k].(state := MilestoneState.Done, commit := q.ms[k].commit)
         && (commit.Some? ==> q.ms[k].commit == commit) && (commit.None? ==> q.ms[k].commit == p.ms[k].commit)
       case BuildFailed =>
         && q.state == (if p.ms[k].retries + 1 >= cfg.retryLimit then Blocked else Replanning)
         && q.ms[k] == p.ms[k].(state := Failed, retries := p.ms[k].retries + 1)
       case BudgetExceeded => q.state.Building? && q.ms[k] == p.ms[k].(state := Pending)
       case _ => false
  }

  /** A build that comes back finds its row k and settles it, or raises because
      the row is gone; any other reply is the crew's crash. */
  ghost predicate BuildReplied(cfg: Config, p: Project, q: Project, r: Reply)
    requires p.flight.AwaitBuild?
  {
    if !(r.Built? || r.BuildFailed? || r.BudgetExceeded?) then q == p.(flight := Raised(CrewError))
    else if NoRow(p.ms, p.flight.mid) then q == p.(flight := Raised(NoSuchRow))
    else q == p.(state := q.state, ms := q.ms, flight := Landed) && exists k :: BuildEnds(cfg, p, q, r, k)
  }

  lemma BuildReply(cfg: Config, p: Project, r: Reply)
    requires Core(cfg, p) && p.flight.AwaitBuild?
    ensures BuildReplied(cfg, p, Step(cfg, p, TickReply(r)), r)
  {
    hide IdsBelow, RunInvariant.Planned, Start, OnResume, Apply;
    var q, k := Step(cfg, p, TickReply(r)), IndexOf(p.ms, p.flight.mid);
    if r.Built? || r.BuildFailed? || r.BudgetExceeded? {
      FinishBuildShape(cfg, p, r);
      hide Finish, UniqueIds, IdsBelow;
      if k < |p.ms| { assert BuildEnds(cfg, p, q, r, k); }
    }
  }

  /** A decision blocks the project exactly when it escalates, and raises exactly
      when it splits a row that exists nowhere; any other sends it on to build. */
  lemma DecisionReply(cfg: Config, p: Project, a: Action)
    requires Core(cfg, p) && p.flight.AwaitReplan?
    ensures var q := Step(cfg, p, TickReply(Decided(a)));
            && (q.state.Blocked? <==> a.Escalate?)
            && (a.Escalate? ==> q == p.(state := Blocked, flight := Landed))
            && (q.flight.Raised? <==> a.Split? && !a.elsewhere && NoRow(p.ms, a.id))
            && (q.flight.Raised? ==> q == p.(flight := Raised(NoSuchRow)))
            && (!a.Escalate? && !q.flight.Raised? ==>
                  q == p.(state := ProjectState.Building, flight := Landed, ms := q.ms, nextId := q.nextId))
            && (a.Noop? ==> q.ms == p.ms && q.nextId == p.nextId)
            && (a.Amend? ==> Amended(p.ms, q.ms, a.id, a.patch) && q.nextId == p.nextId)
            && (a.Split? && !q.flight.Raised? ==>
                  Divided(p.ms, q.ms, a.id, a.into, p.nextId) && q.nextId == p.nextId + |a.into|)
  {
    match a
    case Amend(id, patch) => UpdatingAmends(p.ms, id, patch);
    case Split(id, into, elsewhere) => ReplacingDivides(p.ms, id, into, p.nextId);
    case _ =>
    hide Divided, Amended, Graph.ReplaceWith, Graph.UpdateSpec, UniqueIds, IdsBelow, BuildFits;
  }

  /** The full CI alone decides between DONE and BLOCKED. */
  lemma CiReply(cfg: Config, p: Project, r: Reply)
    requires Core(cfg, p) && p.flight.AwaitCi?
    ensures Step(cfg, p, TickReply(r)) ==
              if r == CiVerdict(true) then p.(state := ProjectState.Done, flight := Landed)
              else if r == CiVerdict(false) then p.(state := Blocked, flight := Landed)
              else p.(flight := Raised(CrewError))
  {
  }

  lemma CrewCrash(cfg: Config, p: Project, r: Reply)
    requires (p.flight.AwaitPlan? && !r.Planned?) || (p.flight.AwaitReplan? && !r.Decided?)
    ensures Step(cfg, p, TickReply(r)) == p.(flight := Raised(CrewError))
  {
  }

  // --------------------------------------------------- anything in between

  /** Resuming lifts both flags and unblocks: to planning without milestones,
      else to building with no failed attempt left on an open row. */
  ghost predicate ResumedTo(cfg: Config, p: Project, q: Project) {
    && q == p.(state := q.state, ms := q.ms, paused := false, killed := false)
    && (!p.state.Blocked? ==> q.state == p.state && q.ms == p.ms)
    && (p.state.Blocked? && !cfg.wired ==> q.state.Building? && q.ms == p.ms)
    && (p.state.Blocked? && cfg.wired ==>
          q.state == (if p.ms == [] then Planning else ProjectState.Building) && Renewed(p.ms, q.ms))
  }

  lemma ResumeEffect(cfg: Config, p: Project)
    ensures ResumedTo(cfg, p, Step(cfg, p, Resume))
  {
  }

  lemma CommandEffect(cfg: Config, p: Project, e: Event)
    requires e.Approve? || e.Pause? || e.Abort? || e.KillLost?
    ensures var q := Step(cfg, p, e);
            && q == p.(state := q.state, paused := q.paused, killed := q.killed)
            && (q.state != p.state <==> e.Approve? && p.state.AwaitingApproval?)
            && (q.state != p.state ==> q.state.Building?)
            && (q.paused <==> p.paused || e.Pause?)
            && (q.killed <==> (p.killed && !e.KillLost?) || e.Abort?)
  {
  }

  /** A restart ends the tick in flight and frees its row. */
  lemma RestartEffect(cfg: Config, p: Project)
    ensures var q := Step(cfg, p, Restart);
            q == p.(ms := q.ms, flight := Landed) && Swept(p.ms, q.ms, |p.ms|)
  {
  }

  /** A crash that is not waited out blocks the project, whatever it was at. */
  lemma FalloutEffect(cfg: Config, p: Project, block: bool)
    requires Core(cfg, p) && p.flight.Raised?
    ensures Step(cfg, p, Fallout(block)) == p.(flight := Landed, state := if block then Blocked else p.state)
  {
  }

  /** Another project's replanner changes the rows it names and nothing else. */
  lemma ForeignEffect(cfg: Config, p: Project, e: Event)
    requires Core(cfg, p) && (e.ForeignSplit? || e.ForeignAmend?)
    ensures var q := Step(cfg, p, e);
            && q == p.(ms := q.ms, nextId := q.nextId)
            && (e.ForeignSplit? ==> Divided(p.ms, q.ms, e.id, e.into, p.nextId) && q.nextId == p.nextId + |e.into|)
            && (e.ForeignAmend? ==> Amended(p.ms, q.ms, e.target, e.patch) && q.nextId == p.nextId)
  {
    hide Divided, Amended;
    match e
    case ForeignSplit(id, into) => ReplacingDivides(p.ms, id, into, p.nextId);
    case ForeignAmend(target, patch) => UpdatingAmends(p.ms, target, patch);
  }
}
