/** The done milestones form a prefix that is never disturbed, as long as no
    Split names one of them. */
module DonePrefix {
  import opened Lifecycle
  import opened Graph
  import AutoSplit
  import opened Machine
  import opened RunInvariant
  import opened Samples

  predicate IsDoneRow(ms: seq<Milestone>, id: Id) {
    Has(ms, id) && ms[IndexOf(ms, id)].state.Done?
  }

  /** A Split, of this project's replanner or another's, naming a done row. */
  predicate SplitsDone(p: Project, e: Event) {
    match e
    case TickReply(Decided(Split(id, _, _))) => p.flight.AwaitReplan? && IsDoneRow(p.ms, id)
    case ForeignSplit(id, _) => IsDoneRow(p.ms, id)
    case _ => false
  }

  ghost predicate SparesDone(cfg: Config, p: Project, es: seq<Event>) {
    forall n | 0 <= n < |es| :: !SplitsDone(From(cfg, p, es[..n]), es[n])
  }

  ghost predicate Settled(ms: seq<Milestone>) {
    forall i, j | 0 <= i < j < |ms| :: ms[j].state.Done? ==> ms[i].state.Done?
  }

  ghost predicate BuildsAtFront(p: Project) {
    p.flight.AwaitBuild? ==>
      forall i, j | 0 <= i < j < |p.ms| :: p.ms[j].id == p.flight.mid ==> p.ms[i].state.Done?
  }

  ghost predicate Orderly(cfg: Config, p: Project) {
    Core(cfg, p) && Settled(p.ms) && BuildsAtFront(p)
  }

  /** Row i of `a`, if done, is still row i of `b`, done, with its commit. */
  ghost predicate Keeps(a: seq<Milestone>, b: seq<Milestone>) {
    forall i | 0 <= i < |a| && a[i].state.Done? ::
      i < |b| && b[i].id == a[i].id && b[i].state.Done? && b[i].commit == a[i].commit
  }

  /** The next row is the first one not done. */
  lemma FrontIsNext(ms: seq<Milestone>)
    requires NoneBuilding(ms)
    ensures forall i | 0 <= i < NextPending(ms) :: ms[i].state.Done?
  {
  }

  lemma StartBuildOrderly(cfg: Config, p: Project, o: Signals)
    requires Orderly(cfg, p) && p.state.Building? && p.flight.Landed?
    ensures Orderly(cfg, StartBuild(cfg, p, o)) && Keeps(p.ms, StartBuild(cfg, p, o).ms)
  {
    StartBuildKeeps(cfg, p, o);
    StartBuildShape(cfg, p, o);
    FrontIsNext(Reclaim(p.ms));
  }

  lemma ConsolidateOrderly(cfg: Config, p: Project)
    requires Orderly(cfg, p) && p.state.Replanning? && p.flight.Landed?
    ensures Settled(Consolidate(cfg, p).ms) && Keeps(p.ms, Consolidate(cfg, p).ms)
  {
  }

  lemma SpliceOrderly(ms: seq<Milestone>, k: nat, born: seq<Milestone>)
    requires Settled(ms) && k < |ms| && !ms[k].state.Done?
    requires forall i | 0 <= i < |born| :: !born[i].state.Done?
    ensures Settled(Splice(ms, k, born)) && Keeps(ms, Splice(ms, k, born))
  {
  }

  lemma StartReplanOrderly(cfg: Config, p: Project, o: Signals)
    requires Orderly(cfg, p) && p.state.Replanning? && p.flight.Landed?
    ensures Orderly(cfg, StartReplan(cfg, p, o)) && Keeps(p.ms, StartReplan(cfg, p, o).ms)
  {
    hide StartReplan, Consolidate, RunInvariant.Core, NextPending;
    StartReplanKeeps(cfg, p, o);
    StartReplanShape(cfg, p, o);
    ConsolidateOrderly(cfg, p);
    var c, q := Consolidate(cfg, p), StartReplan(cfg, p, o);
    if q.ms != c.ms {
      var k := NextPending(c.ms);
      SpliceOrderly(c.ms, k, Newborns(AutoSplit.Bisect(c.ms[k].spec), c.nextId));
    }
  }

  lemma ApplyOrderly(cfg: Config, p: Project, action: Action)
    requires Orderly(cfg, p) && p.flight.AwaitReplan?
    requires action.Split? ==> !IsDoneRow(p.ms, action.id)
    ensures Settled(Apply(p, action).ms) && Keeps(p.ms, Apply(p, action).ms) && !Apply(p, action).flight.AwaitBuild?
  {
    hide LegalProject, UniqueIds, FlightFits, RunInvariant.Planned, Merge, BuildsAtFront;
    hide Core, Splice;
    if action.Split? && Has(p.ms, action.id) {
      SpliceOrderly(p.ms, IndexOf(p.ms, action.id), Newborns(action.into, p.nextId));
    }
  }

  lemma FinishBuildOrderly(cfg: Config, p: Project, r: Reply)
    requires Orderly(cfg, p) && p.flight.AwaitBuild?
    ensures Settled(Finish(cfg, p, r).ms) && Keeps(p.ms, Finish(cfg, p, r).ms) && !Finish(cfg, p, r).flight.AwaitBuild?
  {
    if r.Built? || r.BuildFailed? || r.BudgetExceeded? {
      hide Finish, RunInvariant.Core;
      FinishBuildShape(cfg, p, r);
    }
  }

  lemma FinishOrderly(cfg: Config, p: Project, r: Reply)
    requires Orderly(cfg, p) && Waiting(p.flight) && !SplitsDone(p, TickReply(r))
    ensures Orderly(cfg, Finish(cfg, p, r)) && Keeps(p.ms, Finish(cfg, p, r).ms)
  {
    hide RunInvariant.Core, Settled, Keeps, Apply, Attempt, SetState, Graph.RecordAttempt, LegalProject;
    FinishKeeps(cfg, p, r);
    if p.flight.AwaitBuild? {
      FinishBuildOrderly(cfg, p, r);
    } else if p.flight.AwaitReplan? && r.Decided? {
      ApplyOrderly(cfg, p, r.action);
    } else {
      OtherFinishOrderly(cfg, p, r);
    }
  }

  lemma OtherFinishOrderly(cfg: Config, p: Project, r: Reply)
    requires Settled(p.ms) && BuildsAtFront(p) && Waiting(p.flight)
    requires !p.flight.AwaitBuild? && !(p.flight.AwaitReplan? && r.Decided?)
    ensures Settled(Finish(cfg, p, r).ms) && Keeps(p.ms, Finish(cfg, p, r).ms) && BuildsAtFront(Finish(cfg, p, r))
  {
    hide Apply, Attempt, SetState, Graph.RecordAttempt, LegalProject;
  }

  lemma ForeignSplitOrderly(cfg: Config, p: Project, id: Id, into: Children)
    requires Orderly(cfg, p) && !IsDoneRow(p.ms, id)
    ensures var q := Step(cfg, p, ForeignSplit(id, into));
            Settled(q.ms) && Keeps(p.ms, q.ms) && BuildsAtFront(q)
  {
    hide Start, Finish, OnResume;
    if Has(p.ms, id) {
      SpliceOrderly(p.ms, IndexOf(p.ms, id), Newborns(into, p.nextId));
    }
  }

  lemma StepOrderly(cfg: Config, p: Project, e: Event)
    requires Orderly(cfg, p) && !SplitsDone(p, e)
    ensures Orderly(cfg, Step(cfg, p, e)) && Keeps(p.ms, Step(cfg, p, e).ms)
  {
    hide StartBuild, StartReplan, Finish, RunInvariant.Core;
    StepKeeps(cfg, p, e);
    match e
    case TickStart(o) =>
      if p.flight.Landed? && Advanceable(p.state) {
        if p.state.Building? { StartBuildOrderly(cfg, p, o); }
        if p.state.Replanning? { StartReplanOrderly(cfg, p, o); }
      }
    case TickReply(r) => if Waiting(p.flight) { FinishOrderly(cfg, p, r); }
    case ForeignSplit(id, into) =>
      ForeignSplitOrderly(cfg, p, id, into);
    case _ =>
  }

  lemma {:induction false} DonePrefixAndPermanence(cfg: Config, p: Project, es: seq<Event>)
    requires Orderly(cfg, p) && SparesDone(cfg, p, es)
    ensures Orderly(cfg, From(cfg, p, es)) && Keeps(p.ms, From(cfg, p, es).ms)
  {
    if es != [] {
      var init := es[..|es|-1];
      forall n | 0 <= n < |init| ensures !SplitsDone(From(cfg, p, init[..n]), init[n]) {
        assert init[..n] == es[..n] && init[n] == es[n];
      }
      DonePrefixAndPermanence(cfg, p, init);
      StepOrderly(cfg, From(cfg, p, init), es[|es|-1]);
    }
  }

  lemma SparesPrefix(cfg: Config, p: Project, a: seq<Event>, b: seq<Event>)
    requires SparesDone(cfg, p, a + b)
    ensures SparesDone(cfg, p, a) && SparesDone(cfg, From(cfg, p, a), b)
  {
    forall n | 0 <= n < |a| ensures !SplitsDone(From(cfg, p, a[..n]), a[n]) {
      assert (a + b)[..n] == a[..n] && (a + b)[n] == a[n];
    }
    forall n | 0 <= n < |b| ensures !SplitsDone(From(cfg, From(cfg, p, a), b[..n]), b[n]) {
      assert (a + b)[..|a| + n] == a + b[..n] && (a + b)[|a| + n] == b[n];
      FromConcat(cfg, p, a, b[..n]);
    }
  }

  /** In every reachable state the done rows are a prefix, and each of them is
      still there, at its ordinal, in every later state. */
  lemma DoneForEver(cfg: Config, before: seq<Event>, after: seq<Event>)
    requires SparesDone(cfg, NEW_PROJECT, before + after)
    ensures Settled(Exec(cfg, before).ms)
    ensures Keeps(Exec(cfg, before).ms, Exec(cfg, before + after).ms)
  {
    SparesPrefix(cfg, NEW_PROJECT, before, after);
    DonePrefixAndPermanence(cfg, NEW_PROJECT, before);
    DonePrefixAndPermanence(cfg, Exec(cfg, before), after);
    FromConcat(cfg, NEW_PROJECT, before, after);
  }

  /** One step disturbs a done row exactly when it is such a Split: the row
      itself is deleted. */
  lemma KeepsIffSpared(cfg: Config, p: Project, e: Event)
    requires Orderly(cfg, p)
    ensures Keeps(p.ms, Step(cfg, p, e).ms) <==> !SplitsDone(p, e)
  {
    if !SplitsDone(p, e) {
      StepOrderly(cfg, p, e);
    } else {
      var id := if e.ForeignSplit? then e.id else e.r.action.id;
      var k := IndexOf(p.ms, id);
      assert Step(cfg, p, e).ms[k].state.Pending?;
    }
  }

  // ---------------------------------------------------- whole runs, exactly

  /** Whatever is done at some point of the run is still there at every later
      point. */
  ghost predicate DoneKept(cfg: Config, es: seq<Event>) {
    forall n, m | 0 <= n <= m <= |es| :: Keeps(Exec(cfg, es[..n]).ms, Exec(cfg, es[..m]).ms)
  }

  lemma KeptThroughout(cfg: Config, es: seq<Event>)
    requires SparesDone(cfg, NEW_PROJECT, es)
    ensures DoneKept(cfg, es)
  {
    hide Keeps, Settled;
    forall n, m | 0 <= n <= m <= |es| ensures Keeps(Exec(cfg, es[..n]).ms, Exec(cfg, es[..m]).ms) {
      assert es[..m] == es[..n] + es[n..m] && es == es[..m] + es[m..];
      SparesPrefix(cfg, NEW_PROJECT, es[..m], es[m..]);
      DoneForEver(cfg, es[..n], es[n..m]);
    }
  }

  lemma SparesSnoc(cfg: Config, es: seq<Event>, e: Event)
    requires SparesDone(cfg, NEW_PROJECT, es) && !SplitsDone(Exec(cfg, es), e)
    ensures SparesDone(cfg, NEW_PROJECT, es + [e])
  {
    hide SplitsDone, Step;
    var all := es + [e];
    forall k | 0 <= k < |all| ensures !SplitsDone(Exec(cfg, all[..k]), all[k]) {
      assert all[..k] == es[..k] && (k < |es| ==> all[k] == es[k]);
      assert es[..|es|] == es;
    }
  }

  /** The first n steps spare the done rows if they keep them. */
  lemma {:induction false} KeptIsSpared(cfg: Config, es: seq<Event>, n: nat)
    requires DoneKept(cfg, es) && n <= |es|
    ensures SparesDone(cfg, NEW_PROJECT, es[..n])
  {
    hide Keeps, SplitsDone, Step, Settled, Core, BuildsAtFront, SparesDone;
    if n > 0 {
      var init := es[..n-1];
      KeptIsSpared(cfg, es, n - 1);
      assert es[..n] == init + [es[n-1]];
      FromSnoc(cfg, NEW_PROJECT, init, es[n-1]);
      assert Keeps(Exec(cfg, es[..n-1]).ms, Exec(cfg, es[..n]).ms);
      NewIsOrderly(cfg);
      DonePrefixAndPermanence(cfg, NEW_PROJECT, init);
      KeepsIffSpared(cfg, Exec(cfg, init), es[n-1]);
      SparesSnoc(cfg, init, es[n-1]);
    } else {
      SparesNothing(cfg, es);
    }
  }

  lemma NewIsOrderly(cfg: Config)
    ensures Orderly(cfg, NEW_PROJECT)
  {
  }

  lemma SparesNothing(cfg: Config, es: seq<Event>)
    ensures SparesDone(cfg, NEW_PROJECT, es[..0])
  {
  }

  /** A run keeps everything that was ever done, at its ordinal and with its
      commit, exactly when no Split in it names a done row. */
  lemma DoneKeptIff(cfg: Config, es: seq<Event>)
    ensures DoneKept(cfg, es) <==> SparesDone(cfg, NEW_PROJECT, es)
  {
    if SparesDone(cfg, NEW_PROJECT, es) { KeptThroughout(cfg, es); }
    if DoneKept(cfg, es) {
      KeptIsSpared(cfg, es, |es|);
      assert es[..|es|] == es;
    }
  }

  // ------------------------------------------------- losing finished work

  const SPLIT_BUILT := FIRST_BUILT + [ForeignSplit(0, TWO_BLANKS)]

  /** Under any settings a finished milestone can be lost: built and done, then
      split by another project's replanner. */
  lemma DoneWorkIsLost(cfg: Config)
    ensures Exec(cfg, FIRST_BUILT).ms == [BUILT] && BUILT.state.Done?
    ensures !Has(Exec(cfg, SPLIT_BUILT).ms, BUILT.id) && forall m | m in Exec(cfg, SPLIT_BUILT).ms :: m.state.Pending?
    ensures !DoneKept(cfg, SPLIT_BUILT)
  {
    hide Step;
    FirstBuiltRuns(cfg);
    SplitBuilt(cfg, Exec(cfg, FIRST_BUILT));
    FromSnoc(cfg, NEW_PROJECT, FIRST_BUILT, ForeignSplit(0, TWO_BLANKS));
    var es, n := SPLIT_BUILT, |FIRST_BUILT|;
    assert es[..n] == FIRST_BUILT && es[..|es|] == es;
    assert Exec(cfg, es[..n]).ms[0].state.Done?;
    assert Exec(cfg, es[..|es|]).ms[0].id != BUILT.id;
    assert !Keeps(Exec(cfg, es[..n]).ms, Exec(cfg, es[..|es|]).ms);
  }
}
