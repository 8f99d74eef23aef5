/** What `retry_count` means over a whole run. */
module Retry {
  import opened Lifecycle
  import opened Graph
  import opened Consolidation
  import opened AutoSplit
  import opened Machine
  import opened RunInvariant
  import opened Samples

  /** The row on which this step records a failed attempt: a failed build, or
      the token circuit breaker before a build. */
  function FailedNow(cfg: Config, p: Project, e: Event): Option<Id> {
    match e
    case TickStart(o) =>
      var r := Reclaim(p.ms);
      var k := NextPending(r);
      if p.flight.Landed? && p.state.Building? && !o.globalKill && !p.killed && !p.paused
         && !OverCap(cfg, |r|) && !o.costOver && k < |r| && o.dailyOk && !o.milestoneOk
      then Some(r[k].id) else None
    case TickReply(BuildFailed) =>
      if p.flight.AwaitBuild? && Has(p.ms, p.flight.mid) then Some(p.flight.mid) else None
    case _ => None
  }

  /** An operator's resume of a blocked, planned project. */
  predicate Renews(cfg: Config, p: Project, e: Event) {
    e.Resume? && p.state.Blocked? && cfg.wired && p.ms != []
  }

  /** Failed attempts on `id` since it was created or last renewed. */
  ghost function Failures(cfg: Config, es: seq<Event>, id: Id): nat {
    if es == [] then 0
    else
      var p, e := Exec(cfg, es[..|es|-1]), es[|es|-1];
      Next(cfg, p, e, id, Failures(cfg, es[..|es|-1], id))
  }

  ghost function Next(cfg: Config, p: Project, e: Event, id: Id, before: nat): nat {
    if Renews(cfg, p, e) then 0
    else if FailedNow(cfg, p, e) == Some(id) then before + 1 else before
  }

  /** A row not done is newborn, or an old row whose count moved as `Next`. */
  ghost predicate RowCounted(cfg: Config, p: Project, e: Event, m: Milestone) {
    || m.state.Done?
    || (m.id >= p.nextId && m.retries == 0)
    || exists i :: 0 <= i < |p.ms| && p.ms[i].id == m.id && !p.ms[i].state.Done?
                   && m.retries == Next(cfg, p, e, m.id, p.ms[i].retries)
  }

  ghost predicate Counted(cfg: Config, p: Project, e: Event) {
    forall j | 0 <= j < |Step(cfg, p, e).ms| :: RowCounted(cfg, p, e, Step(cfg, p, e).ms[j])
  }

  lemma OldRow(cfg: Config, p: Project, e: Event, i: nat, m: Milestone)
    requires i < |p.ms| && p.ms[i].id == m.id && !p.ms[i].state.Done?
    requires m.retries == Next(cfg, p, e, m.id, p.ms[i].retries)
    ensures RowCounted(cfg, p, e, m)
  {
  }

  lemma NewRow(cfg: Config, p: Project, e: Event, m: Milestone)
    requires m.state.Done? || (m.id >= p.nextId && m.retries == 0)
    ensures RowCounted(cfg, p, e, m)
  {
  }

  predicate Uneventful(cfg: Config, p: Project, e: Event) {
    !Renews(cfg, p, e) && FailedNow(cfg, p, e).None?
  }

  ghost predicate Alike(a: Milestone, b: Milestone) {
    b.id == a.id && b.retries == a.retries && (a.state.Done? ==> b.state.Done?)
  }

  /** Rows rewritten in place, counts untouched. */
  lemma RowsKept(cfg: Config, p: Project, e: Event)
    requires Uneventful(cfg, p, e) && |Step(cfg, p, e).ms| == |p.ms|
    requires forall i | 0 <= i < |p.ms| :: Alike(p.ms[i], Step(cfg, p, e).ms[i])
    ensures Counted(cfg, p, e)
  {
    hide Step, RowCounted, FailedNow, Renews;
    var q := Step(cfg, p, e);
    forall j | 0 <= j < |q.ms| ensures RowCounted(cfg, p, e, q.ms[j]) {
      assert Alike(p.ms[j], q.ms[j]);
      if q.ms[j].state.Done? { NewRow(cfg, p, e, q.ms[j]); } else { OldRow(cfg, p, e, j, q.ms[j]); }
    }
  }

  /** Rows moved, dropped or newborn. */
  lemma RowsMoved(cfg: Config, p: Project, e: Event)
    requires Uneventful(cfg, p, e)
    requires forall m | m in Step(cfg, p, e).ms :: m in p.ms || (m.id >= p.nextId && m.retries == 0)
    ensures Counted(cfg, p, e)
  {
    hide Step, RowCounted, FailedNow, Renews;
    var q := Step(cfg, p, e);
    forall j | 0 <= j < |q.ms| ensures RowCounted(cfg, p, e, q.ms[j]) {
      assert q.ms[j] in q.ms;
      if q.ms[j] in p.ms && !q.ms[j].state.Done? {
        var i :| 0 <= i < |p.ms| && p.ms[i] == q.ms[j];
        OldRow(cfg, p, e, i, q.ms[j]);
      } else {
        NewRow(cfg, p, e, q.ms[j]);
      }
    }
  }

  /** One row k records a failure, no other does. */
  lemma RowFailed(cfg: Config, p: Project, e: Event, k: nat)
    requires UniqueIds(p.ms) && k < |p.ms| && |Step(cfg, p, e).ms| == |p.ms|
    requires !Renews(cfg, p, e) && FailedNow(cfg, p, e) == Some(p.ms[k].id) && !p.ms[k].state.Done?
    requires forall i | 0 <= i < |p.ms| && i != k :: Alike(p.ms[i], Step(cfg, p, e).ms[i])
    requires Step(cfg, p, e).ms[k].id == p.ms[k].id && Step(cfg, p, e).ms[k].retries == p.ms[k].retries + 1
    ensures Counted(cfg, p, e)
  {
    hide Step, RowCounted, FailedNow, Renews;
    var q := Step(cfg, p, e);
    forall j | 0 <= j < |q.ms| ensures RowCounted(cfg, p, e, q.ms[j]) {
      assert j != k ==> p.ms[j].id != p.ms[k].id && Alike(p.ms[j], q.ms[j]);
      if q.ms[j].state.Done? { NewRow(cfg, p, e, q.ms[j]); } else { OldRow(cfg, p, e, j, q.ms[j]); }
    }
  }

  lemma CoreIds(cfg: Config, p: Project)
    requires Core(cfg, p)
    ensures UniqueIds(p.ms) && NextPending(Reclaim(p.ms)) <= |p.ms|
  {
  }

  /** A build tick records a failure exactly when it changes a row otherwise than
      by starting it. */
  lemma BuildStartFails(cfg: Config, p: Project, o: Signals)
    requires Core(cfg, p) && p.state.Building? && p.flight.Landed? && !o.globalKill && !p.killed && !p.paused
    ensures var q, r := StartBuild(cfg, p, o), Reclaim(p.ms);
            var k := NextPending(r);
            && FailedNow(cfg, p, TickStart(o)) ==
               (if q.ms != r && !q.flight.AwaitBuild? && k < |r| then Some(r[k].id) else None)
            && Step(cfg, p, TickStart(o)) == q
  {
    var r := Reclaim(p.ms);
    if NextPending(r) < |r| { IndexOfAt(r, NextPending(r)); }
    hide RunInvariant.Core, LegalProject;
  }

  lemma BuildStartCounted(cfg: Config, p: Project, o: Signals)
    requires Core(cfg, p) && p.state.Building? && p.flight.Landed? && !o.globalKill && !p.killed && !p.paused
    ensures Counted(cfg, p, TickStart(o))
  {
    hide StartBuild, RunInvariant.Core, Step, FailedNow, Counted, UniqueIds;
    var q, r, e := StartBuild(cfg, p, o), Reclaim(p.ms), TickStart(o);
    var k := NextPending(r);
    StartBuildShape(cfg, p, o);
    BuildStartFails(cfg, p, o);
    CoreIds(cfg, p);
    if q.ms != r && !q.flight.AwaitBuild? {
      RowFailed(cfg, p, e, k);
    } else {
      RowsKept(cfg, p, e);
    }
  }

  ghost predicate Fresh(p: Project, m: Milestone) {
    m.id >= p.nextId && m.retries == 0
  }

  lemma ConsolidateRows(cfg: Config, p: Project)
    ensures forall m | m in Consolidate(cfg, p).ms :: m in p.ms || Fresh(p, m)
    ensures Consolidate(cfg, p).nextId >= p.nextId
  {
    hide Due, ConsolidationSpec;
  }

  lemma SpliceRows(ms: seq<Milestone>, k: nat, specs: seq<Spec>, base: nat)
    requires k < |ms|
    ensures forall m | m in Splice(ms, k, Newborns(specs, base)) :: m in ms || (m.id >= base && m.retries == 0)
  {
  }

  lemma ReplanRows(cfg: Config, p: Project, o: Signals)
    requires Core(cfg, p) && p.state.Replanning? && p.flight.Landed?
    ensures forall m | m in StartReplan(cfg, p, o).ms :: m in p.ms || Fresh(p, m)
  {
    StartReplanShape(cfg, p, o);
    ConsolidateRows(cfg, p);
    hide StartReplan, RunInvariant.Core, Consolidate, Bisect, Splice, Newborns, Splittable;
    var q, c := StartReplan(cfg, p, o), Consolidate(cfg, p);
    if q.ms != c.ms {
      var k := NextPending(c.ms);
      SpliceRows(c.ms, k, Bisect(c.ms[k].spec), c.nextId);
    }
  }

  lemma ReplanStartCounted(cfg: Config, p: Project, o: Signals)
    requires Core(cfg, p) && p.state.Replanning? && p.flight.Landed? && !o.globalKill && !p.killed && !p.paused
    ensures Counted(cfg, p, TickStart(o))
  {
    ReplanRows(cfg, p, o);
    assert Step(cfg, p, TickStart(o)) == StartReplan(cfg, p, o);
    hide StartReplan, RunInvariant.Core, Step;
    RowsMoved(cfg, p, TickStart(o));
  }

  lemma BuildReplyCounted(cfg: Config, p: Project, r: Reply)
    requires Core(cfg, p) && p.flight.AwaitBuild?
    ensures Counted(cfg, p, TickReply(r))
  {
    hide Finish, Counted, RunInvariant.Core;
    var k, e := IndexOf(p.ms, p.flight.mid), TickReply(r);
    CoreIds(cfg, p);
    if r.Built? || r.BuildFailed? || r.BudgetExceeded? {
      FinishBuildShape(cfg, p, r);
      assert Step(cfg, p, e) == Finish(cfg, p, r);
      if r.BuildFailed? && k < |p.ms| {
        RowFailed(cfg, p, e, k);
      } else {
        RowsKept(cfg, p, e);
      }
    } else {
      LostBuild(cfg, p, r);
      RowsKept(cfg, p, e);
    }
  }

  lemma LostBuild(cfg: Config, p: Project, r: Reply)
    requires p.flight.AwaitBuild? && !(r.Built? || r.BuildFailed? || r.BudgetExceeded?)
    ensures Step(cfg, p, TickReply(r)).ms == p.ms
  {
  }

  lemma ReplacedRows(ms: seq<Milestone>, id: Id, into: Children, base: nat)
    ensures forall m | m in ReplaceWith(ms, id, into, base) :: m in ms || (m.id >= base && m.retries == 0)
  {
    if Has(ms, id) { SpliceRows(ms, IndexOf(ms, id), into, base); }
    hide Splice, Newborns;
  }

  lemma AppliedRows(p: Project, action: Action)
    ensures var ms := Apply(p, action).ms;
            if action.Amend? then |ms| == |p.ms| && forall i | 0 <= i < |p.ms| :: Alike(p.ms[i], ms[i])
            else forall m | m in ms :: m in p.ms || Fresh(p, m)
  {
    if action.Split? { ReplacedRows(p.ms, action.id, action.into, p.nextId); }
    hide Graph.ReplaceWith, Merge, LegalProject;
  }

  lemma DecisionCounted(cfg: Config, p: Project, action: Action)
    requires p.flight.AwaitReplan?
    ensures Counted(cfg, p, TickReply(Decided(action)))
  {
    hide Counted, Apply, LegalProject, Attempt, SetState, Graph.RecordAttempt, Start, OnResume, Reclaim;
    AppliedRows(p, action);
    if action.Amend? {
      RowsKept(cfg, p, TickReply(Decided(action)));
    } else {
      RowsMoved(cfg, p, TickReply(Decided(action)));
    }
  }

  lemma OtherReplyCounted(cfg: Config, p: Project, r: Reply)
    requires Waiting(p.flight) && !p.flight.AwaitBuild?
    ensures Counted(cfg, p, TickReply(r))
  {
    hide Counted, Apply, LegalProject, Attempt, SetState, Graph.RecordAttempt, Start, OnResume, Reclaim;
    if p.flight.AwaitReplan? && r.Decided? {
      DecisionCounted(cfg, p, r.action);
    } else {
      RowsMoved(cfg, p, TickReply(r));
    }
  }

  lemma ResumeCounted(cfg: Config, p: Project)
    ensures Counted(cfg, p, Resume)
  {
    if Renews(cfg, p, Resume) {
      forall j | 0 <= j < |p.ms| ensures RowCounted(cfg, p, Resume, Step(cfg, p, Resume).ms[j]) {
        var m := Step(cfg, p, Resume).ms[j];
        if m.state.Done? { NewRow(cfg, p, Resume, m); } else { OldRow(cfg, p, Resume, j, m); }
      }
    } else {
      RowsKept(cfg, p, Resume);
    }
  }

  /** A tick that neither builds nor replans. */
  lemma QuietStartCounted(cfg: Config, p: Project, o: Signals)
    requires p.flight.Landed? && !o.globalKill && !p.killed && !p.paused ==> !p.state.Building? && !p.state.Replanning?
    ensures Counted(cfg, p, TickStart(o))
  {
    hide StartBuild, StartReplan, Counted, Reclaim, NextPending, OverCap;
    RowsKept(cfg, p, TickStart(o));
  }

  lemma OutsideCounted(cfg: Config, p: Project, e: Event)
    requires !e.TickStart? && (e.TickReply? ==> !Waiting(p.flight))
    ensures Counted(cfg, p, e)
  {
    hide Start, Finish, Counted;
    match e
    case Resume => ResumeCounted(cfg, p);
    case ForeignSplit(_, _) => RowsMoved(cfg, p, e);
    case _ => RowsKept(cfg, p, e);
  }

  lemma StepCounted(cfg: Config, p: Project, e: Event)
    requires Core(cfg, p)
    ensures Counted(cfg, p, e)
  {
    hide Counted, RunInvariant.Core;
    match e
    case TickStart(o) =>
      if p.flight.Landed? && !o.globalKill && !p.killed && !p.paused && p.state.Building? {
        BuildStartCounted(cfg, p, o);
      } else if p.flight.Landed? && !o.globalKill && !p.killed && !p.paused && p.state.Replanning? {
        ReplanStartCounted(cfg, p, o);
      } else {
        QuietStartCounted(cfg, p, o);
      }
    case TickReply(r) =>
      if !Waiting(p.flight) { OutsideCounted(cfg, p, e); }
      else if p.flight.AwaitBuild? { BuildReplyCounted(cfg, p, r); }
      else { OtherReplyCounted(cfg, p, r); }
    case _ => OutsideCounted(cfg, p, e);
  }

  lemma FailedNowKnown(cfg: Config, p: Project, e: Event)
    requires Core(cfg, p) && FailedNow(cfg, p, e).Some?
    ensures FailedNow(cfg, p, e).value < p.nextId
    ensures p.nextId <= Step(cfg, p, e).nextId
  {
    hide LegalProject, SetState, RecordAttempt, Reclaim, NextPending, Due, Bisect, Graph.ReplaceWith, Splittable,
      AfterLastDone, InsertAt, OverCap, Graph.UpdateSpec, Newborns, Has, ResetRetries;
  }

  // ------------------------------------------------------------ every run

  ghost predicate Ledger(cfg: Config, es: seq<Event>) {
    var p := Exec(cfg, es);
    && (forall i | 0 <= i < |p.ms| && !p.ms[i].state.Done? :: p.ms[i].retries == Failures(cfg, es, p.ms[i].id))
    && (forall id: Id | id >= p.nextId :: Failures(cfg, es, id) == 0)
  }

  lemma IdsOf(cfg: Config, p: Project)
    requires Core(cfg, p)
    ensures IdsBelow(p.ms, p.nextId)
  {
  }

  lemma NextIdGrows(cfg: Config, p: Project, e: Event)
    ensures p.nextId <= Step(cfg, p, e).nextId
  {
    hide Start, Finish;
    if e.TickStart? { StartIdGrows(cfg, p, e.o); }
    if e.TickReply? { FinishIdGrows(cfg, p, e.r); }
  }

  lemma FinishIdGrows(cfg: Config, p: Project, r: Reply)
    ensures p.nextId <= Finish(cfg, p, r).nextId
  {
    hide LegalProject, SetState, RecordAttempt, Graph.ReplaceWith, Graph.UpdateSpec, Newborns, Has;
  }

  lemma StartIdGrows(cfg: Config, p: Project, o: Signals)
    ensures p.nextId <= Start(cfg, p, o).nextId
  {
    hide LegalProject, SetState, RecordAttempt, Reclaim, NextPending, Due, Bisect, Graph.ReplaceWith, Splittable,
      AfterLastDone, InsertAt, OverCap, Graph.UpdateSpec, Newborns, Has, ResetRetries;
  }

  lemma FailuresStep(cfg: Config, es: seq<Event>, id: Id)
    requires es != []
    ensures Failures(cfg, es, id) == Next(cfg, Exec(cfg, es[..|es|-1]), es[|es|-1], id, Failures(cfg, es[..|es|-1], id))
  {
  }

  /** An id nobody has yet has no failures, before and after the step. */
  lemma UnusedId(cfg: Config, es: seq<Event>, id: Id)
    requires es != [] && Ledger(cfg, es[..|es|-1]) && Core(cfg, Exec(cfg, es[..|es|-1]))
    requires id >= Exec(cfg, es[..|es|-1]).nextId
    ensures Failures(cfg, es, id) == 0
  {
    var p, e := Exec(cfg, es[..|es|-1]), es[|es|-1];
    hide FailedNow, Renews, RunInvariant.Core, Exec, Step;
    if FailedNow(cfg, p, e).Some? { FailedNowKnown(cfg, p, e); }
    FailuresStep(cfg, es, id);
  }

  lemma LedgerStep(cfg: Config, es: seq<Event>)
    requires es != [] && Ledger(cfg, es[..|es|-1]) && Core(cfg, Exec(cfg, es[..|es|-1]))
    ensures Ledger(cfg, es)
  {
    var p, e, q := Exec(cfg, es[..|es|-1]), es[|es|-1], Exec(cfg, es);
    assert q == Step(cfg, p, e);
    StepCounted(cfg, p, e);
    NextIdGrows(cfg, p, e);
    hide Failures, Next, RunInvariant.Core, Exec, Step;
    forall j | 0 <= j < |q.ms| && !q.ms[j].state.Done? ensures q.ms[j].retries == Failures(cfg, es, q.ms[j].id) {
      assert RowCounted(cfg, p, e, q.ms[j]);
      FailuresStep(cfg, es, q.ms[j].id);
      if q.ms[j].id >= p.nextId {
        UnusedId(cfg, es, q.ms[j].id);
        IdsOf(cfg, p);
      }
    }
    forall id: Id | id >= q.nextId ensures Failures(cfg, es, id) == 0 {
      UnusedId(cfg, es, id);
    }
  }

  /** `retry_count` of a row not done is the number of its failed attempts: no
      pause, reclaim, crash or restart is ever charged to it. */
  lemma {:induction false} RetryAccounting(cfg: Config, es: seq<Event>)
    ensures Ledger(cfg, es)
  {
    if es != [] {
      RetryAccounting(cfg, es[..|es|-1]);
      Reachable(cfg, es[..|es|-1]);
      hide *;
      LedgerStep(cfg, es);
    }
  }

  // ------------------------------------------------------ below the limit

  predicate Counting(s: ProjectState) {
    s.AwaitingApproval? || s.Building? || s.Replanning?
  }

  /** A project that may build has attempts left on every open row. */
  ghost predicate UnderLimit(cfg: Config, p: Project) {
    Counting(p.state) ==> AllBelow(p.ms, cfg.retryLimit)
  }

  lemma BuildLimit(cfg: Config, p: Project, o: Signals)
    requires Core(cfg, p) && p.state.Building? && p.flight.Landed?
    ensures var q, r := StartBuild(cfg, p, o), Reclaim(p.ms);
            var k := NextPending(r);
            q.state.Replanning? ==> k < |r| && r[k].retries + 1 < cfg.retryLimit
  {
    var r := Reclaim(p.ms);
    var k := NextPending(r);
    if k < |r| { IndexOfAt(r, k); }
  }

  ghost predicate AllBelow(ms: seq<Milestone>, limit: int) {
    forall i | 0 <= i < |ms| && !ms[i].state.Done? :: ms[i].retries < limit
  }

  lemma BuildStartLimit(cfg: Config, p: Project, o: Signals)
    requires Core(cfg, p) && p.state.Building? && p.flight.Landed? && AllBelow(p.ms, cfg.retryLimit)
    ensures var q := StartBuild(cfg, p, o); Counting(q.state) ==> AllBelow(q.ms, cfg.retryLimit)
  {
    StartBuildShape(cfg, p, o);
    BuildLimit(cfg, p, o);
    hide StartBuild, RunInvariant.Core;
  }

  lemma ReplanStartLimit(cfg: Config, p: Project, o: Signals)
    requires Core(cfg, p) && p.state.Replanning? && p.flight.Landed? && AllBelow(p.ms, cfg.retryLimit)
    requires cfg.retryLimit >= 1
    ensures AllBelow(StartReplan(cfg, p, o).ms, cfg.retryLimit)
  {
    hide StartReplan, RunInvariant.Core;
    ReplanRows(cfg, p, o);
    var q := StartReplan(cfg, p, o);
    forall j | 0 <= j < |q.ms| && !q.ms[j].state.Done? ensures q.ms[j].retries < cfg.retryLimit {
      assert q.ms[j] in q.ms;
    }
  }

  lemma StartUnderLimit(cfg: Config, p: Project, o: Signals)
    requires Core(cfg, p) && UnderLimit(cfg, p) && cfg.retryLimit >= 1 && p.flight.Landed?
    ensures UnderLimit(cfg, Step(cfg, p, TickStart(o)))
  {
    hide StartBuild, StartReplan, RunInvariant.Core;
    if p.state.Building? {
      BuildStartLimit(cfg, p, o);
    } else if p.state.Replanning? {
      ReplanStartLimit(cfg, p, o);
    }
  }

  lemma BuildReplyLimit(cfg: Config, p: Project, r: Reply)
    requires Core(cfg, p) && p.flight.AwaitBuild? && AllBelow(p.ms, cfg.retryLimit)
    ensures var q := Finish(cfg, p, r); Counting(q.state) ==> AllBelow(q.ms, cfg.retryLimit)
  {
    if r.Built? || r.BuildFailed? || r.BudgetExceeded? {
      hide Finish;
      FinishBuildShape(cfg, p, r);
      hide RunInvariant.Core;
    }
  }

  lemma ApplyLimit(p: Project, action: Action, limit: int)
    requires AllBelow(p.ms, limit) && limit >= 1
    ensures AllBelow(Apply(p, action).ms, limit)
  {
    AppliedRows(p, action);
    hide Apply;
    var ms := Apply(p, action).ms;
    if action.Amend? {
      assert forall i | 0 <= i < |ms| :: Alike(p.ms[i], ms[i]);
    } else {
      assert forall i | 0 <= i < |ms| :: ms[i] in ms;
    }
  }

  lemma PlanLimit(specs: seq<Spec>, base: nat, limit: int)
    requires limit >= 1
    ensures AllBelow(Newborns(specs, base), limit)
  {
  }

  lemma ReplyUnderLimit(cfg: Config, p: Project, r: Reply)
    requires Core(cfg, p) && UnderLimit(cfg, p) && cfg.retryLimit >= 1 && Waiting(p.flight)
    ensures UnderLimit(cfg, Finish(cfg, p, r))
  {
    assert FlightFits(p);
    if p.flight.AwaitBuild? {
      hide *;
      ReplyParts(cfg, p, r);
    } else {
      hide RunInvariant.Core, AllBelow, Apply, Newborns;
      if p.flight.AwaitReplan? && r.Decided? { ApplyLimit(p, r.action, cfg.retryLimit); }
      if p.flight.AwaitPlan? && r.Planned? { PlanLimit(r.specs, p.nextId, cfg.retryLimit); }
    }
  }

  lemma ReplyParts(cfg: Config, p: Project, r: Reply)
    requires Core(cfg, p) && UnderLimit(cfg, p) && p.flight.AwaitBuild?
    ensures UnderLimit(cfg, Finish(cfg, p, r))
  {
    hide Finish;
    BuildReplyLimit(cfg, p, r);
  }

  lemma StepUnderLimit(cfg: Config, p: Project, e: Event)
    requires Core(cfg, p) && UnderLimit(cfg, p) && cfg.retryLimit >= 1 && cfg.wired
    ensures UnderLimit(cfg, Step(cfg, p, e))
  {
    hide Start, Finish;
    if e.TickStart? {
      if p.flight.Landed? { StartUnderLimit(cfg, p, e.o); }
    } else if e.TickReply? {
      if Waiting(p.flight) { ReplyUnderLimit(cfg, p, e.r); }
    }
  }

  lemma {:induction false} RunsUnderLimit(cfg: Config, es: seq<Event>)
    requires cfg.retryLimit >= 1 && cfg.wired
    ensures UnderLimit(cfg, Exec(cfg, es))
  {
    if es != [] {
      RunsUnderLimit(cfg, es[..|es|-1]);
      Reachable(cfg, es[..|es|-1]);
      hide Step, UnderLimit, RunInvariant.Core;
      StepUnderLimit(cfg, Exec(cfg, es[..|es|-1]), es[|es|-1]);
    }
  }

  // ------------------------------------------------- exactly when it holds

  lemma BlankTripped(cfg: Config, r: nat)
    ensures var m, q := FailedOnce(Tried(r).ms[0]), Step(cfg, Tried(r), TickStart(TRIPPED));
            q == Tried(r).(ms := [m], state := if r + 1 >= cfg.retryLimit then Blocked else Replanning)
  {
    var p := Tried(r);
    assert Reclaim(p.ms) == p.ms;
    assert NextPending(p.ms) == 0 && IndexOf(p.ms, 0) == 0;
    assert p.ms[0 := FailedOnce(p.ms[0])] == [FailedOnce(p.ms[0])];
  }

  function FailedOnce(m: Milestone): Milestone {
    Attempted(m, false, None)
  }

  lemma BlankReplanned(cfg: Config, r: nat)
    ensures Step(cfg, Tried(r + 1).(state := Replanning), TickStart(TRIPPED)) == Tried(r + 1)
  {
    var p := Tried(r + 1).(state := Replanning);
    assert AfterLastDone(p.ms) == 0;
    assert NextPending(p.ms) == 0;
  }

  /** A run that fails the only milestone r times without blocking. */
  lemma {:induction false} FailTimes(cfg: Config, r: nat) returns (es: seq<Event>)
    requires r < cfg.retryLimit
    ensures Exec(cfg, es) == Tried(r)
  {
    if r == 0 {
      FirstPlanRuns(cfg);
      es := FIRST_PLAN;
    } else {
      var init := FailTimes(cfg, r - 1);
      BlankTripped(cfg, r - 1);
      BlankReplanned(cfg, r - 1);
      FromSnoc(cfg, NEW_PROJECT, init, TickStart(TRIPPED));
      FromSnoc(cfg, NEW_PROJECT, init + [TickStart(TRIPPED)], TickStart(TRIPPED));
      es := init + [TickStart(TRIPPED)] + [TickStart(TRIPPED)];
    }
  }

  ghost predicate RunUnderLimit(cfg: Config, es: seq<Event>) {
    UnderLimit(cfg, Exec(cfg, es))
  }

  /** Every run keeps open rows below the limit exactly when the limit is at
      least one and a resume can reset the counts. */
  lemma UnderLimitIff(cfg: Config)
    ensures (forall es :: RunUnderLimit(cfg, es)) <==> cfg.retryLimit >= 1 && cfg.wired
  {
    if cfg.retryLimit < 1 {
      FirstPlanRuns(cfg);
      assert Exec(cfg, FIRST_PLAN).ms[0].retries >= cfg.retryLimit;
      assert !RunUnderLimit(cfg, FIRST_PLAN);
    } else if !cfg.wired {
      var r := cfg.retryLimit - 1;
      var init := FailTimes(cfg, r);
      BlankTripped(cfg, r);
      FromSnoc(cfg, NEW_PROJECT, init, TickStart(TRIPPED));
      FromSnoc(cfg, NEW_PROJECT, init + [TickStart(TRIPPED)], Resume);
      var p := Exec(cfg, init + [TickStart(TRIPPED)] + [Resume]);
      assert p.state.Building? && p.ms[0].retries >= cfg.retryLimit;
      assert !RunUnderLimit(cfg, init + [TickStart(TRIPPED)] + [Resume]);
    } else {
      forall es ensures RunUnderLimit(cfg, es) { RunsUnderLimit(cfg, es); }
    }
  }
}
