/** A milestone id belongs to one project in every reachable state of the pool:
    what `Located` and `Abroad` look up is unambiguous. */
module RowOwners {
  import opened Lifecycle
  import opened Graph
  import Consolidation
  import AutoSplit
  import opened Machine
  import opened RunInvariant
  import opened Backoff
  import opened Pool
  import opened PoolRuns

  /** Ids in `b` are ids of `a`, or from the given range. */
  ghost predicate IdsFrom(a: seq<Milestone>, b: seq<Milestone>, lo: nat, hi: nat) {
    forall i | 0 <= i < |b| :: Has(a, b[i].id) || lo <= b[i].id < hi
  }

  ghost predicate Gains(a: seq<Milestone>, b: seq<Milestone>) {
    exists i :: 0 <= i < |b| && !Has(a, b[i].id)
  }

  // ------------------------------------------------- ids of one project

  lemma Found(ms: seq<Milestone>, k: nat)
    requires k < |ms|
    ensures Has(ms, ms[k].id)
  {
  }

  lemma SameIds(a: seq<Milestone>, b: seq<Milestone>, lo: nat, hi: nat)
    requires |a| == |b| && forall i | 0 <= i < |a| :: b[i].id == a[i].id
    ensures IdsFrom(a, b, lo, hi) && !Gains(a, b)
  {
    forall i | 0 <= i < |b| ensures Has(a, b[i].id) { Found(a, i); }
  }

  lemma SpliceIds(ms: seq<Milestone>, k: nat, specs: seq<Spec>, base: nat)
    requires k < |ms|
    ensures IdsFrom(ms, Splice(ms, k, Newborns(specs, base)), base, base + |specs|)
  {
    var b := Splice(ms, k, Newborns(specs, base));
    forall i | 0 <= i < |b| ensures Has(ms, b[i].id) || base <= b[i].id < base + |specs| {
      if i < k { Found(ms, i); } else if i >= k + |specs| { Found(ms, i - |specs| + 1); }
    }
  }

  lemma InsertIds(ms: seq<Milestone>, k: nat, spec: Spec, base: nat)
    requires k <= |ms|
    ensures IdsFrom(ms, InsertAt(ms, k, Newborn(base, spec)), base, base + 1)
  {
    var b := InsertAt(ms, k, Newborn(base, spec));
    forall i | 0 <= i < |b| ensures Has(ms, b[i].id) || base <= b[i].id < base + 1 {
      if i < k { Found(ms, i); } else if i > k { Found(ms, i - 1); }
    }
  }

  lemma IdsChain(a: seq<Milestone>, b: seq<Milestone>, c: seq<Milestone>, lo: nat, mid: nat, hi: nat)
    requires IdsFrom(a, b, lo, mid) && IdsFrom(b, c, mid, hi) && lo <= mid <= hi
    ensures IdsFrom(a, c, lo, hi)
  {
    forall i | 0 <= i < |c| ensures Has(a, c[i].id) || lo <= c[i].id < hi {
      if Has(b, c[i].id) {
        var k := IndexOf(b, c[i].id);
        assert b[k].id == c[i].id;
      }
    }
  }

  lemma ReplaceIds(ms: seq<Milestone>, id: Id, into: seq<Spec>, base: nat)
    ensures IdsFrom(ms, ReplaceWith(ms, id, into, base), base, base + |into|)
    ensures Gains(ms, ReplaceWith(ms, id, into, base)) ==> Has(ms, id)
  {
    if Has(ms, id) { SpliceIds(ms, IndexOf(ms, id), into, base); } else { SameIds(ms, ms, base, base + |into|); }
  }

  lemma StartBuildIds(cfg: Config, p: Project, o: Signals)
    requires Core(cfg, p) && p.state.Building? && p.flight.Landed?
    ensures var q := StartBuild(cfg, p, o); IdsFrom(p.ms, q.ms, p.nextId, q.nextId)
  {
    hide StartBuild, IdsFrom, UniqueIds;
    StartBuildShape(cfg, p, o);
    SameIds(p.ms, StartBuild(cfg, p, o).ms, p.nextId, StartBuild(cfg, p, o).nextId);
  }

  lemma ConsolidateIds(cfg: Config, p: Project)
    ensures var q := Consolidate(cfg, p); p.nextId <= q.nextId && IdsFrom(p.ms, q.ms, p.nextId, q.nextId)
  {
    hide IdsFrom, Consolidation.Due, InsertAt;
    InsertIds(p.ms, AfterLastDone(p.ms), Consolidation.ConsolidationSpec(), p.nextId);
    SameIds(p.ms, p.ms, p.nextId, p.nextId);
  }

  lemma StartReplanIds(cfg: Config, p: Project, o: Signals)
    requires Core(cfg, p) && p.state.Replanning? && p.flight.Landed?
    ensures var q := StartReplan(cfg, p, o); IdsFrom(p.ms, q.ms, p.nextId, q.nextId)
  {
    hide StartReplan, Consolidate, IdsFrom, UniqueIds, NoneBuilding, AutoSplit.Bisect, Splice;
    ConsolidateIds(cfg, p);
    StartReplanShape(cfg, p, o);
    var c, q := Consolidate(cfg, p), StartReplan(cfg, p, o);
    var k := NextPending(c.ms);
    if q.ms != c.ms {
      SpliceIds(c.ms, k, AutoSplit.Bisect(c.ms[k].spec), c.nextId);
      IdsChain(p.ms, c.ms, q.ms, p.nextId, c.nextId, q.nextId);
    }
  }

  lemma StartIds(cfg: Config, p: Project, o: Signals)
    requires Core(cfg, p) && p.flight.Landed?
    ensures var q := Start(cfg, p, o); IdsFrom(p.ms, q.ms, p.nextId, q.nextId)
  {
    hide StartBuild, StartReplan, IdsFrom, Core;
    if p.state.Building? { StartBuildIds(cfg, p, o); }
    if p.state.Replanning? { StartReplanIds(cfg, p, o); }
    SameIds(p.ms, p.ms, p.nextId, p.nextId);
  }

  lemma ApplyIds(p: Project, action: Action)
    ensures var q := Apply(p, action); IdsFrom(p.ms, q.ms, p.nextId, q.nextId)
    ensures Gains(p.ms, Apply(p, action).ms) ==> action.Split? && Has(p.ms, action.id)
  {
    hide IdsFrom, Gains, LegalProject, Has, ReplaceWith, Merge;
    match action
    case Split(id, into, _) =>
      ReplaceIds(p.ms, id, into, p.nextId);
      SameIds(p.ms, p.ms, p.nextId, p.nextId);
    case Amend(id, patch) => SameIds(p.ms, UpdateSpec(p.ms, id, patch), p.nextId, p.nextId);
    case _ => SameIds(p.ms, p.ms, p.nextId, p.nextId);
  }

  lemma FinishIds(cfg: Config, p: Project, r: Reply)
    requires Core(cfg, p) && Waiting(p.flight)
    ensures var q := Finish(cfg, p, r); IdsFrom(p.ms, q.ms, p.nextId, q.nextId)
  {
    if p.flight.AwaitReplan? && r.Decided? {
      ApplyIds(p, r.action);
    } else if p.flight.AwaitBuild? && (r.Built? || r.BuildFailed? || r.BudgetExceeded?) {
      FinishBuildShape(cfg, p, r);
      BuiltIds(cfg, p, r);
    } else {
      OtherFinishIds(cfg, p, r);
    }
    hide Finish, IdsFrom;
  }

  lemma BuiltIds(cfg: Config, p: Project, r: Reply)
    requires Core(cfg, p) && p.flight.AwaitBuild? && (r.Built? || r.BuildFailed? || r.BudgetExceeded?)
    ensures var q := Finish(cfg, p, r); IdsFrom(p.ms, q.ms, p.nextId, q.nextId)
  {
    hide Finish, IdsFrom, UniqueIds, IdsBelow;
    FinishBuildShape(cfg, p, r);
    SameIds(p.ms, Finish(cfg, p, r).ms, p.nextId, Finish(cfg, p, r).nextId);
  }

  lemma OtherFinishIds(cfg: Config, p: Project, r: Reply)
    requires Waiting(p.flight) && !(p.flight.AwaitReplan? && r.Decided?)
    requires !(p.flight.AwaitBuild? && (r.Built? || r.BuildFailed? || r.BudgetExceeded?))
    ensures var q := Finish(cfg, p, r); IdsFrom(p.ms, q.ms, p.nextId, q.nextId)
  {
    hide Apply, Attempt, SetState, RecordAttempt, LegalProject, Has;
    SameIds(p.ms, p.ms, p.nextId, p.nextId);
  }

  /** A step takes its new ids from the counter. */
  lemma StepIds(cfg: Config, p: Project, e: Event)
    requires Core(cfg, p)
    ensures var q := Step(cfg, p, e); IdsFrom(p.ms, q.ms, p.nextId, q.nextId)
  {
    hide Core, Start, Finish, IdsFrom, ReplaceWith, UpdateSpec, Reclaim, ResetRetries;
    SameIds(p.ms, p.ms, p.nextId, Step(cfg, p, e).nextId);
    match e
    case TickStart(o) => if p.flight.Landed? { StartIds(cfg, p, o); }
    case TickReply(r) => if Waiting(p.flight) { FinishIds(cfg, p, r); }
    case ForeignSplit(id, into) => ReplaceIds(p.ms, id, into, p.nextId);
    case ForeignAmend(id, patch) => AmendIds(p.ms, id, patch, p.nextId);
    case Restart => SameIds(p.ms, Reclaim(p.ms), p.nextId, p.nextId);
    case Resume => SameIds(p.ms, ResetRetries(p.ms), p.nextId, p.nextId);
    case _ =>
  }

  lemma AmendIds(ms: seq<Milestone>, id: Id, patch: Patch, base: nat)
    ensures IdsFrom(ms, UpdateSpec(ms, id, patch), base, base) && !Gains(ms, UpdateSpec(ms, id, patch))
  {
    SameIds(ms, UpdateSpec(ms, id, patch), base, base);
  }

  /** Only a tick, or a foreign Split of its own row, gives a project new rows. */
  lemma OnlyTheseGain(cfg: Config, p: Project, e: Event)
    requires Gains(p.ms, Step(cfg, p, e).ms)
    ensures e.TickStart? || e.TickReply? || (e.ForeignSplit? && Has(p.ms, e.id))
  {
    hide Start, Finish, ReplaceWith, UpdateSpec, Reclaim, ResetRetries, Has;
    match e
    case ForeignSplit(id, into) => ReplaceIds(p.ms, id, into, p.nextId);
    case ForeignAmend(id, patch) => AmendIds(p.ms, id, patch, p.nextId);
    case Restart => SameIds(p.ms, Reclaim(p.ms), p.nextId, p.nextId);
    case Resume =>
      SameIds(p.ms, ResetRetries(p.ms), p.nextId, p.nextId);
      SameIds(p.ms, p.ms, p.nextId, p.nextId);
    case _ => SameIds(p.ms, p.ms, p.nextId, p.nextId);
  }

  // -------------------------------------------------- ids across projects

  ghost predicate OneOwner(s: State) {
    forall p, q, id: Id | p in s.db && q in s.db && p != q && Has(s.db[p].ms, id) :: !Has(s.db[q].ms, id)
  }

  /** One step's events for a project, as far as its rows go. */
  lemma StepRows(cfg: Config, s: State, a: PoolStep, pid: Pid)
    requires Safe(s) && pid in s.db && Core(cfg, View(s, pid))
    ensures var t := Advance(cfg, s, a);
            && pid in t.db && IdsFrom(s.db[pid].ms, t.db[pid].ms, s.nextId, t.nextId)
            && (Gains(s.db[pid].ms, t.db[pid].ms) ==>
                  exists e :: Events(cfg, s, a, pid) == [e] && Gains(View(s, pid).ms, Step(cfg, View(s, pid), e).ms))
  {
    hide Safe, Advance, Events, Core, IdsFrom, Gains, Step, FlightOf;
    var t, p, es := Advance(cfg, s, a), View(s, pid), Events(cfg, s, a, pid);
    StepProjects(cfg, s, a, pid);
    AtMostOneEvent(cfg, s, a, pid);
    if es == [] {
      SameIds(p.ms, p.ms, s.nextId, t.nextId);
    } else {
      assert es == [es[0]];
      FromOne(cfg, p, es[0]);
      StepIds(cfg, p, es[0]);
    }
  }

  predicate SplitReturned(s: State, a: PoolStep) {
    && a.Return? && At(s, a.w) && s.workers[a.w].Holding? && s.workers[a.w].flight.AwaitReplan?
    && a.r.Decided? && a.r.action.Split?
  }

  /** Who gains rows in a step: the project whose tick it is, or the one whose row
      a Split names; when a Split returns, always the latter. */
  ghost predicate MayGain(s: State, a: PoolStep, pid: Pid)
    requires pid in s.db
  {
    && (SplitReturned(s, a) ==> Has(s.db[pid].ms, a.r.action.id))
    && (!SplitReturned(s, a) ==>
          (a.Begin? || a.Return?) && At(s, a.w) && s.workers[a.w].Holding? && s.workers[a.w].pid == pid)
  }

  lemma EventMayGain(cfg: Config, s: State, a: PoolStep, pid: Pid, e: Event)
    requires Safe(s) && pid in s.db && Events(cfg, s, a, pid) == [e]
    requires Gains(s.db[pid].ms, Step(cfg, View(s, pid), e).ms)
    ensures MayGain(s, a, pid)
  {
    OnlyTheseGain(cfg, View(s, pid), e);
    hide Advance, Gains, Step;
    if SplitReturned(s, a) && s.workers[a.w].pid == pid {
      assert Holds(s, a.w, pid);
      FlightIs(s, a.w, pid);
      OwnSplitGains(cfg, s, a, pid);
    }
  }

  lemma OwnSplitGains(cfg: Config, s: State, a: PoolStep, pid: Pid)
    requires pid in s.db && SplitReturned(s, a) && FlightOf(s, pid).AwaitReplan?
    requires Gains(s.db[pid].ms, Step(cfg, View(s, pid), TickReply(Located(s, pid, a.r))).ms)
    ensures Has(s.db[pid].ms, a.r.action.id)
  {
    hide Apply, Gains, Has, FlightOf;
    ApplyIds(View(s, pid), Located(s, pid, a.r).action);
  }

  lemma Gainer(cfg: Config, s: State, a: PoolStep, pid: Pid)
    requires Safe(s) && pid in s.db && Core(cfg, View(s, pid))
    ensures var t := Advance(cfg, s, a); pid in t.db && (Gains(s.db[pid].ms, t.db[pid].ms) ==> MayGain(s, a, pid))
  {
    hide Safe, Advance, Events, Core, Gains, Step, FlightOf, MayGain;
    StepRows(cfg, s, a, pid);
    if e :| Events(cfg, s, a, pid) == [e] && Gains(View(s, pid).ms, Step(cfg, View(s, pid), e).ms) {
      EventMayGain(cfg, s, a, pid, e);
    }
  }

  /** No id is in the lists of two projects after the step. */
  lemma StaysApart(cfg: Config, s: State, a: PoolStep, p: Pid, q: Pid, id: Id)
    requires Safe(s) && OneOwner(s) && p in s.db && q in s.db && p != q
    requires Core(cfg, View(s, p)) && Core(cfg, View(s, q))
    ensures var t := Advance(cfg, s, a); p in t.db && q in t.db && !(Has(t.db[p].ms, id) && Has(t.db[q].ms, id))
  {
    hide Safe, Advance, Core, Has, Gains, IdsFrom, FlightOf;
    var t := Advance(cfg, s, a);
    StepRows(cfg, s, a, p);
    StepRows(cfg, s, a, q);
    Gainer(cfg, s, a, p);
    Gainer(cfg, s, a, q);
    NewOrOld(cfg, s, t, p, id);
    NewOrOld(cfg, s, t, q, id);
    OldIsBelow(cfg, s, p, id);
    OldIsBelow(cfg, s, q, id);
  }

  lemma NewOrOld(cfg: Config, s: State, t: State, pid: Pid, id: Id)
    requires pid in s.db && pid in t.db && IdsFrom(s.db[pid].ms, t.db[pid].ms, s.nextId, t.nextId)
    ensures Has(t.db[pid].ms, id) ==>
              Has(s.db[pid].ms, id) || (id >= s.nextId && Gains(s.db[pid].ms, t.db[pid].ms))
  {
    if Has(t.db[pid].ms, id) {
      var k := IndexOf(t.db[pid].ms, id);
      assert t.db[pid].ms[k].id == id;
    }
  }

  lemma OldIsBelow(cfg: Config, s: State, pid: Pid, id: Id)
    requires pid in s.db && Core(cfg, View(s, pid))
    ensures Has(s.db[pid].ms, id) ==> id < s.nextId
  {
    if Has(s.db[pid].ms, id) { assert s.db[pid].ms[IndexOf(s.db[pid].ms, id)].id == id; }
  }

  /** In every reachable state of the pool an id has one owner at most. */
  lemma {:induction false} RowsHaveOneOwner(cfg: Config, workers: nat, steps: seq<PoolStep>)
    ensures OneOwner(Run(cfg, workers, steps))
  {
    if steps != [] {
      var init, a := steps[..|steps|-1], steps[|steps|-1];
      var s, t := Run(cfg, workers, init), Run(cfg, workers, steps);
      RunSafe(cfg, workers, init);
      RowsHaveOneOwner(cfg, workers, init);
      hide Safe, Advance, Core, Has, Run, OneOwner, View;
      forall p, q, id: Id | p in t.db && q in t.db && p != q && Has(t.db[p].ms, id) ensures !Has(t.db[q].ms, id) {
        Apart(cfg, workers, init, a, p, q, id);
      }
    }
  }

  lemma Apart(cfg: Config, workers: nat, init: seq<PoolStep>, a: PoolStep, p: Pid, q: Pid, id: Id)
    requires var s := Run(cfg, workers, init);
             OneOwner(s) && p in Advance(cfg, s, a).db && q in Advance(cfg, s, a).db && p != q
    ensures var t := Advance(cfg, Run(cfg, workers, init), a); !(Has(t.db[p].ms, id) && Has(t.db[q].ms, id))
  {
    hide Safe, Advance, Core, Has, Run, OneOwner, View;
    var s := Run(cfg, workers, init);
    RunSafe(cfg, workers, init);
    if p !in s.db {
      NewHasNone(cfg, s, a, p, id);
    } else if q !in s.db {
      NewHasNone(cfg, s, a, q, id);
    } else {
      ViewHasCore(cfg, workers, init, p);
      ViewHasCore(cfg, workers, init, q);
      StaysApart(cfg, s, a, p, q, id);
    }
  }

  lemma NewHasNone(cfg: Config, s: State, a: PoolStep, pid: Pid, id: Id)
    requires pid !in s.db && pid in Advance(cfg, s, a).db
    ensures !Has(Advance(cfg, s, a).db[pid].ms, id)
  {
    OnlyCreateAdds(cfg, s, a, pid);
  }

  lemma ViewHasCore(cfg: Config, workers: nat, steps: seq<PoolStep>, pid: Pid)
    requires pid in Run(cfg, workers, steps).db
    ensures Core(cfg, View(Run(cfg, workers, steps), pid))
  {
    hide Run, Core, View;
    EveryProjectLivesARun(cfg, workers, steps, pid);
    Reachable(cfg, History(cfg, workers, steps, pid));
  }
}
