/** Bisection and consolidation never change what the regular milestones must
    satisfy, read in ordinal order. */
module Scope {
  import opened Lifecycle
  import opened Graph
  import opened Markers
  import opened Consolidation
  import opened AutoSplit
  import opened Machine
  import opened RunInvariant
  import opened CadenceRuns

  function Demands(m: Milestone): seq<Criterion> {
    if IsConsolidation(m) then [] else m.spec.criteria
  }

  /** The acceptance criteria of the regular milestones, concatenated. */
  function Scope(ms: seq<Milestone>): seq<Criterion> {
    if ms == [] then [] else Demands(ms[0]) + Scope(ms[1..])
  }

  lemma {:induction false} ScopeConcat(a: seq<Milestone>, b: seq<Milestone>)
    ensures Scope(a + b) == Scope(a) + Scope(b)
  {
    if a == [] {
      assert a + b == b;
    } else {
      assert (a + b)[1..] == a[1..] + b;
      ScopeConcat(a[1..], b);
    }
  }

  lemma {:induction false} SameDemands(a: seq<Milestone>, b: seq<Milestone>)
    requires |a| == |b| && forall i | 0 <= i < |a| :: Demands(a[i]) == Demands(b[i])
    ensures Scope(a) == Scope(b)
  {
    if a != [] {
      assert Demands(a[0]) == Demands(b[0]);
      assert forall i | 0 <= i < |a| - 1 :: a[1..][i] == a[i+1] && b[1..][i] == b[i+1];
      SameDemands(a[1..], b[1..]);
    }
  }

  lemma SpliceScope(ms: seq<Milestone>, k: nat, born: seq<Milestone>)
    requires k < |ms| && Scope(born) == Demands(ms[k])
    ensures Scope(Splice(ms, k, born)) == Scope(ms)
  {
    var rest := ms[k+1..];
    assert ms == ms[..k] + ([ms[k]] + rest);
    assert Splice(ms, k, born) == ms[..k] + (born + rest);
    ScopeConcat(ms[..k], [ms[k]] + rest);
    ScopeConcat(ms[..k], born + rest);
    ScopeConcat(born, rest);
    assert ([ms[k]] + rest)[1..] == rest;
  }

  lemma InsertScope(ms: seq<Milestone>, k: nat, m: Milestone)
    requires k <= |ms| && IsConsolidation(m)
    ensures Scope(InsertAt(ms, k, m)) == Scope(ms)
  {
    hide IsConsolidation;
    assert Scope([m]) == [];
    hide *;
    InsertParts(ms, k, m);
    ScopeConcat(ms[..k], ms[k..]);
    ScopeConcat(ms[..k] + [m], ms[k..]);
    ScopeConcat(ms[..k], [m]);
    assert Scope(ms[..k]) + [] == Scope(ms[..k]);
  }

  lemma InsertParts(ms: seq<Milestone>, k: nat, m: Milestone)
    requires k <= |ms|
    ensures InsertAt(ms, k, m) == ms[..k] + [m] + ms[k..] && ms == ms[..k] + ms[k..]
  {
  }

  /** The halves of a bisected row rejoin to the parent's list, and a
      consolidation's halves are still consolidations. */
  lemma HalvesScope(m: Milestone, base: nat)
    ensures Scope(Newborns(Bisect(m.spec), base)) == Demands(m)
  {
    HalvesKeepMarker(m, base);
    var halves, born := Bisect(m.spec), Newborns(Bisect(m.spec), base);
    assert halves[0].criteria + halves[1].criteria == m.spec.criteria;
    hide Bisect, Contains;
    assert born == [born[0], born[1]];
    calc {
      Scope(born);
      Demands(born[0]) + Scope(born[1..]);
      { assert born[1..] == [born[1]]; }
      Demands(born[0]) + (Demands(born[1]) + Scope([born[1]][1..]));
      Demands(born[0]) + Demands(born[1]);
    }
  }

  /** No Split from a replanner, and amendments leave criteria and note alone. */
  ghost predicate Mechanical(e: Event) {
    match e
    case TickReply(Decided(Split(_, _, _))) => false
    case TickReply(Decided(Amend(_, patch))) => LeavesDemands(patch)
    case ForeignSplit(_, _) => false
    case ForeignAmend(_, patch) => LeavesDemands(patch)
    case _ => true
  }

  predicate LeavesDemands(patch: Patch) {
    patch.Rejected? || (patch.note.None? && patch.criteria.None?)
  }

  ghost predicate SpecsKept(a: seq<Milestone>, b: seq<Milestone>) {
    |a| == |b| && forall i | 0 <= i < |a| :: Demands(a[i]) == Demands(b[i])
  }

  lemma StartReplanScope(cfg: Config, p: Project, o: Signals)
    requires Core(cfg, p) && p.state.Replanning? && p.flight.Landed?
    ensures Scope(StartReplan(cfg, p, o).ms) == Scope(p.ms)
  {
    hide StartReplan, RunInvariant.Core, Due, Contains, AutoSplit.Bisect, ConsolidationSpec, Scope;
    StartReplanShape(cfg, p, o);
    var c, q := Consolidate(cfg, p), StartReplan(cfg, p, o);
    ConsolidationSpecMarks();
    InsertScope(p.ms, AfterLastDone(p.ms), Newborn(p.nextId, ConsolidationSpec()));
    if q.ms != c.ms {
      var k := NextPending(c.ms);
      HalvesScope(c.ms[k], c.nextId);
      SpliceScope(c.ms, k, Newborns(Bisect(c.ms[k].spec), c.nextId));
    }
  }

  lemma BuildStartDemands(cfg: Config, p: Project, o: Signals)
    requires Core(cfg, p) && p.state.Building? && p.flight.Landed?
    ensures SpecsKept(p.ms, StartBuild(cfg, p, o).ms)
  {
    hide StartBuild, Demands;
    StartBuildShape(cfg, p, o);
    SpecsDecide(p.ms, StartBuild(cfg, p, o).ms);
  }

  lemma BuildReplyDemands(cfg: Config, p: Project, r: Reply)
    requires Core(cfg, p) && p.flight.AwaitBuild?
    ensures SpecsKept(p.ms, Finish(cfg, p, r).ms)
  {
    if r.Built? || r.BuildFailed? || r.BudgetExceeded? {
      hide Finish, Demands;
      FinishBuildShape(cfg, p, r);
      SpecsDecide(p.ms, Finish(cfg, p, r).ms);
    }
  }

  lemma BuildDemands(cfg: Config, p: Project, e: Event)
    requires Core(cfg, p) && p.state.Building? && (e.TickStart? || e.TickReply?)
    ensures SpecsKept(p.ms, Step(cfg, p, e).ms)
  {
    hide StartBuild, Finish;
    if e.TickStart? && p.flight.Landed? { BuildStartDemands(cfg, p, e.o); }
    if e.TickReply? && p.flight.AwaitBuild? { BuildReplyDemands(cfg, p, e.r); }
  }

  lemma SpecsDecide(a: seq<Milestone>, b: seq<Milestone>)
    requires |a| == |b| && forall i | 0 <= i < |a| :: b[i].spec == a[i].spec
    ensures SpecsKept(a, b)
  {
  }

  lemma SameSpecs(ms: seq<Milestone>)
    ensures SpecsKept(ms, ms)
  {
  }

  lemma ApplyDemands(p: Project, action: Action)
    requires Mechanical(TickReply(Decided(action)))
    ensures SpecsKept(p.ms, Apply(p, action).ms)
  {
    hide Contains, LegalProject;
  }

  lemma ReplyDemands(cfg: Config, p: Project, r: Reply)
    requires FlightFits(p) && !p.state.Building? && Mechanical(TickReply(r)) && p.ms != []
    ensures SpecsKept(p.ms, Step(cfg, p, TickReply(r)).ms)
  {
    hide Contains, Attempt, SetState, RecordAttempt, Newborns, LegalProject, Apply, SpecsKept;
    SameSpecs(p.ms);
    if p.flight.AwaitReplan? && r.Decided? { ApplyDemands(p, r.action); }
  }

  lemma OutsideDemands(cfg: Config, p: Project, e: Event)
    requires Mechanical(e) && !e.TickStart? && !e.TickReply?
    ensures SpecsKept(p.ms, Step(cfg, p, e).ms)
  {
    hide Contains, ReplaceWith, Start, Finish;
  }

  lemma StartDemands(cfg: Config, p: Project, o: Signals)
    requires p.flight.Landed? ==> !p.state.Building? && !p.state.Replanning?
    ensures SpecsKept(p.ms, Step(cfg, p, TickStart(o)).ms)
  {
    hide StartBuild, StartReplan, Contains;
  }

  lemma ReplanStepScope(cfg: Config, p: Project, o: Signals)
    requires Core(cfg, p) && p.state.Replanning? && p.flight.Landed?
    ensures Scope(Step(cfg, p, TickStart(o)).ms) == Scope(p.ms) && |p.ms| <= |Step(cfg, p, TickStart(o)).ms|
  {
    hide StartReplan, Scope, RunInvariant.Core, NextPending, Bisect, Due, Splittable, UniqueIds, NoneBuilding;
    StartReplanScope(cfg, p, o);
    StartReplanShape(cfg, p, o);
  }

  lemma StepScope(cfg: Config, p: Project, e: Event)
    requires Core(cfg, p) && p.ms != [] && Mechanical(e)
    ensures Step(cfg, p, e).ms != [] && Scope(Step(cfg, p, e).ms) == Scope(p.ms)
  {
    hide *;
    if e.TickStart? && p.flight.Landed? && p.state.Replanning? {
      ReplanStepScope(cfg, p, e.o);
    } else {
      if p.state.Building? && (e.TickStart? || e.TickReply?) {
        BuildDemands(cfg, p, e);
      } else if e.TickReply? {
        FlightFitsIn(cfg, p);
        ReplyDemands(cfg, p, e.r);
      } else if e.TickStart? {
        StartDemands(cfg, p, e.o);
      } else {
        OutsideDemands(cfg, p, e);
      }
      KeptScope(p.ms, Step(cfg, p, e).ms);
    }
  }

  lemma FlightFitsIn(cfg: Config, p: Project)
    requires Core(cfg, p)
    ensures FlightFits(p)
  {
  }

  lemma KeptScope(a: seq<Milestone>, b: seq<Milestone>)
    requires SpecsKept(a, b)
    ensures |a| == |b| && Scope(a) == Scope(b)
  {
    SameDemands(a, b);
  }

  /** Once planned, a project's scope is the same after any such run. */
  lemma {:induction false} ScopeConserved(cfg: Config, before: seq<Event>, after: seq<Event>)
    requires Exec(cfg, before).ms != []
    requires forall n | 0 <= n < |after| :: Mechanical(after[n])
    ensures Exec(cfg, before + after).ms != []
    ensures Scope(Exec(cfg, before + after).ms) == Scope(Exec(cfg, before).ms)
  {
    hide Step, Mechanical, Scope, RunInvariant.Core;
    if after == [] {
      assert before + after == before;
    } else {
      var init, all := after[..|after|-1], before + after;
      assert all[..|all|-1] == before + init && all[|all|-1] == after[|after|-1];
      ScopeConserved(cfg, before, init);
      Reachable(cfg, before + init);
      StepScope(cfg, Exec(cfg, before + init), after[|after|-1]);
    }
  }
}
