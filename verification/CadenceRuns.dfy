/** The consolidation cadence over whole runs. */
module CadenceRuns {
  import opened Lifecycle
  import opened Graph
  import Markers
  import opened Consolidation
  import opened AutoSplit
  import opened Machine
  import opened RunInvariant
  import opened DonePrefix

  function RegularDone(m: Milestone): nat {
    if !IsConsolidation(m) && m.state.Done? then 1 else 0
  }

  // -------------------------------------------------- facts about the tally

  ghost predicate Quiet(ms: seq<Milestone>) {
    forall i | 0 <= i < |ms| :: !ms[i].state.Done?
  }

  ghost predicate AnyConsolidation(ms: seq<Milestone>) {
    exists i | 0 <= i < |ms| :: IsConsolidation(ms[i])
  }

  /** Rows not done add nothing to the count; a consolidation among them
      clears it. */
  lemma {:induction false} TallyQuiet(ms: seq<Milestone>, acc: nat)
    requires Quiet(ms)
    ensures Tally(ms, acc) == if AnyConsolidation(ms) then 0 else acc
    ensures Total(ms, RegularDone) == 0
  {
    if ms != [] {
      TallyQuiet(ms[1..], Count(ms[0], acc));
      assert forall i | 0 <= i < |ms[1..]| :: ms[1..][i] == ms[i+1];
      if AnyConsolidation(ms) && !IsConsolidation(ms[0]) {
        var i :| 0 <= i < |ms| && IsConsolidation(ms[i]);
        assert IsConsolidation(ms[1..][i-1]);
      }
    }
  }

  ghost predicate SameProfile(a: seq<Milestone>, b: seq<Milestone>) {
    && |a| == |b|
    && forall i | 0 <= i < |a| ::
         && (IsConsolidation(a[i]) <==> IsConsolidation(b[i]))
         && (IsConsolidation(a[i]) || (a[i].state.Done? <==> b[i].state.Done?))
  }

  lemma {:induction false} ProfileDecides(a: seq<Milestone>, b: seq<Milestone>, acc: nat)
    requires SameProfile(a, b)
    ensures Tally(a, acc) == Tally(b, acc)
    ensures Total(a, RegularDone) == Total(b, RegularDone)
  {
    if a != [] {
      assert IsConsolidation(a[0]) <==> IsConsolidation(b[0]);
      assert forall i | 0 <= i < |a| - 1 :: a[1..][i] == a[i+1] && b[1..][i] == b[i+1];
      ProfileDecides(a[1..], b[1..], Count(a[0], acc));
    }
  }

  /** Exchanging the rows from k on for others, all not done. */
  lemma TallyTail(ms: seq<Milestone>, k: nat, tail: seq<Milestone>)
    requires k <= |ms| && Quiet(ms[k..]) && Quiet(tail)
    ensures Total(ms[..k] + tail, RegularDone) == Total(ms, RegularDone)
    ensures Tally(ms[..k] + tail, 0) == if AnyConsolidation(tail) then 0 else Tally(ms[..k], 0)
    ensures Tally(ms, 0) == if AnyConsolidation(ms[k..]) then 0 else Tally(ms[..k], 0)
  {
    assert ms == ms[..k] + ms[k..];
    TallyConcat(ms[..k], tail, 0);
    TallyConcat(ms[..k], ms[k..], 0);
    TotalConcat(ms[..k], tail, RegularDone);
    TotalConcat(ms[..k], ms[k..], RegularDone);
    TallyQuiet(tail, Tally(ms[..k], 0));
    TallyQuiet(ms[k..], Tally(ms[..k], 0));
  }

  // ------------------------------------------------------- the invariant

  /** Among rows not done, consolidations come first. */
  ghost predicate Front(ms: seq<Milestone>) {
    forall i, j | 0 <= i < j < |ms| ::
      !ms[i].state.Done? && IsConsolidation(ms[j]) ==> IsConsolidation(ms[i])
  }

  /** `inserted` consolidations account for all but the last Tally regular
      done rows, E at a time. */
  ghost predicate Balanced(cfg: Config, ms: seq<Milestone>, inserted: nat) {
    && Settled(ms) && Front(ms)
    && Total(ms, RegularDone) == cfg.every * inserted + Tally(ms, 0)
    && Tally(ms, 0) <= cfg.every
  }

  /** Only a project about to replan, or killed there, may owe one. */
  ghost predicate OnCadence(cfg: Config, p: Project, inserted: nat) {
    && Orderly(cfg, p) && Balanced(cfg, p.ms, inserted)
    && (Tally(p.ms, 0) == cfg.every ==> p.state.Killed? || (p.state.Replanning? && p.flight.Landed?))
  }

  lemma Unchanged(cfg: Config, a: seq<Milestone>, b: seq<Milestone>, inserted: nat)
    requires Balanced(cfg, a, inserted) && SameProfile(a, b)
    requires forall i | 0 <= i < |a| :: a[i].state.Done? <==> b[i].state.Done?
    ensures Balanced(cfg, b, inserted) && Tally(b, 0) == Tally(a, 0)
  {
    ProfileDecides(a, b, 0);
  }

  /** The first row not done becomes done. */
  lemma OneMoreDone(cfg: Config, ms: seq<Milestone>, k: nat, m: Milestone, inserted: nat)
    requires Balanced(cfg, ms, inserted) && Tally(ms, 0) < cfg.every
    requires k < |ms| && !ms[k].state.Done? && m.state.Done? && m.spec == ms[k].spec
    requires forall i | 0 <= i < k :: ms[i].state.Done?
    ensures Balanced(cfg, ms[k := m], inserted)
  {
    var after := ms[k := m];
    if IsConsolidation(ms[k]) {
      ProfileDecides(ms, after, 0);
    } else {
      TotalUpdate(ms, k, m, RegularDone);
      TallyTail(ms, k, ms[k..]);
      assert !AnyConsolidation(ms[k..]);
      assert after == (ms[..k] + [m]) + ms[k+1..];
      assert after[..k+1] == ms[..k] + [m];
      TallyTail(after, k+1, ms[k+1..]);
      assert after[k+1..] == ms[k+1..];
      TallyConcat(ms[..k], [m], 0);
      assert Tally([m], Tally(ms[..k], 0)) == Tally(ms[..k], 0) + 1;
    }
  }

  lemma AnyAfterSplice(row: Milestone, rest: seq<Milestone>, born: seq<Milestone>)
    requires born != [] && forall i | 0 <= i < |born| :: IsConsolidation(born[i]) <==> IsConsolidation(row)
    ensures AnyConsolidation(born + rest) <==> AnyConsolidation([row] + rest)
  {
    var was, now := [row] + rest, born + rest;
    if IsConsolidation(row) {
      assert IsConsolidation(now[0]) && IsConsolidation(was[0]);
    } else {
      if i :| 0 <= i < |now| && IsConsolidation(now[i]) {
        assert IsConsolidation(was[i - |born| + 1]);
      }
      if i :| 0 <= i < |was| && IsConsolidation(was[i]) {
        assert IsConsolidation(now[i - 1 + |born|]);
      }
    }
  }

  lemma SpliceParts(ms: seq<Milestone>, k: nat, born: seq<Milestone>)
    requires k < |ms|
    ensures Splice(ms, k, born) == ms[..k] + (born + ms[k+1..])
  {
  }

  lemma SpliceSettled(ms: seq<Milestone>, k: nat, born: seq<Milestone>)
    requires Settled(ms) && k < |ms| && !ms[k].state.Done? && Quiet(born)
    ensures Settled(Splice(ms, k, born))
  {
    SpliceOrderly(ms, k, born);
  }

  lemma QuietFrom(ms: seq<Milestone>, k: nat)
    requires Settled(ms) && k < |ms| && !ms[k].state.Done?
    ensures Quiet(ms[k..]) && Quiet(ms[k+1..])
  {
  }

  lemma QuietConcat(a: seq<Milestone>, b: seq<Milestone>)
    requires Quiet(a) && Quiet(b)
    ensures Quiet(a + b)
  {
  }

  lemma BalancedParts(cfg: Config, ms: seq<Milestone>, inserted: nat)
    ensures Balanced(cfg, ms, inserted) <==>
      && Settled(ms) && Front(ms)
      && Total(ms, RegularDone) == cfg.every * inserted + Tally(ms, 0)
      && Tally(ms, 0) <= cfg.every
  {
  }

  lemma SpliceFront(ms: seq<Milestone>, k: nat, born: seq<Milestone>)
    requires Front(ms) && k < |ms| && !ms[k].state.Done?
    requires forall i | 0 <= i < |born| :: IsConsolidation(born[i]) <==> IsConsolidation(ms[k])
    ensures Front(Splice(ms, k, born))
  {
    hide IsConsolidation;
    var s := Splice(ms, k, born);
    forall i, j | 0 <= i < j < |s| && !s[i].state.Done? && IsConsolidation(s[j]) ensures IsConsolidation(s[i]) {
      var i0 := if i < k then i else if i < k + |born| then k else i - |born| + 1;
      var j0 := if j < k then j else if j < k + |born| then k else j - |born| + 1;
      assert IsConsolidation(ms[j0]) && (i0 == k || ms[i0] == s[i]) && (i0 <= j0);
      assert i0 < j0 ==> IsConsolidation(ms[i0]);
    }
  }

  lemma SpliceBalanced(cfg: Config, ms: seq<Milestone>, k: nat, born: seq<Milestone>, inserted: nat)
    requires Balanced(cfg, ms, inserted) && k < |ms| && !ms[k].state.Done?
    requires born != [] && Quiet(born)
    requires forall i | 0 <= i < |born| :: IsConsolidation(born[i]) <==> IsConsolidation(ms[k])
    ensures Balanced(cfg, Splice(ms, k, born), inserted)
    ensures Tally(Splice(ms, k, born), 0) == Tally(ms, 0)
  {
    hide *;
    BalancedParts(cfg, ms, inserted);
    var tail := born + ms[k+1..];
    assert ms[k..] == [ms[k]] + ms[k+1..];
    SpliceParts(ms, k, born);
    QuietFrom(ms, k);
    QuietConcat(born, ms[k+1..]);
    SpliceSettled(ms, k, born);
    SpliceFront(ms, k, born);
    AnyAfterSplice(ms[k], ms[k+1..], born);
    TallyTail(ms, k, tail);
    BalancedParts(cfg, Splice(ms, k, born), inserted);
  }

  lemma MultipleUpTo(n: nat, e: nat)
    requires 0 < n <= e && n % e == 0
    ensures n == e
  {
  }

  lemma InsertBalanced(cfg: Config, ms: seq<Milestone>, m: Milestone, inserted: nat)
    requires cfg.every >= 1 && Balanced(cfg, ms, inserted) && Due(ms, cfg.every)
    requires IsConsolidation(m) && !m.state.Done?
    ensures Tally(ms, 0) == cfg.every
    ensures Balanced(cfg, InsertAt(ms, AfterLastDone(ms), m), inserted + 1)
    ensures Tally(InsertAt(ms, AfterLastDone(ms), m), 0) == 0
  {
    var k := AfterLastDone(ms);
    var tail := [m] + ms[k..];
    MultipleUpTo(Tally(ms, 0), cfg.every);
    TallyTail(ms, k, tail);
    assert InsertAt(ms, k, m) == ms[..k] + tail;
    assert IsConsolidation(tail[0]);
    assert cfg.every * (inserted + 1) == cfg.every * inserted + cfg.every;
  }

  // ------------------------------------------------------------- one step

  /** What the replanners must leave alone: a Split's children and an amended
      row are consolidations exactly when the row was; a plan has none. */
  ghost predicate KeepsMarkers(p: Project, e: Event) {
    match e
    case TickReply(Planned(specs)) => forall i | 0 <= i < |specs| :: !MarkedSpec(specs[i])
    case TickReply(Decided(Split(id, into, _))) => SplitKeeps(p.ms, id, into)
    case TickReply(Decided(Amend(id, patch))) => AmendKeeps(p.ms, id, patch)
    case ForeignSplit(id, into) => SplitKeeps(p.ms, id, into)
    case ForeignAmend(id, patch) => AmendKeeps(p.ms, id, patch)
    case _ => true
  }

  predicate MarkedSpec(spec: Spec) {
    Markers.Contains(spec.note, Markers.CONSOLIDATION)
  }

  ghost predicate SplitKeeps(ms: seq<Milestone>, id: Id, into: seq<Spec>) {
    Has(ms, id) ==> forall i | 0 <= i < |into| :: MarkedSpec(into[i]) <==> IsConsolidation(ms[IndexOf(ms, id)])
  }

  ghost predicate AmendKeeps(ms: seq<Milestone>, id: Id, patch: Patch) {
    Has(ms, id) ==> var m := ms[IndexOf(ms, id)]; MarkedSpec(Merge(m.spec, patch)) <==> IsConsolidation(m)
  }

  /** The step inserts a consolidation. */
  ghost predicate Inserts(cfg: Config, p: Project, e: Event) {
    && e.TickStart? && p.flight.Landed? && p.state.Replanning?
    && !e.o.globalKill && !p.killed && !p.paused
    && Due(p.ms, cfg.every) && AfterLastDone(p.ms) > 0
  }

  ghost function Bump(cfg: Config, p: Project, e: Event): nat {
    if Inserts(cfg, p, e) then 1 else 0
  }

  lemma ReplaceWithBalanced(cfg: Config, ms: seq<Milestone>, id: Id, into: Children, base: nat, inserted: nat)
    requires Balanced(cfg, ms, inserted) && SplitKeeps(ms, id, into) && !IsDoneRow(ms, id)
    ensures Balanced(cfg, ReplaceWith(ms, id, into, base), inserted)
    ensures Tally(ReplaceWith(ms, id, into, base), 0) == Tally(ms, 0)
  {
    if Has(ms, id) {
      SpliceBalanced(cfg, ms, IndexOf(ms, id), Newborns(into, base), inserted);
    }
  }

  lemma UpdateSpecBalanced(cfg: Config, ms: seq<Milestone>, id: Id, patch: Patch, inserted: nat)
    requires Balanced(cfg, ms, inserted) && AmendKeeps(ms, id, patch)
    ensures Balanced(cfg, UpdateSpec(ms, id, patch), inserted)
    ensures Tally(UpdateSpec(ms, id, patch), 0) == Tally(ms, 0)
  {
    Unchanged(cfg, ms, UpdateSpec(ms, id, patch), inserted);
  }

  lemma ConsolidateBalanced(cfg: Config, p: Project, inserted: nat)
    requires cfg.every >= 1 && OnCadence(cfg, p, inserted) && p.state.Replanning? && p.flight.Landed?
    ensures var c := Consolidate(cfg, p);
            var due := Due(p.ms, cfg.every) && AfterLastDone(p.ms) > 0;
            Balanced(cfg, c.ms, inserted + if due then 1 else 0) && Tally(c.ms, 0) < cfg.every
  {
    if Due(p.ms, cfg.every) {
      ConsolidationSpecMarks();
      InsertBalanced(cfg, p.ms, Newborn(p.nextId, ConsolidationSpec()), inserted);
      PositiveTallyHasDone(p.ms);
    } else if Tally(p.ms, 0) == cfg.every {
      InFlightClears(p.ms);
    }
  }

  lemma PositiveTallyHasDone(ms: seq<Milestone>)
    requires Tally(ms, 0) > 0
    ensures AfterLastDone(ms) > 0
  {
    if AfterLastDone(ms) == 0 { TallyQuiet(ms, 0); }
  }

  /** A consolidation not done yet, in front of the rows not done, keeps the
      tally at zero. */
  lemma InFlightClears(ms: seq<Milestone>)
    requires Settled(ms) && InFlight(ms)
    ensures Tally(ms, 0) == 0
  {
    var k := AfterLastDone(ms);
    var i :| 0 <= i < |ms| && IsConsolidation(ms[i]) && !ms[i].state.Done?;
    assert i >= k && ms[k..][i-k] == ms[i];
    TallyTail(ms, k, ms[k..]);
  }

  lemma StartBuildOnCadence(cfg: Config, p: Project, o: Signals, inserted: nat)
    requires OnCadence(cfg, p, inserted) && p.state.Building? && p.flight.Landed?
    ensures OnCadence(cfg, StartBuild(cfg, p, o), inserted)
  {
    hide StartBuild, RunInvariant.Core, Balanced;
    StartBuildOrderly(cfg, p, o);
    StartBuildShape(cfg, p, o);
    Unchanged(cfg, p.ms, StartBuild(cfg, p, o).ms, inserted);
  }

  lemma StartReplanOnCadence(cfg: Config, p: Project, o: Signals, inserted: nat)
    requires cfg.every >= 1 && OnCadence(cfg, p, inserted) && p.state.Replanning? && p.flight.Landed?
    ensures var due := Due(p.ms, cfg.every) && AfterLastDone(p.ms) > 0;
            OnCadence(cfg, StartReplan(cfg, p, o), inserted + if due then 1 else 0)
  {
    hide StartReplan, Consolidate, RunInvariant.Core, Balanced, Due, IsConsolidation, AutoSplit.Bisect;
    StartReplanOrderly(cfg, p, o);
    StartReplanShape(cfg, p, o);
    ConsolidateBalanced(cfg, p, inserted);
    var c, q := Consolidate(cfg, p), StartReplan(cfg, p, o);
    var now := inserted + if Due(p.ms, cfg.every) && AfterLastDone(p.ms) > 0 then 1 else 0;
    var k := NextPending(c.ms);
    if q.ms != c.ms {
      BisectMarks(c.ms[k].spec);
      HalvesKeepMarker(c.ms[k], c.nextId);
      SpliceBalanced(cfg, c.ms, k, Newborns(Bisect(c.ms[k].spec), c.nextId), now);
    }
  }

  lemma HalvesKeepMarker(m: Milestone, base: nat)
    ensures var born := Newborns(Bisect(m.spec), base);
            forall i | 0 <= i < |born| :: IsConsolidation(born[i]) <==> IsConsolidation(m)
  {
    BisectMarks(m.spec);
    var halves := Bisect(m.spec);
    assert halves[0] in halves && halves[1] in halves;
  }

  lemma PlanBalanced(cfg: Config, specs: PlanSpecs, base: nat, inserted: nat)
    requires Balanced(cfg, [], inserted) && forall i | 0 <= i < |specs| :: !MarkedSpec(specs[i])
    ensures Balanced(cfg, Newborns(specs, base), inserted) && Tally(Newborns(specs, base), 0) == 0
  {
    TallyQuiet(Newborns(specs, base), 0);
  }

  lemma FinishBuildOnCadence(cfg: Config, p: Project, r: Reply, inserted: nat)
    requires OnCadence(cfg, p, inserted) && p.flight.AwaitBuild?
    ensures var q := Finish(cfg, p, r);
            && Balanced(cfg, q.ms, inserted)
            && (Tally(q.ms, 0) == cfg.every ==> q.state.Replanning? && q.flight.Landed?)
  {
    if r.Built? || r.BuildFailed? || r.BudgetExceeded? {
      hide Finish, Balanced;
      FinishBuildShape(cfg, p, r);
      var q, k := Finish(cfg, p, r), IndexOf(p.ms, p.flight.mid);
      if r.Built? && k < |p.ms| {
        OneMoreDone(cfg, p.ms, k, q.ms[k], inserted);
      } else {
        Unchanged(cfg, p.ms, q.ms, inserted);
      }
    }
  }

  lemma ApplyOnCadence(cfg: Config, p: Project, action: Action, inserted: nat)
    requires Balanced(cfg, p.ms, inserted)
    requires !SplitsDone(p, TickReply(Decided(action))) && KeepsMarkers(p, TickReply(Decided(action)))
    requires p.flight.AwaitReplan?
    ensures Balanced(cfg, Apply(p, action).ms, inserted) && Tally(Apply(p, action).ms, 0) == Tally(p.ms, 0)
  {
    hide Balanced, Tally, LegalProject, UpdateSpec, ReplaceWith, Has;
    match action
    case Split(id, into, _) => ReplaceWithBalanced(cfg, p.ms, id, into, p.nextId, inserted);
    case Amend(id, patch) => UpdateSpecBalanced(cfg, p.ms, id, patch, inserted);
    case _ =>
  }

  lemma FinishOnCadence(cfg: Config, p: Project, r: Reply, inserted: nat)
    requires OnCadence(cfg, p, inserted) && Waiting(p.flight)
    requires !SplitsDone(p, TickReply(r)) && KeepsMarkers(p, TickReply(r))
    ensures OnCadence(cfg, Finish(cfg, p, r), inserted)
  {
    FinishOrderly(cfg, p, r);
    match (p.flight, r)
    case (AwaitBuild(_, _), _) =>
      FinishBuildOnCadence(cfg, p, r, inserted);
      hide Balanced, RunInvariant.Core, Orderly, Finish, KeepsMarkers, SplitsDone;
    case (AwaitPlan, Planned(specs)) =>
      if p.ms == [] { PlanBalanced(cfg, specs, p.nextId, inserted); }
      hide Balanced, RunInvariant.Core, Orderly, LegalProject, KeepsMarkers, SplitsDone;
    case (AwaitReplan, Decided(action)) =>
      ApplyOnCadence(cfg, p, action, inserted);
      hide Balanced, RunInvariant.Core, Orderly, Apply, KeepsMarkers, SplitsDone;
    case _ =>
      hide Balanced, RunInvariant.Core, Orderly, Apply, Attempt, SetState, Graph.RecordAttempt, LegalProject,
          KeepsMarkers, SplitsDone;
  }

  /** Events other than ticks and splits. */
  lemma OutsideOnCadence(cfg: Config, p: Project, e: Event, inserted: nat)
    requires OnCadence(cfg, p, inserted) && KeepsMarkers(p, e) && Orderly(cfg, Step(cfg, p, e))
    requires !e.TickStart? && !e.TickReply? && !e.ForeignSplit?
    ensures OnCadence(cfg, Step(cfg, p, e), inserted)
  {
    hide Balanced, Orderly, RunInvariant.Core, Tally, Markers.Contains, Due, Start, Finish;
    match e
    case ForeignAmend(id, patch) => UpdateSpecBalanced(cfg, p.ms, id, patch, inserted);
    case Restart => Unchanged(cfg, p.ms, Reclaim(p.ms), inserted);
    case Resume => Unchanged(cfg, p.ms, ResetRetries(p.ms), inserted);
    case _ =>
  }

  lemma StepOnCadence(cfg: Config, p: Project, e: Event, inserted: nat)
    requires cfg.every >= 1 && OnCadence(cfg, p, inserted) && !SplitsDone(p, e) && KeepsMarkers(p, e)
    ensures OnCadence(cfg, Step(cfg, p, e), inserted + Bump(cfg, p, e))
  {
    hide StartBuild, StartReplan, Finish, RunInvariant.Core, Balanced, Due, Orderly, Tally, OnResume,
        IsConsolidation, ReplaceWith;
    StepOrderly(cfg, p, e);
    if e.TickStart? {
      if p.flight.Landed? && p.state.Building? { StartBuildOnCadence(cfg, p, e.o, inserted); }
      if p.flight.Landed? && p.state.Replanning? { StartReplanOnCadence(cfg, p, e.o, inserted); }
    } else if e.TickReply? {
      if Waiting(p.flight) { FinishOnCadence(cfg, p, e.r, inserted); }
    } else if e.ForeignSplit? {
      ReplaceWithBalanced(cfg, p.ms, e.id, e.into, p.nextId, inserted);
    } else {
      OutsideOnCadence(cfg, p, e, inserted);
    }
  }

  // ------------------------------------------------------------ every run

  /** Consolidations inserted in a run. */
  ghost function Inserted(cfg: Config, es: seq<Event>): nat {
    if es == [] then 0
    else Inserted(cfg, es[..|es|-1]) + Bump(cfg, Exec(cfg, es[..|es|-1]), es[|es|-1])
  }

  ghost predicate Undisturbed(cfg: Config, es: seq<Event>) {
    forall n | 0 <= n < |es| :: !SplitsDone(Exec(cfg, es[..n]), es[n]) && KeepsMarkers(Exec(cfg, es[..n]), es[n])
  }

  lemma {:induction false} RunsOnCadence(cfg: Config, es: seq<Event>)
    requires cfg.every >= 1 && Undisturbed(cfg, es)
    ensures OnCadence(cfg, Exec(cfg, es), Inserted(cfg, es))
  {
    hide SplitsDone, KeepsMarkers, Bump, Step;
    if es == [] {
    } else {
      hide OnCadence;
      var init := es[..|es|-1];
      forall n | 0 <= n < |init| ensures !SplitsDone(Exec(cfg, init[..n]), init[n])
          && KeepsMarkers(Exec(cfg, init[..n]), init[n]) {
        assert init[..n] == es[..n] && init[n] == es[n];
      }
      RunsOnCadence(cfg, init);
      StepOnCadence(cfg, Exec(cfg, init), es[|es|-1], Inserted(cfg, init));
    }
  }

  /** Exactly floor(done / E) consolidations have been inserted whenever the
      project is BUILDING, and fewer than E regular milestones are done after
      the last of them. */
  lemma ExactCadence(cfg: Config, es: seq<Event>)
    requires cfg.every >= 1 && Undisturbed(cfg, es) && Exec(cfg, es).state.Building?
    ensures var ms := Exec(cfg, es).ms;
            Inserted(cfg, es) == Total(ms, RegularDone) / cfg.every && Tally(ms, 0) < cfg.every
  {
    RunsOnCadence(cfg, es);
    QuotientOf(Total(Exec(cfg, es).ms, RegularDone), cfg.every, Inserted(cfg, es), Tally(Exec(cfg, es).ms, 0));
  }

  lemma QuotientOf(n: nat, e: nat, q: nat, r: nat)
    requires n == e * q + r && r < e
    ensures n / e == q
  {
    MulMono(e, n / e + 1, q);
    MulMono(e, q + 1, n / e);
  }

  lemma MulMono(e: nat, a: nat, b: nat)
    ensures a <= b ==> e * a <= e * b
  {
  }
}
