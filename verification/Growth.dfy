/** With no Split from any replanner, bisection and consolidation alone keep a
    project planned with n milestones below 2n + 2 floor(2n / E). */
module Growth {
  import opened Graph
  import opened Markers
  import opened Consolidation
  import opened AutoSplit
  import opened Machine
  import opened RunInvariant
  import opened DonePrefix
  import opened CadenceRuns

  /** How many rows a row can still become: two until bisected, then one. */
  function Room(m: Milestone): nat {
    if Contains(m.spec.note, AUTO_SPLIT) then 1 else 2
  }

  function RegularRoom(m: Milestone): nat {
    if IsConsolidation(m) then 0 else Room(m)
  }

  function ConsolidationRoom(m: Milestone): nat {
    if IsConsolidation(m) then Room(m) else 0
  }

  ghost predicate Unmarked(spec: Spec) {
    !Contains(spec.note, CONSOLIDATION) && !Contains(spec.note, AUTO_SPLIT)
  }

  predicate LeavesNote(patch: Patch) {
    patch.Rejected? || patch.note.None?
  }

  /** No Split, no rewritten note, an unmarked plan. */
  ghost predicate Contained(e: Event) {
    match e
    case TickReply(Planned(specs)) => forall i | 0 <= i < |specs| :: Unmarked(specs[i])
    case TickReply(Decided(Split(_, _, _))) => false
    case TickReply(Decided(Amend(_, patch))) => LeavesNote(patch)
    case ForeignSplit(_, _) => false
    case ForeignAmend(_, patch) => LeavesNote(patch)
    case _ => true
  }

  /** Milestones in the plan that was accepted in this step, or before. */
  ghost function PlanSize(cfg: Config, es: seq<Event>): nat {
    if es == [] then 0
    else PlannedNow(Exec(cfg, es[..|es|-1]), es[|es|-1], PlanSize(cfg, es[..|es|-1]))
  }

  ghost function PlannedNow(p: Project, e: Event, before: nat): nat {
    match e
    case TickReply(Planned(specs)) => if p.flight.AwaitPlan? && p.ms == [] then |specs| else before
    case _ => before
  }

  ghost predicate Roomy(ms: seq<Milestone>, n: nat, inserted: nat) {
    Total(ms, RegularRoom) == 2 * n && Total(ms, ConsolidationRoom) == 2 * inserted
  }

  // ---------------------------------------------------------- list edits

  lemma {:induction false} SameNotes(a: seq<Milestone>, b: seq<Milestone>)
    requires |a| == |b| && forall i | 0 <= i < |a| :: a[i].spec.note == b[i].spec.note
    ensures Total(a, RegularRoom) == Total(b, RegularRoom)
    ensures Total(a, ConsolidationRoom) == Total(b, ConsolidationRoom)
  {
    if a != [] {
      assert a[0].spec.note == b[0].spec.note;
      assert forall i | 0 <= i < |a| - 1 :: a[1..][i] == a[i+1] && b[1..][i] == b[i+1];
      SameNotes(a[1..], b[1..]);
    }
  }

  lemma HalvesRoom(m: Milestone, base: nat)
    requires Splittable(m.spec)
    ensures var born := Newborns(Bisect(m.spec), base);
            && Total(born, RegularRoom) == RegularRoom(m)
            && Total(born, ConsolidationRoom) == ConsolidationRoom(m)
  {
    HalvesKeepMarker(m, base);
    BisectMarks(m.spec);
    var halves, born := Bisect(m.spec), Newborns(Bisect(m.spec), base);
    assert halves[0] in halves && halves[1] in halves;
    assert Room(born[0]) == 1 && Room(born[1]) == 1 && Room(m) == 2;
    hide Bisect, IsConsolidation, Contains;
    assert born == [born[0], born[1]];
    TotalPair(born[0], born[1], RegularRoom);
    TotalPair(born[0], born[1], ConsolidationRoom);
  }

  lemma TotalPair(a: Milestone, b: Milestone, weight: Milestone -> nat)
    ensures Total([a, b], weight) == weight(a) + weight(b)
  {
    var pair := [a, b];
    assert pair[1..] == [b];
    calc {
      Total(pair, weight);
      weight(a) + Total(pair[1..], weight);
      weight(a) + Total([b], weight);
      weight(a) + (weight(b) + Total([b][1..], weight));
    }
  }

  lemma {:induction false} PlanRoom(ms: seq<Milestone>)
    requires forall i | 0 <= i < |ms| :: Unmarked(ms[i].spec)
    ensures Total(ms, RegularRoom) == 2 * |ms| && Total(ms, ConsolidationRoom) == 0
  {
    if ms != [] {
      assert Unmarked(ms[0].spec);
      PlanRoom(ms[1..]);
    }
  }

  /** Each row needs room, and done rows are rows. */
  lemma {:induction false} RoomBounds(ms: seq<Milestone>)
    ensures |ms| <= Total(ms, RegularRoom) + Total(ms, ConsolidationRoom)
    ensures Total(ms, RegularDone) <= Total(ms, RegularRoom)
  {
    if ms != [] {
      RoomBounds(ms[1..]);
    }
  }

  // ------------------------------------------------------------- one step

  lemma StartReplanRoomy(cfg: Config, p: Project, o: Signals, n: nat, inserted: nat)
    requires Core(cfg, p) && p.state.Replanning? && p.flight.Landed? && Roomy(p.ms, n, inserted)
    ensures var due := Due(p.ms, cfg.every) && AfterLastDone(p.ms) > 0;
            Roomy(StartReplan(cfg, p, o).ms, n, inserted + if due then 1 else 0)
  {
    hide StartReplan, RunInvariant.Core, Due, IsConsolidation, Contains, AutoSplit.Bisect, ConsolidationSpec;
    StartReplanShape(cfg, p, o);
    var c, q := Consolidate(cfg, p), StartReplan(cfg, p, o);
    var k := AfterLastDone(p.ms);
    var pass := Newborn(p.nextId, ConsolidationSpec());
    ConsolidationRooms(pass);
    TotalInsert(p.ms, k, pass, RegularRoom);
    TotalInsert(p.ms, k, pass, ConsolidationRoom);
    if q.ms != c.ms { BisectRoomy(c.ms, NextPending(c.ms), c.nextId); }
  }

  lemma BisectRoomy(ms: seq<Milestone>, j: nat, base: nat)
    requires j < |ms| && Splittable(ms[j].spec)
    ensures var after := Splice(ms, j, Newborns(Bisect(ms[j].spec), base));
            && Total(after, RegularRoom) == Total(ms, RegularRoom)
            && Total(after, ConsolidationRoom) == Total(ms, ConsolidationRoom)
  {
    HalvesRoom(ms[j], base);
    TotalSplice(ms, j, Newborns(Bisect(ms[j].spec), base), RegularRoom);
    TotalSplice(ms, j, Newborns(Bisect(ms[j].spec), base), ConsolidationRoom);
  }

  lemma ConsolidationRooms(m: Milestone)
    requires m.spec == ConsolidationSpec()
    ensures RegularRoom(m) == 0 && ConsolidationRoom(m) == 2
  {
    ConsolidationSpecMarks();
  }

  lemma StartBuildRoomy(cfg: Config, p: Project, o: Signals)
    requires Core(cfg, p) && p.state.Building? && p.flight.Landed?
    ensures |StartBuild(cfg, p, o).ms| == |p.ms|
    ensures forall i | 0 <= i < |p.ms| :: StartBuild(cfg, p, o).ms[i].spec == p.ms[i].spec
  {
    StartBuildShape(cfg, p, o);
  }

  ghost predicate NotesKept(a: seq<Milestone>, b: seq<Milestone>) {
    |a| == |b| && forall i | 0 <= i < |a| :: a[i].spec.note == b[i].spec.note
  }

  lemma FinishBuildNotes(cfg: Config, p: Project, r: Reply)
    requires Core(cfg, p) && p.flight.AwaitBuild?
    ensures NotesKept(p.ms, Finish(cfg, p, r).ms)
  {
    if r.Built? || r.BuildFailed? || r.BudgetExceeded? {
      hide Finish;
      FinishBuildShape(cfg, p, r);
    }
  }

  lemma FinishRoomy(cfg: Config, p: Project, r: Reply, n: nat, inserted: nat)
    requires Core(cfg, p) && Waiting(p.flight) && Contained(TickReply(r)) && Roomy(p.ms, n, inserted)
    ensures Roomy(Finish(cfg, p, r).ms, PlannedNow(p, TickReply(r), n), inserted)
  {
    hide RunInvariant.Core, IsConsolidation, Contains, Total;
    if p.flight.AwaitPlan? && r.Planned? && p.ms == [] {
      PlanRoom(Newborns(r.specs, p.nextId));
      EmptyRoom(p.ms);
    } else {
      if p.flight.AwaitBuild? { FinishBuildNotes(cfg, p, r); }
      SameNotes(p.ms, Finish(cfg, p, r).ms);
    }
  }

  lemma EmptyRoom(ms: seq<Milestone>)
    requires ms == []
    ensures Total(ms, RegularRoom) == Total(ms, ConsolidationRoom) == 0
  {
  }

  lemma StepRoomy(cfg: Config, p: Project, e: Event, n: nat, inserted: nat)
    requires Core(cfg, p) && Contained(e) && Roomy(p.ms, n, inserted)
    ensures Roomy(Step(cfg, p, e).ms, PlannedNow(p, e, n), inserted + Bump(cfg, p, e))
  {
    hide StartBuild, StartReplan, Finish, RunInvariant.Core, Due, IsConsolidation, Contains, Total;
    match e
    case TickStart(o) =>
      if p.flight.Landed? && p.state.Replanning? {
        StartReplanRoomy(cfg, p, o, n, inserted);
      } else if p.flight.Landed? && p.state.Building? {
        StartBuildRoomy(cfg, p, o);
        SameNotes(p.ms, Step(cfg, p, e).ms);
      }
    case TickReply(r) => if Waiting(p.flight) { FinishRoomy(cfg, p, r, n, inserted); }
    case _ => SameNotes(p.ms, Step(cfg, p, e).ms);
  }

  lemma ContainedIsUndisturbed(p: Project, e: Event)
    requires Contained(e)
    ensures !SplitsDone(p, e) && KeepsMarkers(p, e)
  {
  }

  // ------------------------------------------------------------ every run

  lemma {:induction false} RunsRoomy(cfg: Config, es: seq<Event>)
    requires forall n | 0 <= n < |es| :: Contained(es[n])
    ensures Roomy(Exec(cfg, es).ms, PlanSize(cfg, es), Inserted(cfg, es))
  {
    if es != [] {
      var init := es[..|es|-1];
      RunsRoomy(cfg, init);
      Reachable(cfg, init);
      hide Step, Contained, Bump, PlannedNow, Roomy, RunInvariant.Core;
      StepRoomy(cfg, Exec(cfg, init), es[|es|-1], PlanSize(cfg, init), Inserted(cfg, init));
    }
  }

  lemma GrowthBound(cfg: Config, es: seq<Event>)
    requires cfg.every >= 1 && forall k | 0 <= k < |es| :: Contained(es[k])
    ensures var n := PlanSize(cfg, es);
            |Exec(cfg, es).ms| <= 2 * n + 2 * (2 * n / cfg.every)
  {
    forall k | 0 <= k < |es| ensures !SplitsDone(Exec(cfg, es[..k]), es[k]) && KeepsMarkers(Exec(cfg, es[..k]), es[k]) {
      ContainedIsUndisturbed(Exec(cfg, es[..k]), es[k]);
    }
    hide Contained, SplitsDone, KeepsMarkers, Exec;
    RunsOnCadence(cfg, es);
    RunsRoomy(cfg, es);
    RoomBounds(Exec(cfg, es).ms);
    AtMostQuotient(2 * PlanSize(cfg, es), cfg.every, Inserted(cfg, es));
  }

  lemma AtMostQuotient(n: nat, e: nat, q: nat)
    requires e >= 1 && e * q <= n
    ensures q <= n / e
  {
    MulMono(e, n / e + 1, q);
  }
}
