/** Between two commands of the operator a project advances only boundedly
    often, whatever the replanners do, provided the milestone cap is on. */
module Bounded {
  import opened Lifecycle
  import opened Graph
  import opened Consolidation
  import opened AutoSplit
  import opened Machine
  import opened RunInvariant
  import opened Samples
  import CadenceRuns
  import Retry

  // ------------------------------------------------------------ the measure

  function Positive(n: int): nat {
    if n > 0 then n else 0
  }

  /** Attempts a row can still take, one more for its success. */
  function Owed(limit: int): Milestone -> nat {
    (m: Milestone) => if m.state.Done? then 0 else 1 + Positive(limit - m.retries)
  }

  function PerRow(cfg: Config): nat {
    1 + Positive(cfg.retryLimit)
  }

  /** What one row of room below the cap is worth: more than all the attempts a
      graph within the cap can owe. */
  function Price(cfg: Config): nat {
    2 * (PerRow(cfg) * Positive(cfg.maxMilestones)) + 5
  }

  function Work(cfg: Config, ms: seq<Milestone>): nat {
    hide Price, Total;
    if |ms| <= cfg.maxMilestones
    then (cfg.maxMilestones + 1 - |ms|) * Price(cfg) + 2 * Total(ms, Owed(cfg.retryLimit))
    else 0
  }

  function Ceiling(cfg: Config): nat {
    (Positive(cfg.maxMilestones) + 2) * Price(cfg)
  }

  /** Above the cap only the road to BLOCKED is left, from a build in flight
      through REPLANNING. */
  function Measure(cfg: Config, p: Project): nat {
    match p.state
    case Queued => Ceiling(cfg) + 2
    case Planning => Ceiling(cfg) + 1
    case Building => Work(cfg, p.ms) + if |p.ms| > cfg.maxMilestones && p.flight.AwaitBuild? then 4 else 2
    case Replanning => Work(cfg, p.ms) + 3
    case Integration => Work(cfg, p.ms) + 1
    case _ => 0
  }

  // ------------------------------------------------------------ arithmetic

  lemma RoomProduct(a: nat, b: nat, price: nat)
    requires a < b
    ensures a * price + price <= b * price
  {
    assert (a + 1) * price <= b * price;
  }

  lemma ProductMono(each: nat, n: nat, m: nat)
    requires n <= m
    ensures each * n <= each * m
  {
  }

  lemma OwedFits(cfg: Config, ms: seq<Milestone>)
    requires |ms| <= cfg.maxMilestones
    ensures 2 * Total(ms, Owed(cfg.retryLimit)) + 5 <= Price(cfg)
  {
    TotalBound(ms, Owed(cfg.retryLimit), PerRow(cfg));
    ProductMono(PerRow(cfg), |ms|, Positive(cfg.maxMilestones));
  }

  /** More rows, less work, by more than any phase. */
  lemma GrowthPays(cfg: Config, a: seq<Milestone>, b: seq<Milestone>)
    requires cfg.maxMilestones > 0 && |a| < |b|
    ensures |a| <= cfg.maxMilestones ==> Work(cfg, b) + 5 <= Work(cfg, a)
    ensures |a| > cfg.maxMilestones ==> Work(cfg, b) == Work(cfg, a) == 0
  {
    var M := cfg.maxMilestones;
    hide Price, Total;
    if |b| <= M {
      OwedFits(cfg, b);
      RoomProduct(M + 1 - |b|, M + 1 - |a|, Price(cfg));
    } else if |a| <= M {
      OwedFits(cfg, a);
      ProductMono(Price(cfg), 1, M + 1 - |a|);
    }
  }

  lemma WorkBelow(cfg: Config, ms: seq<Milestone>)
    requires cfg.maxMilestones > 0
    ensures Work(cfg, ms) + 3 <= Ceiling(cfg)
  {
    var M := cfg.maxMilestones;
    hide Price, Total;
    if |ms| <= M {
      OwedFits(cfg, ms);
      RoomProduct(M + 1 - |ms|, M + 2, Price(cfg));
    } else {
      OwedFits(cfg, []);
      ProductMono(Price(cfg), 1, M + 2);
    }
  }

  /** Rows rewritten in place owing no more. */
  lemma NoMoreOwed(cfg: Config, a: seq<Milestone>, b: seq<Milestone>)
    requires |a| == |b|
    requires forall i | 0 <= i < |a| :: Owed(cfg.retryLimit)(b[i]) <= Owed(cfg.retryLimit)(a[i])
    ensures Work(cfg, b) <= Work(cfg, a)
  {
    TotalPointwise(a, b, Owed(cfg.retryLimit));
  }

  lemma OneLessOwed(cfg: Config, ms: seq<Milestone>, k: nat, m: Milestone)
    requires k < |ms| <= cfg.maxMilestones
    requires Owed(cfg.retryLimit)(m) < Owed(cfg.retryLimit)(ms[k])
    ensures Work(cfg, ms[k := m]) + 2 <= Work(cfg, ms)
  {
    TotalUpdate(ms, k, m, Owed(cfg.retryLimit));
  }

  // ------------------------------------------------------------- one step

  ghost predicate Descends(cfg: Config, p: Project, q: Project) {
    && Measure(cfg, q) <= Measure(cfg, p)
    && (q.state != p.state ==> Measure(cfg, q) < Measure(cfg, p))
  }

  lemma OverCapBlocks(cfg: Config, p: Project, o: Signals)
    requires p.state.Building? && OverCap(cfg, |p.ms|)
    ensures StartBuild(cfg, p, o).state.Blocked?
  {
  }

  /** What a build tick's first half can owe. */
  lemma StartBuildWork(cfg: Config, p: Project, o: Signals)
    requires Core(cfg, p) && p.state.Building? && p.flight.Landed? && |p.ms| <= cfg.maxMilestones
    ensures var q := StartBuild(cfg, p, o);
            && |q.ms| == |p.ms|
            && (q.state.Replanning? ==> Work(cfg, q.ms) + 2 <= Work(cfg, p.ms))
            && (q.state.Building? || q.state.Integration? ==> Work(cfg, q.ms) <= Work(cfg, p.ms))
  {
    hide StartBuild, Work;
    StartBuildShape(cfg, p, o);
    Retry.BuildLimit(cfg, p, o);
    hide RunInvariant.Core, UniqueIds, NoneBuilding;
    var q, r := StartBuild(cfg, p, o), Reclaim(p.ms);
    var k := NextPending(r);
    NoMoreOwed(cfg, p.ms, r);
    if q.ms != r && q.flight.AwaitBuild? {
      NoMoreOwed(cfg, r, q.ms);
    } else if q.state.Replanning? {
      OneLessOwed(cfg, r, k, Attempted(r[k], false, None));
    }
  }

  lemma StartBuildDescends(cfg: Config, p: Project, o: Signals)
    requires Core(cfg, p) && p.state.Building? && p.flight.Landed? && cfg.maxMilestones > 0
    ensures Descends(cfg, p, StartBuild(cfg, p, o))
  {
    hide StartBuild, Work, UniqueIds, NoneBuilding, Ceiling;
    StartBuildShape(cfg, p, o);
    if |p.ms| > cfg.maxMilestones {
      OverCapBlocks(cfg, p, o);
    } else {
      StartBuildWork(cfg, p, o);
    }
  }

  lemma StartReplanDescends(cfg: Config, p: Project, o: Signals)
    requires Core(cfg, p) && p.state.Replanning? && p.flight.Landed? && cfg.maxMilestones > 0
    ensures Descends(cfg, p, StartReplan(cfg, p, o))
  {
    StartReplanShape(cfg, p, o);
    var q, c := StartReplan(cfg, p, o), Consolidate(cfg, p);
    assert c.ms == p.ms || |c.ms| == |p.ms| + 1;
    hide StartReplan, Consolidate, RunInvariant.Core, Work, Bisect, Splittable, Ceiling;
    if q.ms != p.ms {
      assert |q.ms| > |p.ms|;
      GrowthPays(cfg, p.ms, q.ms);
    }
  }

  lemma FinishBuildDescends(cfg: Config, p: Project, r: Reply)
    requires Core(cfg, p) && p.flight.AwaitBuild? && cfg.maxMilestones > 0
    requires r.Built? || r.BuildFailed? || r.BudgetExceeded?
    ensures Descends(cfg, p, Finish(cfg, p, r))
  {
    hide Finish, UniqueIds, NoneBuilding, Total, Ceiling, Work;
    FinishBuildShape(cfg, p, r);
    var q, k := Finish(cfg, p, r), IndexOf(p.ms, p.flight.mid);
    if k < |p.ms| {
      if |p.ms| <= cfg.maxMilestones && q.state.Replanning? { OneLessOwed(cfg, p.ms, k, q.ms[k]); }
      NoMoreOwed(cfg, p.ms, q.ms);
    }
  }

  lemma ApplyDescends(cfg: Config, p: Project, action: Action)
    requires p.state.Replanning? && cfg.maxMilestones > 0
    ensures Descends(cfg, p, Apply(p, action))
  {
    var q := Apply(p, action);
    hide Work, Merge, Ceiling;
    if action.Split? && Has(p.ms, action.id) {
      GrowthPays(cfg, p.ms, q.ms);
    } else {
      NoMoreOwed(cfg, p.ms, q.ms);
    }
  }

  lemma FinishDescends(cfg: Config, p: Project, r: Reply)
    requires Core(cfg, p) && Waiting(p.flight) && cfg.maxMilestones > 0
    ensures Descends(cfg, p, Finish(cfg, p, r))
  {
    assert FlightFits(p);
    hide RunInvariant.Core, Work, Ceiling, Apply, Attempt, SetState, RecordAttempt;
    if p.flight.AwaitBuild? && (r.Built? || r.BuildFailed? || r.BudgetExceeded?) {
      FinishBuildDescends(cfg, p, r);
    } else if p.flight.AwaitReplan? && r.Decided? {
      ApplyDescends(cfg, p, r.action);
    } else if p.flight.AwaitPlan? && r.Planned? {
      WorkBelow(cfg, Newborns(r.specs, p.nextId));
    }
  }

  lemma StepDescends(cfg: Config, p: Project, e: Event)
    requires Core(cfg, p) && cfg.maxMilestones > 0 && !OperatorCommand(e)
    ensures Descends(cfg, p, Step(cfg, p, e))
  {
    hide RunInvariant.Core, Descends, Start, Finish;
    match e
    case TickStart(o) => StartDescends(cfg, p, o);
    case TickReply(r) => if Waiting(p.flight) { FinishDescends(cfg, p, r); } else { SameDescends(cfg, p); }
    case _ =>
      FlightIsFit(cfg, p);
      OutsideDescends(cfg, p, e);
  }

  lemma FlightIsFit(cfg: Config, p: Project)
    requires Core(cfg, p)
    ensures FlightFits(p)
  {
  }

  lemma SameDescends(cfg: Config, p: Project)
    ensures Descends(cfg, p, p)
  {
  }

  lemma StartDescends(cfg: Config, p: Project, o: Signals)
    requires Core(cfg, p) && cfg.maxMilestones > 0
    ensures Descends(cfg, p, Step(cfg, p, TickStart(o)))
  {
    hide Work, Ceiling, StartBuild, StartReplan, UniqueIds, NoneBuilding;
    if p.flight.Landed? && p.state.Building? { StartBuildDescends(cfg, p, o); }
    else if p.flight.Landed? && p.state.Replanning? { StartReplanDescends(cfg, p, o); }
  }

  lemma OutsideDescends(cfg: Config, p: Project, e: Event)
    requires FlightFits(p) && cfg.maxMilestones > 0 && !OperatorCommand(e) && !e.TickStart? && !e.TickReply?
    ensures Descends(cfg, p, Step(cfg, p, e))
  {
    hide Work, Ceiling, Start, Finish, Merge;
    match e
    case ForeignSplit(id, into) =>
      if Has(p.ms, id) { GrowthPays(cfg, p.ms, Step(cfg, p, e).ms); }
    case Restart => NoMoreOwed(cfg, p.ms, Reclaim(p.ms));
    case ForeignAmend(id, patch) => NoMoreOwed(cfg, p.ms, UpdateSpec(p.ms, id, patch));
    case _ =>
  }

  // ------------------------------------------------------------ every run

  lemma {:induction false} AdvancesPaid(cfg: Config, p: Project, es: seq<Event>)
    requires Core(cfg, p) && cfg.maxMilestones > 0 && Unattended(es)
    ensures Advances(cfg, p, es) + Measure(cfg, From(cfg, p, es)) <= Measure(cfg, p)
  {
    if es != [] {
      AdvancesPaid(cfg, p, es[..|es|-1]);
      FromKeeps(cfg, p, es[..|es|-1]);
      hide Step, Measure, RunInvariant.Core;
      StepDescends(cfg, From(cfg, p, es[..|es|-1]), es[|es|-1]);
    }
  }

  lemma MeasureBelow(cfg: Config, p: Project)
    requires cfg.maxMilestones > 0
    ensures Measure(cfg, p) <= Ceiling(cfg) + 2
  {
    hide Work, Ceiling;
    WorkBelow(cfg, p.ms);
    CeilingRoom(cfg, p.ms);
  }

  lemma CeilingRoom(cfg: Config, ms: seq<Milestone>)
    ensures Work(cfg, ms) + 4 <= Ceiling(cfg) || |ms| <= cfg.maxMilestones
  {
    OwedFits(cfg.(maxMilestones := Positive(cfg.maxMilestones)), []);
    assert 2 * Price(cfg) <= Ceiling(cfg);
  }

  /** From any reachable state, at most Ceiling + 2 steps advance the project
      before the operator's next command: a bound in the cap and the retry
      limit alone. */
  lemma BoundedRuns(cfg: Config, before: seq<Event>, es: seq<Event>)
    requires cfg.maxMilestones > 0 && Unattended(es)
    ensures Advances(cfg, Exec(cfg, before), es) <= Ceiling(cfg) + 2
  {
    Reachable(cfg, before);
    AdvancesPaid(cfg, Exec(cfg, before), es);
    MeasureBelow(cfg, Exec(cfg, before));
  }

  // ------------------------------------------------------ without the cap

  /** BUILDING, with plain untouched rows only. */
  ghost predicate Untried(p: Project) {
    && p.state.Building? && p.flight.Landed? && !p.killed && !p.paused
    && p.ms != [] && UniqueIds(p.ms) && IdsBelow(p.ms, p.nextId)
    && forall i | 0 <= i < |p.ms| :: p.ms[i].state.Pending? && p.ms[i].retries == 0
  }

  /** Trip the first row's circuit breaker, consult the replanner, be told to
      split that row in two. */
  function SplitFirst(id: Id): seq<Event> {
    [TickStart(TRIPPED), TickStart(CALM), TickReply(Decided(Split(id, TWO_BLANKS, false)))]
  }

  lemma Tripped(cfg: Config, p: Project)
    requires Untried(p) && cfg.maxMilestones <= 0 && cfg.retryLimit >= 2
    ensures Step(cfg, p, TickStart(TRIPPED))
         == p.(ms := p.ms[0 := Attempted(p.ms[0], false, None)], state := Replanning)
  {
    assert Reclaim(p.ms) == p.ms;
    assert NextPending(p.ms) == 0 && IndexOf(p.ms, p.ms[0].id) == 0;
  }

  lemma Consulted(cfg: Config, p: Project)
    requires p.state.Replanning? && p.flight.Landed? && !p.killed && !p.paused && p.ms != []
    requires forall i | 0 <= i < |p.ms| :: Open(p.ms[i])
    requires p.ms[0].retries > 0
    ensures Step(cfg, p, TickStart(CALM)) == p.(flight := AwaitReplan)
  {
    CadenceRuns.TallyQuiet(p.ms, 0);
    assert NextPending(p.ms) == 0;
  }

  lemma FirstSplit(cfg: Config, p: Project)
    requires p.state.Replanning? && p.flight.AwaitReplan? && !p.killed && !p.paused && p.ms != []
    requires UniqueIds(p.ms) && IdsBelow(p.ms, p.nextId)
    requires forall i | 1 <= i < |p.ms| :: p.ms[i].state.Pending? && p.ms[i].retries == 0
    ensures Untried(Step(cfg, p, TickReply(Decided(Split(p.ms[0].id, TWO_BLANKS, false)))))
  {
    assert IndexOf(p.ms, p.ms[0].id) == 0;
    ReplaceWithIds(p.ms, p.ms[0].id, TWO_BLANKS, p.nextId);
  }

  lemma FromThree(cfg: Config, p: Project, a: Event, b: Event, c: Event)
    ensures var q := Step(cfg, p, a);
            var r := Step(cfg, q, b);
            var s := Step(cfg, r, c);
            && From(cfg, p, [a, b, c]) == s
            && Advances(cfg, p, [a, b, c]) == (if q.state != p.state then 1 else 0)
               + (if r.state != q.state then 1 else 0) + (if s.state != r.state then 1 else 0)
  {
    hide Step;
    var es := [a, b, c];
    assert es[..2] == [a, b] && es[..2][..1] == [a] && [a][..0] == [];
    assert From(cfg, p, [a]) == Step(cfg, p, a);
    assert [a, b][..1] == [a];
    assert From(cfg, p, [a, b]) == Step(cfg, Step(cfg, p, a), b);
    assert Advances(cfg, p, [a]) == if Step(cfg, p, a).state != p.state then 1 else 0;
  }

  lemma SplitCycle(cfg: Config, p: Project)
    requires Untried(p) && cfg.maxMilestones <= 0 && cfg.retryLimit >= 2
    ensures Untried(From(cfg, p, SplitFirst(p.ms[0].id)))
    ensures Advances(cfg, p, SplitFirst(p.ms[0].id)) == 2
  {
    var q := Step(cfg, p, TickStart(TRIPPED));
    Tripped(cfg, p);
    Consulted(cfg, q);
    hide Step;
    FirstSplit(cfg, Step(cfg, q, TickStart(CALM)));
    FromThree(cfg, p, TickStart(TRIPPED), TickStart(CALM), TickReply(Decided(Split(p.ms[0].id, TWO_BLANKS, false))));
  }

  /** The cap is what bounds a run: without it, and with a second attempt to
      split on, the replanner can keep a project moving for ever. */
  lemma {:induction false} UncappedDiverges(cfg: Config, p: Project, n: nat) returns (es: seq<Event>)
    requires Untried(p) && cfg.maxMilestones <= 0 && cfg.retryLimit >= 2
    ensures Unattended(es) && Advances(cfg, p, es) >= n
    ensures Untried(From(cfg, p, es))
  {
    if n == 0 {
      es := [];
    } else {
      var init := UncappedDiverges(cfg, p, n - 1);
      var q := From(cfg, p, init);
      SplitCycle(cfg, q);
      es := init + SplitFirst(q.ms[0].id);
      AdvancesConcat(cfg, p, init, SplitFirst(q.ms[0].id));
      FromConcat(cfg, p, init, SplitFirst(q.ms[0].id));
    }
  }

  // ----------------------------- without the cap, whatever the retry limit

  ghost predicate Unfinished(ms: seq<Milestone>) {
    exists i :: 0 <= i < |ms| && !ms[i].state.Done?
  }

  ghost predicate Growing(cfg: Config, p: Project) {
    Core(cfg, p) && p.state.Building? && p.flight.Landed? && !p.killed && !p.paused && Unfinished(p.ms)
  }

  /** With two rows to go, one is built and the other is left. */
  lemma BuildsOne(cfg: Config, p: Project, a: nat, b: nat)
    requires Growing(cfg, p) && cfg.maxMilestones <= 0
    requires a < b < |p.ms| && !p.ms[a].state.Done? && !p.ms[b].state.Done?
    ensures var q := Step(cfg, p, TickStart(CALM));
            var r := Step(cfg, q, TickReply(Built(None)));
            && q.state.Building? && r.state.Replanning? && r.flight.Landed? && !r.killed && !r.paused
            && Core(cfg, r) && Unfinished(r.ms)
  {
    var q := Step(cfg, p, TickStart(CALM));
    StepKeeps(cfg, p, TickStart(CALM));
    StepKeeps(cfg, q, TickReply(Built(None)));
    StartsOne(cfg, p, a);
    FinishBuildShape(cfg, q, Built(None));
    hide Start, RunInvariant.Core, Finish, Reclaim, NextPending;
    var j := NextPending(Reclaim(p.ms));
    var r := Step(cfg, q, TickReply(Built(None)));
    assert r == Finish(cfg, q, Built(None));
    assert !r.ms[if j == a then b else a].state.Done?;
  }

  lemma StartsOne(cfg: Config, p: Project, a: nat)
    requires Growing(cfg, p) && cfg.maxMilestones <= 0 && a < |p.ms| && !p.ms[a].state.Done?
    ensures var q, r := Step(cfg, p, TickStart(CALM)), Reclaim(p.ms);
            var j := NextPending(r);
            && j < |r| && IndexOf(q.ms, r[j].id) == j
            && q == p.(ms := r[j := r[j].(state := MilestoneState.Building)], flight := AwaitBuild(r[j].id,
                r[j].retries))
            && forall i | 0 <= i < |p.ms| && i != j :: !p.ms[i].state.Done? ==> !q.ms[i].state.Done?
  {
    hide StartBuild;
    var r := Reclaim(p.ms);
    assert Open(r[a]);
    StartsNext(cfg, p);
    IndexOfAt(StartBuild(cfg, p, CALM).ms, NextPending(r));
  }

  lemma StartsNext(cfg: Config, p: Project)
    requires UniqueIds(p.ms) && cfg.maxMilestones <= 0 && NextPending(Reclaim(p.ms)) < |p.ms|
    ensures var q, r := StartBuild(cfg, p, CALM), Reclaim(p.ms);
            var j := NextPending(r);
            && UniqueIds(q.ms)
            && q == p.(ms := r[j := r[j].(state := MilestoneState.Building)], flight := AwaitBuild(r[j].id,
                r[j].retries))
  {
    hide Attempt, Requeue;
    var r := Reclaim(p.ms);
    assert forall i | 0 <= i < |r| :: r[i].id == p.ms[i].id by { ReclaimIds(p.ms); }
    IndexOfAt(r, NextPending(r));
  }

  lemma ReclaimIds(ms: seq<Milestone>)
    ensures forall i | 0 <= i < |ms| :: Reclaim(ms)[i].id == ms[i].id
  {
  }

  lemma ReplansBack(cfg: Config, p: Project)
    requires Core(cfg, p) && p.state.Replanning? && p.flight.Landed? && !p.killed && !p.paused && Unfinished(p.ms)
    ensures Growing(cfg, Step(cfg, p, TickStart(TRIPPED)))
  {
    StepKeeps(cfg, p, TickStart(TRIPPED));
    hide Bisect, Splittable, Due, UniqueIds;
    var c := Consolidate(cfg, p);
    var i :| 0 <= i < |p.ms| && !p.ms[i].state.Done?;
    var k := AfterLastDone(p.ms);
    assert Open(c.ms[if i < k || c.ms == p.ms then i else i + 1]);
  }

  /** Another project's replanner splits the next row, one half is built, and the
      clean path leads back. */
  function FedFromOutside(id: Id): seq<Event> {
    [ForeignSplit(id, TWO_BLANKS)] + [TickStart(CALM), TickReply(Built(None)), TickStart(TRIPPED)]
  }

  lemma FedCycle(cfg: Config, p: Project, k: nat)
    requires Growing(cfg, p) && cfg.maxMilestones <= 0 && k < |p.ms| && !p.ms[k].state.Done?
    ensures Growing(cfg, From(cfg, p, FedFromOutside(p.ms[k].id)))
    ensures Advances(cfg, p, FedFromOutside(p.ms[k].id)) >= 2
  {
    var e, rest := ForeignSplit(p.ms[k].id, TWO_BLANKS), [TickStart(CALM), TickReply(Built(None)), TickStart(TRIPPED)];
    var q := Step(cfg, p, e);
    SplitKeepsTwo(cfg, p, k);
    hide Step, Growing;
    assert [e][..0] == [] && From(cfg, p, [e]) == q;
    AdvancesConcat(cfg, p, [e], rest);
    FromConcat(cfg, p, [e], rest);
    FromThree(cfg, q, rest[0], rest[1], rest[2]);
    BuildsOne(cfg, q, k, k + 1);
    ReplansBack(cfg, Step(cfg, Step(cfg, q, rest[0]), rest[1]));
    GrowingBuilds(cfg, From(cfg, q, rest));
  }

  lemma SomethingLeft(cfg: Config, p: Project) returns (k: nat)
    requires Growing(cfg, p)
    ensures k < |p.ms| && !p.ms[k].state.Done?
  {
    k :| 0 <= k < |p.ms| && !p.ms[k].state.Done?;
  }

  lemma OutsideIsUnattended(id: Id)
    ensures Unattended(FedFromOutside(id))
  {
  }

  lemma GrowingBuilds(cfg: Config, p: Project)
    requires Growing(cfg, p)
    ensures p.state.Building?
  {
  }

  lemma SplitKeepsTwo(cfg: Config, p: Project, k: nat)
    requires Growing(cfg, p) && k < |p.ms|
    ensures var q := Step(cfg, p, ForeignSplit(p.ms[k].id, TWO_BLANKS));
            Growing(cfg, q) && k + 1 < |q.ms| && !q.ms[k].state.Done? && !q.ms[k+1].state.Done?
  {
    StepKeeps(cfg, p, ForeignSplit(p.ms[k].id, TWO_BLANKS));
    IndexOfAt(p.ms, k);
    var q := Step(cfg, p, ForeignSplit(p.ms[k].id, TWO_BLANKS));
    assert q.ms == Splice(p.ms, k, Newborns(TWO_BLANKS, p.nextId));
    assert q.ms[k] == Newborn(p.nextId, BLANK) && q.ms[k+1] == Newborn(p.nextId + 1, BLANK);
  }

  lemma {:induction false} FedDiverges(cfg: Config, p: Project, n: nat) returns (es: seq<Event>)
    requires Growing(cfg, p) && cfg.maxMilestones <= 0
    ensures Unattended(es) && Advances(cfg, p, es) >= n && Growing(cfg, From(cfg, p, es))
  {
    hide Growing, FedFromOutside;
    if n == 0 {
      es := [];
    } else {
      var init := FedDiverges(cfg, p, n - 1);
      var q := From(cfg, p, init);
      var k := SomethingLeft(cfg, q);
      OutsideIsUnattended(q.ms[k].id);
      FedCycle(cfg, q, k);
      es := init + FedFromOutside(q.ms[k].id);
      AdvancesConcat(cfg, p, init, FedFromOutside(q.ms[k].id));
      FromConcat(cfg, p, init, FedFromOutside(q.ms[k].id));
    }
  }

  ghost predicate Bound(cfg: Config, before: seq<Event>, limit: nat) {
    forall es | Unattended(es) :: Advances(cfg, Exec(cfg, before), es) <= limit
  }

  ghost predicate SomeBound(cfg: Config, before: seq<Event>) {
    exists limit: nat :: Bound(cfg, before, limit)
  }

  /** Every reachable state has some bound on unattended advances exactly when
      the cap is on. */
  lemma BoundedIff(cfg: Config)
    ensures (forall before :: SomeBound(cfg, before)) <==> cfg.maxMilestones > 0
  {
    if cfg.maxMilestones > 0 {
      forall before ensures SomeBound(cfg, before) {
        forall es | Unattended(es) ensures Advances(cfg, Exec(cfg, before), es) <= Ceiling(cfg) + 2 {
          BoundedRuns(cfg, before, es);
        }
        assert Bound(cfg, before, Ceiling(cfg) + 2);
      }
    } else {
      FirstPlanRuns(cfg);
      Reachable(cfg, FIRST_PLAN);
      assert !Tried(0).ms[0].state.Done?;
      forall limit: nat ensures !Bound(cfg, FIRST_PLAN, limit) {
        var es := FedDiverges(cfg, Tried(0), limit + 1);
        assert Unattended(es);
      }
      assert !SomeBound(cfg, FIRST_PLAN);
    }
  }
}
