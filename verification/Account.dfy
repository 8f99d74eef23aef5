/** The machine's steps, told once more and to the end: whatever a step may do is
    said in stored fields, and nothing else fits what is said. */
module Account {
  import opened Lifecycle
  import opened Graph
  import opened Rewrites
  import opened Markers
  import opened Consolidation
  import opened AutoSplit
  import opened Machine
  import opened RunInvariant
  import opened Effects

  // -------------------------------------------------------- what is said

  ghost predicate Ticked(cfg: Config, p: Project, o: Signals, q: Project) {
    if !p.flight.Landed? || o.globalKill then q == p
    else match p.state
      case AwaitingApproval => q == p
      case Blocked => q == p
      case Done => q == p
      case Killed => q == p
      case _ =>
        if p.killed then q == p.(state := ProjectState.Killed)
        else if p.paused then q == p
        else TickedFreely(cfg, p, o, q)
  }

  ghost predicate TickedFreely(cfg: Config, p: Project, o: Signals, q: Project) {
    match p.state
    case Queued => q == p.(state := ProjectState.Planning)
    case Planning => q == p.(flight := AwaitPlan)
    case Building => BuildTicked(cfg, o, p, q)
    case Replanning => exists c :: CadenceChecked(cfg, p, c) && ReplanTicked(o, c, q)
    case _ => q == p.(flight := AwaitCi)
  }

  ghost predicate DecisionTaken(p: Project, q: Project, a: Action) {
    match a
    case Noop => q == p.(state := ProjectState.Building, flight := Landed)
    case Amend(id, patch) =>
      q == p.(state := ProjectState.Building, flight := Landed, ms := q.ms) && Amended(p.ms, q.ms, id, patch)
    case Split(id, into, elsewhere) =>
      if NoRow(p.ms, id) && !elsewhere then q == p.(flight := Raised(NoSuchRow))
      else
        && q == p.(state := ProjectState.Building, flight := Landed, ms := q.ms, nextId := p.nextId + |into|)
        && Divided(p.ms, q.ms, id, into, p.nextId)
    case Escalate => q == p.(state := Blocked, flight := Landed)
  }

  ghost predicate Replied(cfg: Config, p: Project, r: Reply, q: Project) {
    match p.flight
    case AwaitPlan => if r.Planned? then PlanTaken(cfg, p, q, r.specs) else q == p.(flight := Raised(CrewError))
    case AwaitBuild(_, _) => BuildReplied(cfg, p, q, r)
    case AwaitReplan => if r.Decided? then DecisionTaken(p, q, r.action) else q == p.(flight := Raised(CrewError))
    case AwaitCi =>
      if r == CiVerdict(true) then q == p.(state := ProjectState.Done, flight := Landed)
      else if r == CiVerdict(false) then q == p.(state := Blocked, flight := Landed)
      else q == p.(flight := Raised(CrewError))
    case _ => q == p
  }

  /** The step `e` may take the project p to q. */
  ghost predicate Told(cfg: Config, p: Project, e: Event, q: Project) {
    match e
    case TickStart(o) => Ticked(cfg, p, o, q)
    case TickReply(r) => Replied(cfg, p, r, q)
    case Fallout(block) =>
      q == if p.flight.Raised? then p.(flight := Landed, state := if block then Blocked else p.state) else p
    case Approve => q == if p.state.AwaitingApproval? then p.(state := ProjectState.Building) else p
    case Pause => q == p.(paused := true)
    case Resume => ResumedTo(cfg, p, q)
    case Abort => q == p.(killed := true)
    case Restart => q == p.(ms := q.ms, flight := Landed) && Swept(p.ms, q.ms, |p.ms|)
    case KillLost => q == p.(killed := false)
    case Alloc(count) => q == p.(nextId := p.nextId + count)
    case ForeignSplit(id, into) =>
      q == p.(ms := q.ms, nextId := p.nextId + |into|) && Divided(p.ms, q.ms, id, into, p.nextId)
    case ForeignAmend(target, patch) => q == p.(ms := q.ms) && Amended(p.ms, q.ms, target, patch)
  }

  // ------------------------------------------------------- it is so

  lemma TicksAsTold(cfg: Config, p: Project, o: Signals)
    requires Core(cfg, p)
    ensures Ticked(cfg, p, o, Step(cfg, p, TickStart(o)))
  {
    hide Step, Core, BuildTicked, CadenceChecked, ReplanTicked, Consolidate;
    if !p.flight.Landed? {
      UnawaitedEvents(cfg, p, TickStart(o));
    } else if Free(p, o) {
      CallingTick(cfg, p, o);
      if p.state.Building? { BuildTick(cfg, p, o); }
      if p.state.Replanning? {
        CadenceTick(cfg, p);
        ReplanTick(cfg, p, o);
      }
    } else if Advanceable(p.state) {
      HeldTick(cfg, p, o);
    } else {
      RestingTick(cfg, p, o);
    }
  }

  lemma RestingTick(cfg: Config, p: Project, o: Signals)
    requires !Advanceable(p.state)
    ensures Step(cfg, p, TickStart(o)) == p
  {
  }

  lemma RepliesAsTold(cfg: Config, p: Project, r: Reply)
    requires Core(cfg, p)
    ensures Replied(cfg, p, r, Step(cfg, p, TickReply(r)))
  {
    hide Step, Core, PlanTaken, BuildReplied, Amended, Divided, NoRow;
    match p.flight
    case AwaitPlan => if r.Planned? { PlanReply(cfg, p, r.specs); } else { CrewCrash(cfg, p, r); }
    case AwaitBuild(_, _) => BuildReply(cfg, p, r);
    case AwaitReplan => if r.Decided? { DecisionReply(cfg, p, r.action); } else { CrewCrash(cfg, p, r); }
    case AwaitCi => CiReply(cfg, p, r);
    case _ => UnawaitedEvents(cfg, p, TickReply(r));
  }

  lemma StepsAsTold(cfg: Config, p: Project, e: Event)
    requires Core(cfg, p)
    ensures Told(cfg, p, e, Step(cfg, p, e))
  {
    hide Step, Core, Ticked, Replied, ResumedTo, Swept, Amended, Divided;
    match e
    case TickStart(o) => TicksAsTold(cfg, p, o);
    case TickReply(r) => RepliesAsTold(cfg, p, r);
    case Fallout(block) =>
      if p.flight.Raised? { FalloutEffect(cfg, p, block); } else { UnawaitedEvents(cfg, p, e); }
    case Resume => ResumeEffect(cfg, p);
    case Restart => RestartEffect(cfg, p);
    case Alloc(_) => UnawaitedEvents(cfg, p, e);
    case ForeignSplit(_, _) => ForeignEffect(cfg, p, e);
    case ForeignAmend(_, _) => ForeignEffect(cfg, p, e);
    case _ => CommandEffect(cfg, p, e);
  }

  // --------------------------------------------- and nothing else is told

  lemma OneSweep(a: seq<Milestone>, b: seq<Milestone>, c: seq<Milestone>, k: nat)
    requires Swept(a, b, k) && Swept(a, c, k) && (k < |a| ==> b[k] == c[k])
    ensures b == c
  {
    forall i | 0 <= i < |a| ensures b[i] == c[i] {}
  }

  lemma OneBirth(b: seq<Milestone>, c: seq<Milestone>, specs: seq<Spec>, base: nat)
    requires Untried(b, specs, base) && Untried(c, specs, base)
    ensures b == c
  {
    forall i | 0 <= i < |b| ensures b[i] == c[i] {}
  }

  lemma OneDivisionAt(a: seq<Milestone>, b: seq<Milestone>, c: seq<Milestone>, k: nat, into: seq<Spec>, base: nat)
    requires DividedAt(a, b, k, into, base) && DividedAt(a, c, k, into, base)
    ensures b == c
  {
    var n := k + |into|;
    OneBirth(b[k..n], c[k..n], into, base);
    assert b == b[..k] + b[k..n] + b[n..] && c == c[..k] + c[k..n] + c[n..];
  }

  lemma OneDivision(a: seq<Milestone>, b: seq<Milestone>, c: seq<Milestone>, id: Id, into: seq<Spec>, base: nat)
    requires UniqueIds(a) && Divided(a, b, id, into, base) && Divided(a, c, id, into, base)
    ensures b == c
  {
    hide DividedAt;
    if !NoRow(a, id) {
      var k :| 0 <= k < |a| && a[k].id == id && DividedAt(a, b, k, into, base);
      var l :| 0 <= l < |a| && a[l].id == id && DividedAt(a, c, l, into, base);
      OneDivisionAt(a, b, c, k, into, base);
    }
  }

  lemma OneAmendment(a: seq<Milestone>, b: seq<Milestone>, c: seq<Milestone>, id: Id, patch: Patch)
    requires Amended(a, b, id, patch) && Amended(a, c, id, patch)
    ensures b == c
  {
    forall i | 0 <= i < |a| ensures b[i] == c[i] {}
  }

  lemma HalfCriteria(spec: Spec, h: seq<Spec>)
    requires Halves(spec, h)
    ensures var mid := (|spec.criteria| + 1) / 2;
            h[0].criteria == spec.criteria[..mid] && h[1].criteria == spec.criteria[mid..]
  {
    var a, b := h[0].criteria, h[1].criteria;
    assert |a| + |b| == |spec.criteria|;
    assert a == (a + b)[..|a|] && b == (a + b)[|a|..];
  }

  lemma OneHalving(spec: Spec, x: seq<Spec>, y: seq<Spec>)
    requires Halves(spec, x) && Halves(spec, y)
    ensures x == y
  {
    HalfCriteria(spec, x);
    HalfCriteria(spec, y);
    assert x[0] == y[0] && x[1] == y[1];
  }

  lemma OneBuildTick(cfg: Config, o: Signals, p: Project, q: Project, s: Project)
    requires BuildTicked(cfg, o, p, q) && BuildTicked(cfg, o, p, s)
    ensures q == s
  {
    hide Swept, AllDone;
    if 0 < cfg.maxMilestones < |p.ms| || o.costOver {
      OneSweep(p.ms, q.ms, s.ms, |p.ms|);
    } else if AllDone(p.ms) {
    } else if !o.dailyOk {
      OneSweep(p.ms, q.ms, s.ms, |p.ms|);
    } else {
      var k: nat :| BuildBegins(cfg, o, p, q, k);
      var l: nat :| BuildBegins(cfg, o, p, s, l);
      OneFirst(p.ms, k, l);
      SweptLength(p.ms, q.ms, k);
      SweptLength(p.ms, s.ms, k);
      OneSweep(p.ms, q.ms, s.ms, k);
    }
  }

  lemma SweptLength(a: seq<Milestone>, b: seq<Milestone>, k: nat)
    requires Swept(a, b, k)
    ensures |b| == |a|
  {
  }

  lemma OneFirst(ms: seq<Milestone>, k: nat, l: nat)
    requires FirstUndone(ms, k) && FirstUndone(ms, l)
    ensures k == l
  {
  }

  lemma OneCadence(cfg: Config, p: Project, q: Project, s: Project)
    requires CadenceChecked(cfg, p, q) && CadenceChecked(cfg, p, s)
    ensures q == s
  {
    hide DoneSince, NoneOpen;
    var n := |DoneSince(p.ms)|;
    if cfg.every > 0 && n > 0 && n % cfg.every == 0 && NoneOpen(p.ms) {
      var k: nat :| ConsolidatesAt(p, q, k);
      var l: nat :| ConsolidatesAt(p, s, l);
      assert k == l;
    }
  }

  lemma OneReplanTick(o: Signals, c: Project, q: Project, s: Project)
    requires ReplanTicked(o, c, q) && ReplanTicked(o, c, s)
    ensures q == s
  {
    hide Halves, DividedAt, FirstUndone, AllDone, Contains;
    if !AllDone(c.ms) {
      var k: nat :| ReplanBegins(o, c, q, k);
      var l: nat :| ReplanBegins(o, c, s, l);
      OneFirst(c.ms, k, l);
      FirstInside(c.ms, k);
      if q.nextId != c.nextId {
        var x: seq<Spec> :| Halves(c.ms[k].spec, x) && DividedAt(c.ms, q.ms, k, x, c.nextId);
        var y: seq<Spec> :| Halves(c.ms[k].spec, y) && DividedAt(c.ms, s.ms, k, y, c.nextId);
        OneHalving(c.ms[k].spec, x, y);
        OneDivisionAt(c.ms, q.ms, s.ms, k, x, c.nextId);
      }
    }
  }

  lemma FirstInside(ms: seq<Milestone>, k: nat)
    requires FirstUndone(ms, k)
    ensures k < |ms|
  {
  }

  lemma OneBuildReply(cfg: Config, p: Project, r: Reply, q: Project, s: Project)
    requires UniqueIds(p.ms) && p.flight.AwaitBuild? && BuildReplied(cfg, p, q, r) && BuildReplied(cfg, p, s, r)
    ensures q == s
  {
    if (r.Built? || r.BuildFailed? || r.BudgetExceeded?) && !NoRow(p.ms, p.flight.mid) {
      var k: nat :| BuildEnds(cfg, p, q, r, k);
      var l: nat :| BuildEnds(cfg, p, s, r, l);
      assert k == l;
      forall i | 0 <= i < |p.ms| ensures q.ms[i] == s.ms[i] {}
    }
  }

  lemma OneTick(cfg: Config, p: Project, o: Signals, q: Project, s: Project)
    requires Ticked(cfg, p, o, q) && Ticked(cfg, p, o, s)
    ensures q == s
  {
    hide BuildTicked, CadenceChecked, ReplanTicked;
    if p.flight.Landed? && !o.globalKill && !p.killed && !p.paused {
      if p.state.Building? { OneBuildTick(cfg, o, p, q, s); }
      if p.state.Replanning? {
        var c :| CadenceChecked(cfg, p, c) && ReplanTicked(o, c, q);
        var d :| CadenceChecked(cfg, p, d) && ReplanTicked(o, d, s);
        OneCadence(cfg, p, c, d);
        OneReplanTick(o, c, q, s);
      }
    }
  }

  lemma OneReply(cfg: Config, p: Project, r: Reply, q: Project, s: Project)
    requires UniqueIds(p.ms) && Replied(cfg, p, r, q) && Replied(cfg, p, r, s)
    ensures q == s
  {
    hide BuildReplied, Amended, Divided, NoRow, Untried, UniqueIds;
    if p.flight.AwaitPlan? && r.Planned? { OneBirth(q.ms, s.ms, r.specs, p.nextId); }
    if p.flight.AwaitBuild? { OneBuildReply(cfg, p, r, q, s); }
    if p.flight.AwaitReplan? && r.Decided? {
      match r.action
      case Amend(id, patch) => OneAmendment(p.ms, q.ms, s.ms, id, patch);
      case Split(id, into, elsewhere) =>
        if !(NoRow(p.ms, id) && !elsewhere) { OneDivision(p.ms, q.ms, s.ms, id, into, p.nextId); }
      case _ =>
    }
  }

  lemma OneResume(cfg: Config, p: Project, q: Project, s: Project)
    requires ResumedTo(cfg, p, q) && ResumedTo(cfg, p, s)
    ensures q == s
  {
    if p.state.Blocked? && cfg.wired {
      forall i | 0 <= i < |p.ms| ensures q.ms[i] == s.ms[i] {}
    }
  }

  lemma OneStep(cfg: Config, p: Project, e: Event, q: Project, s: Project)
    requires UniqueIds(p.ms) && Told(cfg, p, e, q) && Told(cfg, p, e, s)
    ensures q == s
  {
    hide Ticked, Replied, ResumedTo, Swept, Amended, Divided, UniqueIds;
    match e
    case TickStart(o) => OneTick(cfg, p, o, q, s);
    case TickReply(r) => OneReply(cfg, p, r, q, s);
    case Resume => OneResume(cfg, p, q, s);
    case Restart => SweptLength(p.ms, q.ms, |p.ms|); OneSweep(p.ms, q.ms, s.ms, |p.ms|);
    case ForeignSplit(id, into) => OneDivision(p.ms, q.ms, s.ms, id, into, p.nextId);
    case ForeignAmend(target, patch) => OneAmendment(p.ms, q.ms, s.ms, target, patch);
    case _ =>
  }

  /** From any reachable state, a step leads exactly where the account says. */
  lemma AccountIsExact(cfg: Config, p: Project, e: Event, q: Project)
    requires Core(cfg, p)
    ensures Told(cfg, p, e, q) <==> q == Step(cfg, p, e)
  {
    StepsAsTold(cfg, p, e);
    if Told(cfg, p, e, q) { OneStep(cfg, p, e, q, Step(cfg, p, e)); }
    hide Told, Step;
  }

  /** The states of a run, as the account tells them. */
  ghost predicate Chronicle(cfg: Config, es: seq<Event>, ps: seq<Project>) {
    && |ps| == |es| + 1 && ps[0] == NEW_PROJECT
    && forall n | 0 <= n < |es| :: Told(cfg, ps[n], es[n], ps[n+1])
  }

  lemma ChronicleSnoc(cfg: Config, es: seq<Event>, ps: seq<Project>, e: Event, q: Project)
    requires |ps| == |es| + 1
    ensures Chronicle(cfg, es + [e], ps + [q]) <==> Chronicle(cfg, es, ps) && Told(cfg, ps[|es|], e, q)
  {
    hide Told;
    var fs, qs := es + [e], ps + [q];
    assert forall n | 0 <= n <= |es| :: qs[n] == ps[n];
    assert forall n | 0 <= n < |es| :: fs[n] == es[n];
    assert qs[|es|+1] == q && fs[|es|] == e;
    if Chronicle(cfg, fs, qs) {
      forall n | 0 <= n < |es| ensures Told(cfg, ps[n], es[n], ps[n+1]) { assert Told(cfg, qs[n], fs[n], qs[n+1]); }
    }
  }

  /** The states the machine runs through. */
  ghost predicate Trace(cfg: Config, es: seq<Event>, ps: seq<Project>) {
    |ps| == |es| + 1 && forall n | 0 <= n <= |es| :: ps[n] == Exec(cfg, es[..n])
  }

  lemma TraceSnoc(cfg: Config, es: seq<Event>, ps: seq<Project>, e: Event, q: Project)
    requires |ps| == |es| + 1
    ensures Trace(cfg, es + [e], ps + [q]) <==> Trace(cfg, es, ps) && q == Step(cfg, ps[|es|], e)
  {
    hide Step;
    var fs, qs := es + [e], ps + [q];
    assert forall n | 0 <= n <= |es| :: qs[n] == ps[n];
    assert forall n | 0 <= n <= |es| :: fs[..n] == es[..n];
    assert es[..|es|] == es && fs[..|fs|] == fs && qs[|fs|] == q;
    FromSnoc(cfg, NEW_PROJECT, es, e);
    hide From;
    if Trace(cfg, fs, qs) {
      forall n | 0 <= n <= |es| ensures ps[n] == Exec(cfg, es[..n]) { assert qs[n] == Exec(cfg, fs[..n]); }
      assert qs[|fs|] == Exec(cfg, fs[..|fs|]);
    }
  }

  lemma TraceEnds(cfg: Config, es: seq<Event>, ps: seq<Project>)
    requires Trace(cfg, es, ps)
    ensures |ps| == |es| + 1 && ps[|es|] == Exec(cfg, es)
  {
    assert es[..|es|] == es;
  }

  /** A sequence of states is told of some events exactly when it is their run. */
  lemma {:induction false} RunsAreChronicles(cfg: Config, es: seq<Event>, ps: seq<Project>)
    requires |ps| == |es| + 1
    ensures Chronicle(cfg, es, ps) <==> Trace(cfg, es, ps)
  {
    hide Told, Step, Core;
    if es != [] {
      hide Chronicle, Trace, Exec, From;
      var init, e, last := es[..|es|-1], es[|es|-1], ps[..|ps|-1];
      assert es == init + [e] && ps == last + [ps[|es|]];
      RunsAreChronicles(cfg, init, last);
      ChronicleSnoc(cfg, init, last, e, ps[|es|]);
      TraceSnoc(cfg, init, last, e, ps[|es|]);
      if Trace(cfg, init, last) {
        TraceEnds(cfg, init, last);
        Reachable(cfg, init);
        AccountIsExact(cfg, Exec(cfg, init), e, ps[|es|]);
      }
    }
  }
}
