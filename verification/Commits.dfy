/** The commit of a milestone is the one its build reported: over every run a
    row has none until it is done, and then that of the reply that finished it. */
module Commits {
  import opened Lifecycle
  import opened Graph
  import opened Rewrites
  import Consolidation
  import AutoSplit
  import opened Machine
  import opened RunInvariant
  import opened Effects

  predicate Bare(m: Milestone) {
    !m.state.Done? && m.commit.None?
  }

  /** Rows not done have no commit. */
  ghost predicate Uncommitted(ms: seq<Milestone>) {
    forall i | 0 <= i < |ms| && !ms[i].state.Done? :: ms[i].commit.None?
  }

  /** A done row of the list with the id and commit of `m`. */
  ghost predicate DoneIn(ms: seq<Milestone>, m: Milestone) {
    exists i :: 0 <= i < |ms| && ms[i].state.Done? && ms[i].id == m.id && ms[i].commit == m.commit
  }

  ghost predicate NothingNew(a: seq<Milestone>, b: seq<Milestone>) {
    forall j | 0 <= j < |b| :: Bare(b[j]) || (b[j].state.Done? && DoneIn(a, b[j]))
  }

  /** The reply finishes the build of `m` and names its commit, if any. */
  predicate Finishes(p: Project, e: Event, m: Milestone) {
    p.flight.AwaitBuild? && p.flight.mid == m.id && e.TickReply? && e.r.Built? && m.commit == e.r.commit
  }

  ghost predicate Told(p: Project, e: Event, q: Project) {
    forall j | 0 <= j < |q.ms| ::
      Bare(q.ms[j]) || (q.ms[j].state.Done? && (DoneIn(p.ms, q.ms[j]) || Finishes(p, e, q.ms[j])))
  }

  // ------------------------------------------------------ kinds of writes

  lemma KeptRow(a: seq<Milestone>, i: nat, m: Milestone)
    requires Uncommitted(a) && i < |a| && m.id == a[i].id && m.commit == a[i].commit
    requires m.state.Done? <==> a[i].state.Done?
    ensures Bare(m) || (m.state.Done? && DoneIn(a, m))
  {
  }

  lemma SweptTells(a: seq<Milestone>, b: seq<Milestone>, k: nat)
    requires Uncommitted(a) && Swept(a, b, k)
    requires k < |a| ==> !a[k].state.Done? && !b[k].state.Done? && b[k].id == a[k].id && b[k].commit == a[k].commit
    ensures NothingNew(a, b)
  {
    forall j | 0 <= j < |b| ensures Bare(b[j]) || (b[j].state.Done? && DoneIn(a, b[j])) { KeptRow(a, j, b[j]); }
  }

  lemma DividedTells(a: seq<Milestone>, b: seq<Milestone>, k: nat, into: seq<Spec>, base: nat)
    requires Uncommitted(a) && DividedAt(a, b, k, into, base)
    ensures NothingNew(a, b)
  {
    forall j | 0 <= j < |b| ensures Bare(b[j]) || (b[j].state.Done? && DoneIn(a, b[j])) {
      if j < k {
        assert b[j] == b[..k][j] == a[..k][j];
        KeptRow(a, j, b[j]);
      } else if j < k + |into| {
        assert b[j] == b[k..k+|into|][j-k];
      } else {
        assert b[j] == b[k+|into|..][j-k-|into|] == a[k+1..][j-k-|into|];
        KeptRow(a, j - |into| + 1, b[j]);
      }
    }
  }

  lemma SplitTells(a: seq<Milestone>, b: seq<Milestone>, id: Id, into: seq<Spec>, base: nat)
    requires Uncommitted(a) && Divided(a, b, id, into, base)
    ensures NothingNew(a, b)
  {
    if NoRow(a, id) {
      SameTells(a);
    } else {
      var k :| 0 <= k < |a| && a[k].id == id && DividedAt(a, b, k, into, base);
      DividedTells(a, b, k, into, base);
    }
  }

  lemma SameTells(a: seq<Milestone>)
    requires Uncommitted(a)
    ensures NothingNew(a, a)
  {
    forall j | 0 <= j < |a| ensures Bare(a[j]) || (a[j].state.Done? && DoneIn(a, a[j])) { KeptRow(a, j, a[j]); }
  }

  lemma AmendedTells(a: seq<Milestone>, b: seq<Milestone>, id: Id, patch: Patch)
    requires Uncommitted(a) && Amended(a, b, id, patch)
    ensures NothingNew(a, b)
  {
    forall j | 0 <= j < |b| ensures Bare(b[j]) || (b[j].state.Done? && DoneIn(a, b[j])) { KeptRow(a, j, b[j]); }
  }

  lemma Chained(a: seq<Milestone>, b: seq<Milestone>, c: seq<Milestone>)
    requires NothingNew(a, b) && NothingNew(b, c)
    ensures NothingNew(a, c) && Uncommitted(b)
  {
    forall j | 0 <= j < |c| ensures Bare(c[j]) || (c[j].state.Done? && DoneIn(a, c[j])) {
      if !Bare(c[j]) {
        var i :| 0 <= i < |b| && b[i].state.Done? && b[i].id == c[j].id && b[i].commit == c[j].commit;
        assert DoneIn(a, b[i]);
      }
    }
  }

  // ------------------------------------------------------------- one step

  lemma BuildStartTells(cfg: Config, p: Project, o: Signals)
    requires Core(cfg, p) && p.state.Building? && Free(p, o) && Uncommitted(p.ms)
    ensures NothingNew(p.ms, Step(cfg, p, TickStart(o)).ms)
  {
    hide Step, Core, NothingNew, Uncommitted, Swept;
    BuildTick(cfg, p, o);
    var q := Step(cfg, p, TickStart(o));
    if 0 < cfg.maxMilestones < |p.ms| || o.costOver || (!AllDone(p.ms) && !o.dailyOk) {
      SweptTells(p.ms, q.ms, |p.ms|);
    } else if AllDone(p.ms) {
      SameTells(p.ms);
    } else {
      var k :| BuildBegins(cfg, o, p, q, k);
      SweptTells(p.ms, q.ms, k);
    }
  }

  lemma CadenceTells(cfg: Config, p: Project)
    requires Uncommitted(p.ms)
    ensures NothingNew(p.ms, Consolidate(cfg, p).ms)
  {
    hide Consolidation.DoneSince, Consolidation.NoneOpen, Consolidate;
    CadenceTick(cfg, p);
    var q := Consolidate(cfg, p);
    if q == p {
      SameTells(p.ms);
    } else {
      var k :| ConsolidatesAt(p, q, k);
      forall j | 0 <= j < |q.ms| ensures Bare(q.ms[j]) || (q.ms[j].state.Done? && DoneIn(p.ms, q.ms[j])) {
        if j != k { KeptRow(p.ms, if j < k then j else j - 1, q.ms[j]); }
      }
    }
  }

  lemma ReplanStartTells(cfg: Config, p: Project, o: Signals)
    requires Core(cfg, p) && p.state.Replanning? && Free(p, o) && Uncommitted(p.ms)
    ensures NothingNew(p.ms, Step(cfg, p, TickStart(o)).ms)
  {
    hide Step, Core, NothingNew, Uncommitted, Consolidate, Halves, DividedAt;
    ReplanTick(cfg, p, o);
    CadenceTells(cfg, p);
    var q, c := Step(cfg, p, TickStart(o)), Consolidate(cfg, p);
    if q.ms != c.ms {
      var k: nat :| ReplanBegins(o, c, q, k);
      var into: seq<Spec> :| Halves(c.ms[k].spec, into) && DividedAt(c.ms, q.ms, k, into, c.nextId);
      CommittedBetween(p.ms, c.ms);
      DividedTells(c.ms, q.ms, k, into, c.nextId);
      Chained(p.ms, c.ms, q.ms);
    }
  }

  lemma CommittedBetween(a: seq<Milestone>, b: seq<Milestone>)
    requires NothingNew(a, b)
    ensures Uncommitted(b)
  {
  }

  lemma StartTells(cfg: Config, p: Project, o: Signals)
    requires Core(cfg, p) && Uncommitted(p.ms)
    ensures NothingNew(p.ms, Step(cfg, p, TickStart(o)).ms)
  {
    hide Core, NothingNew, Uncommitted, StartBuild, StartReplan;
    SameTells(p.ms);
    if Free(p, o) {
      CallingTick(cfg, p, o);
      if p.state.Building? { BuildStartTells(cfg, p, o); }
      if p.state.Replanning? { ReplanStartTells(cfg, p, o); }
    } else if p.flight.Landed? && Advanceable(p.state) {
      HeldTick(cfg, p, o);
    }
  }

  lemma BuildReplyTells(cfg: Config, p: Project, r: Reply)
    requires Core(cfg, p) && Uncommitted(p.ms) && p.flight.AwaitBuild?
    ensures Told(p, TickReply(r), Step(cfg, p, TickReply(r)))
  {
    hide Step, Core, NoRow;
    BuildReply(cfg, p, r);
    BuiltRowIsOpen(cfg, p);
    var q := Step(cfg, p, TickReply(r));
    if q.ms == p.ms {
      SameTells(p.ms);
    } else {
      var k :| BuildEnds(cfg, p, q, r, k);
      forall j | 0 <= j < |q.ms| && j != k ensures Bare(q.ms[j]) || (q.ms[j].state.Done? && DoneIn(p.ms, q.ms[j])) {
        KeptRow(p.ms, j, q.ms[j]);
      }
    }
  }

  lemma BuiltRowIsOpen(cfg: Config, p: Project)
    requires Core(cfg, p) && p.flight.AwaitBuild?
    ensures forall i | 0 <= i < |p.ms| && p.ms[i].id == p.flight.mid :: p.ms[i].state.Building?
  {
  }

  lemma ReplyTells(cfg: Config, p: Project, r: Reply)
    requires Core(cfg, p) && Uncommitted(p.ms)
    ensures Told(p, TickReply(r), Step(cfg, p, TickReply(r)))
  {
    hide Core, Uncommitted, Finish, Divided, Amended;
    SameTells(p.ms);
    match p.flight
    case AwaitPlan => if r.Planned? { PlanReply(cfg, p, r.specs); } else { CrewCrash(cfg, p, r); }
    case AwaitBuild(_, _) => BuildReplyTells(cfg, p, r);
    case AwaitReplan => if r.Decided? { DecisionTells(cfg, p, r.action); } else { CrewCrash(cfg, p, r); }
    case AwaitCi => CiReply(cfg, p, r);
    case _ =>
  }

  lemma DecisionTells(cfg: Config, p: Project, a: Action)
    requires Core(cfg, p) && Uncommitted(p.ms) && p.flight.AwaitReplan?
    ensures NothingNew(p.ms, Step(cfg, p, TickReply(Decided(a))).ms)
  {
    hide Core, Uncommitted, Step, Divided, Amended, NothingNew;
    DecisionReply(cfg, p, a);
    SameTells(p.ms);
    var q := Step(cfg, p, TickReply(Decided(a)));
    if a.Amend? { AmendedTells(p.ms, q.ms, a.id, a.patch); }
    if a.Split? && !q.flight.Raised? { SplitTells(p.ms, q.ms, a.id, a.into, p.nextId); }
  }

  lemma ResumeTells(cfg: Config, p: Project)
    requires Uncommitted(p.ms)
    ensures NothingNew(p.ms, Step(cfg, p, Resume).ms)
  {
    hide Step;
    ResumeEffect(cfg, p);
    var q := Step(cfg, p, Resume);
    forall j | 0 <= j < |q.ms| ensures Bare(q.ms[j]) || (q.ms[j].state.Done? && DoneIn(p.ms, q.ms[j])) {
      KeptRow(p.ms, j, q.ms[j]);
    }
  }

  lemma OutsideTells(cfg: Config, p: Project, e: Event)
    requires Core(cfg, p) && Uncommitted(p.ms) && !e.TickStart? && !e.TickReply?
    ensures NothingNew(p.ms, Step(cfg, p, e).ms)
  {
    hide Core, Uncommitted, NothingNew, Divided, Amended, Swept, OnResume;
    SameTells(p.ms);
    var q := Step(cfg, p, e);
    match e
    case Resume => ResumeTells(cfg, p);
    case Restart => RestartEffect(cfg, p); SweptTells(p.ms, q.ms, |p.ms|);
    case ForeignSplit(id, into) => ForeignEffect(cfg, p, e); SplitTells(p.ms, q.ms, id, into, p.nextId);
    case ForeignAmend(target, patch) => ForeignEffect(cfg, p, e); AmendedTells(p.ms, q.ms, target, patch);
    case _ =>
  }

  lemma StepTells(cfg: Config, p: Project, e: Event)
    requires Core(cfg, p) && Uncommitted(p.ms)
    ensures Told(p, e, Step(cfg, p, e))
  {
    hide Core, Uncommitted, Step;
    if e.TickStart? { StartTells(cfg, p, e.o); }
    else if e.TickReply? { ReplyTells(cfg, p, e.r); }
    else { OutsideTells(cfg, p, e); }
  }

  // ------------------------------------------------------------ every run

  /** The n-th event is the reply that finished the build of `m`. */
  ghost predicate FinishedAt(cfg: Config, es: seq<Event>, n: nat, m: Milestone) {
    n < |es| && Finishes(Exec(cfg, es[..n]), es[n], m)
  }

  ghost predicate Accounted(cfg: Config, es: seq<Event>, m: Milestone) {
    if m.state.Done? then exists n :: FinishedAt(cfg, es, n, m) else m.commit.None?
  }

  lemma Earlier(cfg: Config, es: seq<Event>, e: Event, m: Milestone, x: Milestone)
    requires x.state.Done? && m.state.Done? && x.id == m.id && x.commit == m.commit && Accounted(cfg, es, x)
    ensures Accounted(cfg, es + [e], m)
  {
    hide Step, From, Exec;
    var n: nat :| FinishedAt(cfg, es, n, x);
    assert n < |es|;
    assert (es + [e])[n] == es[n];
    assert (es + [e])[..n] == es[..n];
    assert FinishedAt(cfg, es + [e], n, m);
  }

  /** A milestone has no commit until it is done, and then the commit, or none,
      that the reply which finished its build gave: whatever splits, amends,
      restarts and commands came in between. */
  lemma {:induction false} CommitsAreTrue(cfg: Config, es: seq<Event>)
    ensures forall i | 0 <= i < |Exec(cfg, es).ms| :: Accounted(cfg, es, Exec(cfg, es).ms[i])
  {
    hide Core, Step, Accounted;
    if es != [] {
      var init, e := es[..|es|-1], es[|es|-1];
      assert es == init + [e];
      CommitsAreTrue(cfg, init);
      Reachable(cfg, init);
      var p, q := Exec(cfg, init), Exec(cfg, es);
      AccountedBare(cfg, init);
      StepTells(cfg, p, e);
      forall j | 0 <= j < |q.ms| ensures Accounted(cfg, es, q.ms[j]) {
        if q.ms[j].state.Done? && DoneIn(p.ms, q.ms[j]) {
          var i :| 0 <= i < |p.ms| && p.ms[i].state.Done?
                   && p.ms[i].id == q.ms[j].id && p.ms[i].commit == q.ms[j].commit;
          Earlier(cfg, init, e, q.ms[j], p.ms[i]);
        } else {
          JustNow(cfg, init, e, q.ms[j]);
        }
      }
    }
  }

  lemma JustNow(cfg: Config, init: seq<Event>, e: Event, m: Milestone)
    requires Bare(m) || (m.state.Done? && Finishes(Exec(cfg, init), e, m))
    ensures Accounted(cfg, init + [e], m)
  {
    if m.state.Done? {
      assert (init + [e])[..|init|] == init;
      assert FinishedAt(cfg, init + [e], |init|, m);
    }
  }

  lemma AccountedBare(cfg: Config, es: seq<Event>)
    requires forall i | 0 <= i < |Exec(cfg, es).ms| :: Accounted(cfg, es, Exec(cfg, es).ms[i])
    ensures Uncommitted(Exec(cfg, es).ms)
  {
    var ms := Exec(cfg, es).ms;
    forall i | 0 <= i < |ms| && !ms[i].state.Done? ensures ms[i].commit.None? { assert Accounted(cfg, es, ms[i]); }
  }
}
