/** Why a tick raises for a row that is not there. */
module RaiseCauses {
  import opened Lifecycle
  import opened Graph
  import opened Machine
  import opened RunInvariant

  /** The project's own replanner names an id that no row has. */
  predicate NamesNobody(p: Project, e: Event) {
    && p.flight.AwaitReplan? && e.TickReply? && e.r.Decided? && e.r.action.Split?
    && !Has(p.ms, e.r.action.id) && !e.r.action.elsewhere
  }

  /** The row being built is gone when its build comes back. */
  predicate LosesRow(p: Project, e: Event) {
    && p.flight.AwaitBuild? && !Has(p.ms, p.flight.mid)
    && e.TickReply? && (e.r.Built? || e.r.BuildFailed? || e.r.BudgetExceeded?)
  }

  lemma StartNeverMisses(cfg: Config, p: Project, o: Signals)
    requires Core(cfg, p) && p.flight.Landed?
    ensures Start(cfg, p, o).flight != Raised(NoSuchRow)
  {
    hide StartBuild, StartReplan, UniqueIds, IdsBelow;
    if p.state.Building? { StartBuildShape(cfg, p, o); }
    if p.state.Replanning? { StartReplanShape(cfg, p, o); }
  }

  lemma FinishMisses(cfg: Config, p: Project, r: Reply)
    requires Core(cfg, p) && Waiting(p.flight)
    ensures Finish(cfg, p, r).flight == Raised(NoSuchRow) <==>
              NamesNobody(p, TickReply(r)) || LosesRow(p, TickReply(r))
  {
    hide Newborns, UpdateSpec, ReplaceWith;
    if p.flight.AwaitBuild? && (r.Built? || r.BuildFailed? || r.BudgetExceeded?) { FinishBuildShape(cfg, p, r); }
  }

  /** A step raises for a missing row exactly in these two cases. */
  lemma MissingRowIff(cfg: Config, es: seq<Event>, e: Event)
    requires !Exec(cfg, es).flight.Raised?
    ensures Exec(cfg, es + [e]).flight == Raised(NoSuchRow) <==>
              NamesNobody(Exec(cfg, es), e) || LosesRow(Exec(cfg, es), e)
  {
    hide Start, Finish, Core, Has;
    Reachable(cfg, es);
    FromSnoc(cfg, NEW_PROJECT, es, e);
    var p := Exec(cfg, es);
    match e
    case TickStart(o) => if p.flight.Landed? { StartNeverMisses(cfg, p, o); }
    case TickReply(r) => if Waiting(p.flight) { FinishMisses(cfg, p, r); }
    case _ =>
  }

  // ----------------------------------------------- who took the row away

  ghost predicate SplitFromOutside(es: seq<Event>, id: Id) {
    exists n :: 0 <= n < |es| && es[n].ForeignSplit? && es[n].id == id
  }

  lemma BuildStartsOnARow(cfg: Config, p: Project, o: Signals)
    requires Core(cfg, p) && p.flight.Landed?
    ensures var q := Start(cfg, p, o); q.flight.AwaitBuild? ==> Has(q.ms, q.flight.mid)
  {
    hide StartBuild, StartReplan;
    if p.state.Building? {
      StartBuildShape(cfg, p, o);
      StartBuildKeeps(cfg, p, o);
      var q, k := StartBuild(cfg, p, o), NextPending(Reclaim(p.ms));
      if q.flight.AwaitBuild? { IndexOfAt(q.ms, k); }
    }
    if p.state.Replanning? { StartReplanShape(cfg, p, o); }
  }

  /** While a build is under way only a foreign Split takes its row. */
  lemma RowStays(cfg: Config, p: Project, e: Event)
    requires Core(cfg, p) && p.flight.AwaitBuild? && Has(p.ms, p.flight.mid)
    requires Step(cfg, p, e).flight == p.flight
    ensures Has(Step(cfg, p, e).ms, p.flight.mid) || (e.ForeignSplit? && e.id == p.flight.mid)
  {
    hide Start, StartBuild, StartReplan, Merge, UniqueIds, IdsBelow;
    var k := IndexOf(p.ms, p.flight.mid);
    if e.TickReply? {
      ReplyEndsBuild(cfg, p, e.r);
    } else if e.ForeignSplit? {
      if e.id != p.flight.mid { StillHas(p.ms, e.id, e.into, p.nextId, p.flight.mid); }
    } else {
      assert Step(cfg, p, e).ms[k].id == p.flight.mid;
    }
  }

  lemma ReplyEndsBuild(cfg: Config, p: Project, r: Reply)
    requires p.flight.AwaitBuild?
    ensures Finish(cfg, p, r).flight != p.flight
  {
    hide SetState, RecordAttempt, LegalProject;
  }

  lemma StillHas(ms: seq<Milestone>, id: Id, into: seq<Spec>, base: nat, other: Id)
    requires id != other && Has(ms, other)
    ensures Has(ReplaceWith(ms, id, into, base), other)
  {
    var k, i := IndexOf(ms, other), IndexOf(ms, id);
    var after := ReplaceWith(ms, id, into, base);
    assert i < |ms| ==> after[if k < i then k else k - 1 + |into|] == ms[k];
  }

  /** A row lost during its build was split by another project's replanner. */
  lemma {:induction false} LostToASplit(cfg: Config, es: seq<Event>)
    requires Exec(cfg, es).flight.AwaitBuild? && !Has(Exec(cfg, es).ms, Exec(cfg, es).flight.mid)
    ensures SplitFromOutside(es, Exec(cfg, es).flight.mid)
  {
    if es != [] {
      var init, e := es[..|es|-1], es[|es|-1];
      var p, q := Exec(cfg, init), Exec(cfg, es);
      Reachable(cfg, init);
      hide Core, Has, Start, Finish;
      if q.flight == p.flight {
        if !Has(p.ms, p.flight.mid) {
          LostToASplit(cfg, init);
          var n :| 0 <= n < |init| && init[n].ForeignSplit? && init[n].id == p.flight.mid;
          assert es[n] == init[n];
        } else {
          RowStays(cfg, p, e);
        }
      } else if e.TickStart? {
        BuildStartsOnARow(cfg, p, e.o);
      } else {
        OnlyTicksStartBuilds(cfg, p, e);
      }
    }
  }

  lemma OnlyTicksStartBuilds(cfg: Config, p: Project, e: Event)
    requires !e.TickStart?
    ensures Step(cfg, p, e).flight == p.flight || !Step(cfg, p, e).flight.AwaitBuild?
  {
    hide SetState, RecordAttempt, LegalProject, ReplaceWith, UpdateSpec, Newborns;
  }
}
