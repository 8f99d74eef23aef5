/** What stops a project and what does not: terminal states, abort, pause. */
module Halting {
  import opened Lifecycle
  import opened Graph
  import opened Machine
  import opened NothingSkipped

  predicate Terminal(s: ProjectState) {
    s.Done? || s.Killed?
  }

  /** No command, crash, restart or late reply revives a finished project. */
  lemma {:induction false} TerminalForEver(cfg: Config, before: seq<Event>, after: seq<Event>)
    requires Terminal(Exec(cfg, before).state)
    ensures Exec(cfg, before + after).state == Exec(cfg, before).state
  {
    hide Step, LegalProject;
    if after == [] {
      assert before + after == before;
    } else {
      var init, e := after[..|after|-1], after[|after|-1];
      assert before + after == before + init + [e];
      TerminalForEver(cfg, before, init);
      EdgesAreLegal(cfg, before + init, e);
      TerminalHasNoEdge(Exec(cfg, before).state);
    }
  }

  lemma TerminalHasNoEdge(s: ProjectState)
    requires Terminal(s)
    ensures forall t :: !LegalProject(s, t)
  {
  }

  // ----------------------------------------------------------------- abort

  /** Neither resumed nor forgotten: the flag lives in a store that a reset of its
      container wipes. */
  ghost predicate NeverLifted(es: seq<Event>) {
    forall n | 0 <= n < |es| :: !es[n].Resume? && !es[n].KillLost?
  }

  /** No crew is called any more, save one already at work. */
  ghost predicate Stopped(before: Project, p: Project) {
    p.killed && (Waiting(p.flight) ==> p.flight == before.flight)
  }

  /** The first tick to start kills the project. */
  lemma StopsStep(cfg: Config, before: Project, p: Project, e: Event)
    requires Stopped(before, p) && !e.Resume? && !e.KillLost?
    ensures Stopped(before, Step(cfg, p, e))
    ensures e.TickStart? && !e.o.globalKill && p.flight.Landed? && Advanceable(p.state) ==>
              Step(cfg, p, e).state.Killed?
  {
    hide SetState, RecordAttempt, Apply, StartBuild, StartReplan;
    if e.TickReply? && Waiting(p.flight) { ReplyLands(cfg, p, e.r); }
  }

  lemma ReplyLands(cfg: Config, p: Project, r: Reply)
    requires Waiting(p.flight)
    ensures !Waiting(Finish(cfg, p, r).flight) && Finish(cfg, p, r).killed == p.killed
  {
    hide LegalProject, SetState, RecordAttempt, ReplaceWith, UpdateSpec, Newborns, Has;
  }

  /** After an abort no crew is called again as long as the flag stands. */
  lemma {:induction false} AbortStops(cfg: Config, p: Project, es: seq<Event>)
    requires NeverLifted(es)
    ensures Stopped(p, From(cfg, Step(cfg, p, Abort), es))
  {
    if es != [] {
      AbortStops(cfg, p, es[..|es|-1]);
      hide Step;
      StopsStep(cfg, p, From(cfg, Step(cfg, p, Abort), es[..|es|-1]), es[|es|-1]);
    }
  }

  /** An abort whose flag is lost before the next tick has stopped nothing. */
  lemma AbortForgotten(cfg: Config, p: Project)
    requires !p.killed
    ensures From(cfg, p, [Abort] + [KillLost]) == p
  {
    assert [Abort][..0] == [] && From(cfg, p, [Abort]) == Step(cfg, p, Abort);
    FromSnoc(cfg, p, [Abort], KillLost);
  }

  // ----------------------------------------------------------------- pause

  /** No crew is called any more, save one already at work. */
  ghost predicate Frozen(before: Project, p: Project) {
    p.paused && !p.killed && (Waiting(p.flight) ==> p.flight == before.flight)
  }

  /** In a paused project only the late reply, or the pool's reaction to its
      raise, moves anything, and it is the last to do so. */
  lemma FrozenStep(cfg: Config, before: Project, p: Project, e: Event)
    requires Frozen(before, p) && !OperatorCommand(e)
    ensures var q := Step(cfg, p, e);
            && Frozen(before, q)
            && (p.flight.Landed? ==> q.flight.Landed? && q.state == p.state)
            && (q.state != p.state ==> q.flight.Landed? && (e.TickReply? || e.Fallout?))
  {
    hide SetState, RecordAttempt, Apply, StartBuild, StartReplan, Reclaim, ReplaceWith, UpdateSpec;
    if e.TickReply? && Waiting(p.flight) { ReplyLands(cfg, p, e.r); FinishSettles(cfg, p, e.r); }
  }

  lemma FinishSettles(cfg: Config, p: Project, r: Reply)
    requires Waiting(p.flight)
    ensures var q := Finish(cfg, p, r); q.paused == p.paused && (q.state != p.state ==> q.flight.Landed?)
  {
    hide LegalProject, SetState, RecordAttempt, ReplaceWith, UpdateSpec, Newborns, Has;
  }

  /** From a pause to the next command, through ticks, restarts and whatever other
      projects do, no crew is called, and the project moves at most once: when a
      call was under way, by its reply. */
  lemma {:induction false} PauseHolds(cfg: Config, p: Project, es: seq<Event>)
    requires !p.killed && Unattended(es)
    ensures var paused := Step(cfg, p, Pause);
            var q := From(cfg, paused, es);
            && Frozen(p, q)
            && Advances(cfg, paused, es) + (if q.flight.Landed? then 0 else 1) <= if p.flight.Landed? then 0 else 1
  {
    if es != [] {
      var init, e := es[..|es|-1], es[|es|-1];
      PauseHolds(cfg, p, init);
      hide Step;
      FrozenStep(cfg, p, From(cfg, Step(cfg, p, Pause), init), e);
    }
  }

  /** Events of this orchestrator alone, restarts included. */
  ghost predicate Scheduled(es: seq<Event>) {
    forall n | 0 <= n < |es| :: es[n].TickStart? || es[n].TickReply? || es[n].Fallout? || es[n].Restart?
  }

  ghost predicate Restarted(es: seq<Event>) {
    exists n :: 0 <= n < |es| && es[n].Restart?
  }

  lemma {:induction false} PausedStands(cfg: Config, p: Project, es: seq<Event>)
    requires p.paused && !p.killed && p.flight.Landed? && Scheduled(es)
    ensures From(cfg, p, es) == if Restarted(es) then p.(ms := Reclaim(p.ms)) else p
  {
    if es != [] {
      var init, e := es[..|es|-1], es[|es|-1];
      PausedStands(cfg, p, init);
      RestartedSnoc(es);
      assert Reclaim(Reclaim(p.ms)) == Reclaim(p.ms);
    }
  }

  lemma RestartedSnoc(es: seq<Event>)
    requires es != []
    ensures Restarted(es) <==> Restarted(es[..|es|-1]) || es[|es|-1].Restart?
  {
    var init := es[..|es|-1];
    if Restarted(init) {
      var n :| 0 <= n < |init| && init[n].Restart?;
      assert es[n].Restart?;
    }
    if Restarted(es) && !es[|es|-1].Restart? {
      var n :| 0 <= n < |es| && es[n].Restart?;
      assert init[n].Restart?;
    }
  }

  /** Pausing is undone by resuming: however many ticks and restarts came in
      between, a project that is not blocked continues from exactly where it was,
      but for rows a restart has requeued. */
  lemma PauseRoundTrip(cfg: Config, p: Project, es: seq<Event>)
    requires p.flight.Landed? && !p.killed && !p.paused && !p.state.Blocked? && Scheduled(es)
    ensures From(cfg, p, [Pause] + es + [Resume]) == if Restarted(es) then p.(ms := Reclaim(p.ms)) else p
  {
    var paused := Step(cfg, p, Pause);
    assert [Pause][..0] == [] && From(cfg, p, [Pause]) == paused;
    FromConcat(cfg, p, [Pause], es);
    PausedStands(cfg, paused, es);
    FromSnoc(cfg, p, [Pause] + es, Resume);
  }
}
