/** Theorems about one project's runs, restated for any interleaving of the pool:
    their conditions become conditions on pool steps. */
module PoolLifts {
  import opened Machine
  import opened Backoff
  import opened DonePrefix
  import Bounded
  import opened Pool
  import opened PoolRuns

  // -------------------------------------------------- from a state onwards

  ghost function RunFrom(cfg: Config, s: State, steps: seq<PoolStep>): State {
    if steps == [] then s else Advance(cfg, RunFrom(cfg, s, steps[..|steps|-1]), steps[|steps|-1])
  }

  /** What project `pid` lives through in these steps. */
  ghost function Later(cfg: Config, s: State, steps: seq<PoolStep>, pid: Pid): seq<Event> {
    if steps == [] then []
    else
      var init := steps[..|steps|-1];
      Later(cfg, s, init, pid) + Events(cfg, RunFrom(cfg, s, init), steps[|steps|-1], pid)
  }

  lemma {:induction false} RunConcat(cfg: Config, workers: nat, a: seq<PoolStep>, b: seq<PoolStep>)
    ensures Run(cfg, workers, a + b) == RunFrom(cfg, Run(cfg, workers, a), b)
  {
    hide Advance;
    if b == [] {
      assert a + b == a;
    } else {
      assert (a + b)[..|a + b|-1] == a + b[..|b|-1];
      RunConcat(cfg, workers, a, b[..|b|-1]);
    }
  }

  lemma {:induction false} LivesOn(cfg: Config, s: State, steps: seq<PoolStep>, pid: Pid)
    requires Safe(s) && pid in s.db
    ensures var t := RunFrom(cfg, s, steps);
            Safe(t) && pid in t.db && View(t, pid) == From(cfg, View(s, pid), Later(cfg, s, steps, pid))
  {
    hide Safe, Advance, View, Events;
    if steps != [] {
      var init, a := steps[..|steps|-1], steps[|steps|-1];
      var t := RunFrom(cfg, s, init);
      LivesOn(cfg, s, init, pid);
      AdvanceSafe(cfg, t, a);
      StepProjects(cfg, t, a, pid);
      FromConcat(cfg, View(s, pid), Later(cfg, s, init, pid), Events(cfg, t, a, pid));
    }
  }

  // --------------------------------------------------------- bounded moves

  /** No command for this project; the others' do not matter. */
  ghost predicate Uncommanded(steps: seq<PoolStep>, pid: Pid) {
    forall n | 0 <= n < |steps| :: !(steps[n].Command? && steps[n].pid == pid)
  }

  /** Pool steps that change the stored state of `pid`. */
  ghost function Moves(cfg: Config, s: State, steps: seq<PoolStep>, pid: Pid): nat {
    if steps == [] then 0
    else
      var t := RunFrom(cfg, s, steps[..|steps|-1]);
      var u := Advance(cfg, t, steps[|steps|-1]);
      Moves(cfg, s, steps[..|steps|-1], pid)
      + if pid in t.db && pid in u.db && u.db[pid].state != t.db[pid].state then 1 else 0
  }

  lemma EventsUncommanded(cfg: Config, s: State, a: PoolStep, pid: Pid)
    requires !(a.Command? && a.pid == pid)
    ensures Unattended(Events(cfg, s, a, pid))
  {
    hide Advance;
  }

  lemma OneEventAdvances(cfg: Config, p: Project, es: seq<Event>)
    requires |es| <= 1
    ensures Advances(cfg, p, es) == if From(cfg, p, es).state != p.state then 1 else 0
  {
    hide Step;
    if es != [] { assert es[..|es|-1] == []; }
  }

  lemma StateIsViewed(s: State, pid: Pid)
    requires pid in s.db
    ensures View(s, pid).state == s.db[pid].state && View(s, pid).ms == s.db[pid].ms && View(s, pid).nextId == s.nextId
  {
  }

  lemma MovesSnoc(cfg: Config, s: State, init: seq<PoolStep>, a: PoolStep, pid: Pid)
    requires Safe(s) && pid in s.db && !(a.Command? && a.pid == pid)
    ensures var t := RunFrom(cfg, s, init);
            var u, es := Advance(cfg, t, a), Events(cfg, t, a, pid);
            && pid in t.db && pid in u.db && Unattended(es)
            && Advances(cfg, View(s, pid), Later(cfg, s, init, pid) + es)
                 == Advances(cfg, View(s, pid), Later(cfg, s, init, pid))
                    + if u.db[pid].state != t.db[pid].state then 1 else 0
  {
    hide Safe, Advance, View, Events, RunFrom, Later, Step, From;
    var t := RunFrom(cfg, s, init);
    LivesOn(cfg, s, init, pid);
    StepProjects(cfg, t, a, pid);
    EventsUncommanded(cfg, t, a, pid);
    AtMostOneEvent(cfg, t, a, pid);
    OneEventAdvances(cfg, View(t, pid), Events(cfg, t, a, pid));
    StateIsViewed(t, pid);
    StateIsViewed(Advance(cfg, t, a), pid);
    AdvancesConcat(cfg, View(s, pid), Later(cfg, s, init, pid), Events(cfg, t, a, pid));
  }

  lemma {:induction false} MovesAreAdvances(cfg: Config, s: State, steps: seq<PoolStep>, pid: Pid)
    requires Safe(s) && pid in s.db && Uncommanded(steps, pid)
    ensures Unattended(Later(cfg, s, steps, pid))
    ensures Moves(cfg, s, steps, pid) == Advances(cfg, View(s, pid), Later(cfg, s, steps, pid))
  {
    hide Safe, Advance, View, Events, RunFrom, Step, From;
    if steps != [] {
      var init, a := steps[..|steps|-1], steps[|steps|-1];
      assert Uncommanded(init, pid);
      MovesAreAdvances(cfg, s, init, pid);
      MovesSnoc(cfg, s, init, a, pid);
    }
  }

  /** With the cap on, whatever workers, other projects, their operators and
      restarts do, the stored state of a project changes at most Ceiling + 2
      times between two commands of its own. */
  lemma PoolBoundedRuns(cfg: Config, workers: nat, before: seq<PoolStep>, steps: seq<PoolStep>, pid: Pid)
    requires cfg.maxMilestones > 0 && pid in Run(cfg, workers, before).db && Uncommanded(steps, pid)
    ensures Moves(cfg, Run(cfg, workers, before), steps, pid) <= Bounded.Ceiling(cfg) + 2
  {
    hide Safe, Run, Bounded.Ceiling;
    var s := Run(cfg, workers, before);
    RunSafe(cfg, workers, before);
    EveryProjectLivesARun(cfg, workers, before, pid);
    MovesAreAdvances(cfg, s, steps, pid);
    Bounded.BoundedRuns(cfg, History(cfg, workers, before, pid), Later(cfg, s, steps, pid));
  }

  // --------------------------------------------------- done rows for ever

  /** A worker returns with a Split of a row of `pid` that is done. */
  predicate ReturnsSplitOfDone(s: State, a: PoolStep, pid: Pid)
    requires pid in s.db
  {
    a.Return? && a.r.Decided? && a.r.action.Split? && IsDoneRow(s.db[pid].ms, a.r.action.id)
  }

  ghost predicate PoolSparesDone(cfg: Config, workers: nat, steps: seq<PoolStep>, pid: Pid) {
    forall n | 0 <= n < |steps| :: var s := Run(cfg, workers, steps[..n]);
      pid in s.db ==> !ReturnsSplitOfDone(s, steps[n], pid)
  }

  lemma EventsSpare(cfg: Config, s: State, a: PoolStep, pid: Pid)
    requires pid in s.db && !ReturnsSplitOfDone(s, a, pid)
    ensures forall i | 0 <= i < |Events(cfg, s, a, pid)| :: !SplitsDone(View(s, pid), Events(cfg, s, a, pid)[i])
  {
    hide Advance, IsDoneRow, FlightOf;
  }

  lemma SparesMore(cfg: Config, es: seq<Event>, more: seq<Event>)
    requires SparesDone(cfg, NEW_PROJECT, es) && |more| <= 1
    requires forall i | 0 <= i < |more| :: !SplitsDone(Exec(cfg, es), more[i])
    ensures SparesDone(cfg, NEW_PROJECT, es + more)
  {
    hide SparesDone, SplitsDone;
    if more == [] {
      assert es + more == es;
    } else {
      assert more == [more[0]];
      SparesSnoc(cfg, es, more[0]);
    }
  }

  lemma AllocSpares(cfg: Config, count: nat)
    ensures SparesDone(cfg, NEW_PROJECT, [Alloc(count)])
  {
  }

  lemma SparesPrefixes(cfg: Config, workers: nat, steps: seq<PoolStep>, more: seq<PoolStep>, pid: Pid)
    requires PoolSparesDone(cfg, workers, steps + more, pid)
    ensures PoolSparesDone(cfg, workers, steps, pid)
  {
    hide Run, ReturnsSplitOfDone;
    forall n | 0 <= n < |steps|
      ensures var s := Run(cfg, workers, steps[..n]); pid in s.db ==> !ReturnsSplitOfDone(s, steps[n], pid)
    {
      assert (steps + more)[..n] == steps[..n] && (steps + more)[n] == steps[n];
    }
  }

  lemma {:induction false} HistorySpares(cfg: Config, workers: nat, steps: seq<PoolStep>, pid: Pid)
    requires PoolSparesDone(cfg, workers, steps, pid) && pid in Run(cfg, workers, steps).db
    ensures SparesDone(cfg, NEW_PROJECT, History(cfg, workers, steps, pid))
  {
    hide Safe, Advance, View, Events, SparesDone, SplitsDone, ReturnsSplitOfDone;
    if steps == [] {
      NobodyAtFirst(workers);
    } else {
      var init, a := steps[..|steps|-1], steps[|steps|-1];
      var s := Run(cfg, workers, init);
      assert steps == init + [a];
      if pid in s.db {
        SparesPrefixes(cfg, workers, init, [a], pid);
        HistorySpares(cfg, workers, init, pid);
        EveryProjectLivesARun(cfg, workers, init, pid);
        EventsSpare(cfg, s, a, pid);
        AtMostOneEvent(cfg, s, a, pid);
        SparesMore(cfg, History(cfg, workers, init, pid), Events(cfg, s, a, pid));
      } else {
        AllocSpares(cfg, s.nextId);
      }
    }
  }

  lemma NobodyAtFirst(workers: nat)
    ensures Initial(workers).db == map[]
  {
  }

  lemma LaterSparesSnoc(cfg: Config, workers: nat, before: seq<PoolStep>, init: seq<PoolStep>, a: PoolStep, pid: Pid)
    requires pid in Run(cfg, workers, before).db
    requires PoolSparesDone(cfg, workers, (before + init) + [a], pid)
    requires var s, h := Run(cfg, workers, before), History(cfg, workers, before, pid);
             SparesDone(cfg, NEW_PROJECT, h + Later(cfg, s, init, pid))
    ensures var s, h := Run(cfg, workers, before), History(cfg, workers, before, pid);
            SparesDone(cfg, NEW_PROJECT, h + Later(cfg, s, init, pid) + Events(cfg, RunFrom(cfg, s, init), a, pid))
  {
    hide Safe, Run, RunFrom, Later, Advance, View, Events, History;
    hide SparesDone, SplitsDone, ReturnsSplitOfDone, PoolSparesDone;
    var s, h := Run(cfg, workers, before), History(cfg, workers, before, pid);
    var t := RunFrom(cfg, s, init);
    RunSafe(cfg, workers, before);
    EveryProjectLivesARun(cfg, workers, before, pid);
    RunConcat(cfg, workers, before, init);
    LivesOn(cfg, s, init, pid);
    LastSpares(cfg, workers, before + init, a, pid);
    EventsSpare(cfg, t, a, pid);
    AtMostOneEvent(cfg, t, a, pid);
    FromConcat(cfg, NEW_PROJECT, h, Later(cfg, s, init, pid));
    SparesMore(cfg, h + Later(cfg, s, init, pid), Events(cfg, t, a, pid));
  }

  lemma {:induction false} LaterSpares(cfg: Config, workers: nat, before: seq<PoolStep>, steps: seq<PoolStep>, pid: Pid)
    requires PoolSparesDone(cfg, workers, before + steps, pid) && pid in Run(cfg, workers, before).db
    ensures SparesDone(cfg, NEW_PROJECT,
                       History(cfg, workers, before, pid) + Later(cfg, Run(cfg, workers, before), steps, pid))
  {
    hide Run, RunFrom, Advance, Events, SparesDone, PoolSparesDone, History;
    var s, h := Run(cfg, workers, before), History(cfg, workers, before, pid);
    if steps == [] {
      assert before + steps == before && h + [] == h;
      HistorySpares(cfg, workers, before, pid);
    } else {
      var init, a := steps[..|steps|-1], steps[|steps|-1];
      assert before + steps == (before + init) + [a];
      SparesPrefixes(cfg, workers, before + init, [a], pid);
      LaterSpares(cfg, workers, before, init, pid);
      LaterSparesSnoc(cfg, workers, before, init, a, pid);
      assert h + Later(cfg, s, steps, pid)
          == h + Later(cfg, s, init, pid) + Events(cfg, RunFrom(cfg, s, init), a, pid);
    }
  }

  lemma LastSpares(cfg: Config, workers: nat, init: seq<PoolStep>, a: PoolStep, pid: Pid)
    requires PoolSparesDone(cfg, workers, init + [a], pid)
    ensures var s := Run(cfg, workers, init); pid in s.db ==> !ReturnsSplitOfDone(s, a, pid)
  {
    hide Run, ReturnsSplitOfDone;
    assert (init + [a])[..|init|] == init && (init + [a])[|init|] == a;
  }

  /** As long as no worker returns with a Split of one of its done rows, a
      project's stored done rows are a prefix, and stay where they are. */
  lemma PoolDoneForEver(cfg: Config, workers: nat, before: seq<PoolStep>, steps: seq<PoolStep>, pid: Pid)
    requires PoolSparesDone(cfg, workers, before + steps, pid) && pid in Run(cfg, workers, before).db
    ensures var s, t := Run(cfg, workers, before), Run(cfg, workers, before + steps);
            pid in t.db && Settled(s.db[pid].ms) && Keeps(s.db[pid].ms, t.db[pid].ms)
  {
    hide Safe, Run, Settled, Keeps, SparesDone, View;
    var s, h := Run(cfg, workers, before), History(cfg, workers, before, pid);
    RunSafe(cfg, workers, before);
    EveryProjectLivesARun(cfg, workers, before, pid);
    RunConcat(cfg, workers, before, steps);
    LivesOn(cfg, s, steps, pid);
    LaterSpares(cfg, workers, before, steps, pid);
    FromConcat(cfg, NEW_PROJECT, h, Later(cfg, s, steps, pid));
    DoneForEver(cfg, h, Later(cfg, s, steps, pid));
    StateIsViewed(s, pid);
    StateIsViewed(RunFrom(cfg, s, steps), pid);
  }
}
