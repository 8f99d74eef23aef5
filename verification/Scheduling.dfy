/** ProjectPool (orchestrator/scheduler.py): claiming the oldest eligible
    project, one tick for it, backoff or block after a crash, release. */
module Scheduling {
  import opened Lifecycle
  import opened Machine
  import opened Backoff
  import opened MilestoneTable
  import opened Ticking
  import Pool

  datatype Candidate = Candidate(pid: Pid, state: ProjectState)

  const ADVANCEABLE := [Queued, Planning, ProjectState.Building, Replanning, Integration]

  class ProjectPool {
    const tick: Tick
    var claimed: set<Pid>
    var cooldownUntil: map<Pid, int>
    var transientFails: map<Pid, nat>

    constructor (tick: Tick)
      ensures this.tick == tick && claimed == {} && Account() == EMPTY
    {
      this.tick, claimed, cooldownUntil, transientFails := tick, {}, map[], map[];
    }

    /** Streaks and cooldowns together. */
    function Account(): Ledger
      reads this
    {
      Ledger(cooldownUntil, transientFails)
    }

    predicate Ready(pid: Pid, now: int)
      reads this, tick.projects
    {
      pid in tick.projects.states && Advanceable(tick.projects.states[pid])
      && pid !in claimed && (if pid in cooldownUntil then cooldownUntil[pid] else 0) <= now
    }

    // ---------------------------------------------------------- claiming

    predicate Current(c: Candidate)
      reads tick.projects
    {
      c.pid in tick.projects.states && tick.projects.states[c.pid] == c.state
    }

    /** One query per state, then sorted by creation. */
    method GatherCandidates() returns (bag: seq<Candidate>)
      requires tick.projects.Valid()
      ensures forall c :: c in bag <==> Current(c) && Advanceable(c.state)
      ensures forall i | 0 <= i < |bag| :: bag[i].pid in tick.projects.createdAt
      ensures forall i, j | 0 <= i < j < |bag| ::
                tick.projects.createdAt[bag[i].pid] <= tick.projects.createdAt[bag[j].pid]
    {
      var states := tick.projects.states;
      var found: set<Candidate> := {};
      for i := 0 to |ADVANCEABLE|
        invariant forall c :: c in found <==> Current(c) && c.state in ADVANCEABLE[..i]
      {
        var state := ADVANCEABLE[i];
        found := found + set pid | pid in states && states[pid] == state :: Candidate(pid, state);
      }
      assert forall s: ProjectState :: s in ADVANCEABLE <==> Advanceable(s);
      bag := Sorted(found);
    }

    /** `sort(key=created_at)`, as repeated selection of the oldest. */
    method Sorted(found: set<Candidate>) returns (bag: seq<Candidate>)
      requires forall c | c in found :: c.pid in tick.projects.createdAt
      ensures forall c :: c in bag <==> c in found
      ensures forall i | 0 <= i < |bag| :: bag[i].pid in tick.projects.createdAt
      ensures forall i, j | 0 <= i < j < |bag| ::
                tick.projects.createdAt[bag[i].pid] <= tick.projects.createdAt[bag[j].pid]
    {
      var created := tick.projects.createdAt;
      bag := [];
      var todo := found;
      while todo != {}
        invariant todo <= found && forall c :: c in bag <==> c in found - todo
        invariant forall i | 0 <= i < |bag| :: bag[i].pid in created
        invariant forall i, c | 0 <= i < |bag| && c in todo :: created[bag[i].pid] <= created[c.pid]
        invariant forall i, j | 0 <= i < j < |bag| :: created[bag[i].pid] <= created[bag[j].pid]
        decreases todo
      {
        var oldest :| oldest in todo;
        var rest := todo - {oldest};
        while rest != {}
          invariant oldest in todo && rest <= todo
          invariant forall c | c in todo - rest :: created[oldest.pid] <= created[c.pid]
          decreases rest
        {
          var c :| c in rest;
          if created[c.pid] < created[oldest.pid] { oldest := c; }
          rest := rest - {c};
        }
        bag := bag + [oldest];
        todo := todo - {oldest};
      }
    }

    /** The oldest ready project, claimed; none only if no project is ready. */
    method ClaimNext(now: int) returns (next: Option<Candidate>)
      requires tick.projects.Valid()
      modifies this`claimed
      ensures next.None? ==> claimed == old(claimed) && forall p :: !old(Ready(p, now))
      ensures next.None? ==> forall p | p in tick.projects.states && p !in claimed ::
        var s := tick.projects.states[p];
        s.AwaitingApproval? || s.Blocked? || s.Done? || s.Killed?
        || (if p in cooldownUntil then cooldownUntil[p] else 0) > now
      ensures next.Some? ==>
        && old(Ready(next.value.pid, now)) && next.value.state == tick.projects.states[next.value.pid]
        && claimed == old(claimed) + {next.value.pid}
        && forall p | old(Ready(p, now)) ::
             tick.projects.createdAt[next.value.pid] <= tick.projects.createdAt[p]
    {
      var candidates := GatherCandidates();
      assert forall p | p in tick.projects.states && Advanceable(tick.projects.states[p]) ::
          Candidate(p, tick.projects.states[p]) in candidates;
      for i := 0 to |candidates|
        invariant claimed == old(claimed)
        invariant forall j | 0 <= j < i :: !Ready(candidates[j].pid, now)
      {
        var c := candidates[i];
        assert c in candidates;
        if c.pid in claimed {
          continue;
        }
        var until := if c.pid in cooldownUntil then cooldownUntil[c.pid] else 0;
        if until > now {
          continue;
        }
        forall p | Ready(p, now) ensures tick.projects.createdAt[c.pid] <= tick.projects.createdAt[p] {
          var j :| 0 <= j < |candidates| && candidates[j] == Candidate(p, tick.projects.states[p]);
        }
        claimed := claimed + {c.pid};
        return Some(c);
      }
      next := None;
    }

    // ----------------------------------------------------------- crashes

    method ClearTransient(pid: Pid)
      modifies this`cooldownUntil, this`transientFails
      ensures Account() == Clear(old(Account()), pid)
    {
      cooldownUntil := cooldownUntil - {pid};
      transientFails := transientFails - {pid};
    }

    /** A transient crash within the streak is waited out: 30, 60, 120, 240 seconds.
        Any other blocks the project, unless it is over, and ends the streak. */
    method HandleCrash(pid: Pid, snap: ProjectState, transient: bool, now: int)
      requires pid in tick.projects.states
      modifies this`cooldownUntil, this`transientFails, tick.projects`states
      ensures Account() == if Tolerated(old(Account()), pid, transient) then Punish(old(Account()), pid, now)
                           else Clear(old(Account()), pid)
      ensures tick.projects.states ==
        if Tolerated(old(Account()), pid, transient) then old(tick.projects.states)
        else old(tick.projects.states)[pid := Pool.CrashState(old(tick.projects.states[pid]), snap)]
      ensures var n := old(if pid in transientFails then transientFails[pid] else 0);
              if transient && n < 4 then
                && tick.projects.states == old(tick.projects.states)
                && transientFails == old(transientFails)[pid := n + 1]
                && cooldownUntil == old(cooldownUntil)[pid := now + [30, 60, 120, 240][n]]
              else
                && pid !in transientFails && pid !in cooldownUntil
                && (!snap.Done? && !snap.Killed? && !snap.Blocked? ==> tick.projects.states[pid].Blocked?)
    {
      Waits();
      var fails := if pid in transientFails then transientFails[pid] else 0;
      if transient && fails + 1 < MAX_TRANSIENT_FAILS {
        var n := fails + 1;
        transientFails := transientFails[pid := n];
        cooldownUntil := cooldownUntil[pid := now + Wait(n)];
        return;
      }
      ClearTransient(pid);
      if LegalProject(snap, Blocked) {
        var _ := tick.projects.UpdateState(pid, Blocked);
      } else {
        assert tick.projects.states == tick.projects.states[pid := tick.projects.states[pid]];
      }
    }

    // -------------------------------------------------------------- step

    /** The project after a whole pool step that ended at the machine's q. */
    function Settle(q: Project, tolerated: bool): Project {
      if q.flight.Raised? then Machine.Step(tick.cfg, q, Fallout(!tolerated)) else q
    }

    /** The tick of a claimed project and what the pool makes of its outcome. */
    method Serve(c: Candidate, o: Signals, r: Reply, transient: bool, now: int) returns (advanced: bool)
      requires tick.Valid(c.pid) && tick.projects.states[c.pid] == c.state
      modifies this`cooldownUntil, this`transientFails, tick.milestones, tick.projects`states
      ensures tick.Valid(c.pid)
      ensures var p := old(tick.View(c.pid));
              var q := TickOnce(tick.cfg, p, old(tick.Seen(c.pid, o)), old(tick.Located(c.pid, r)));
              && tick.View(c.pid) == Settle(q, Tolerated(old(Account()), c.pid, transient)).(flight := Landed)
              && (advanced <==> OutcomeOf(p, q) != Outcome.Idle)
              && Account() == (if q.flight.Raised? && Tolerated(old(Account()), c.pid, transient)
                               then Punish(old(Account()), c.pid, now) else Clear(old(Account()), c.pid))
              && (q.flight.Raised? && !transient && Advanceable(c.state) ==> tick.projects.states[c.pid].Blocked?)
      ensures tick.projects.states - {c.pid} == old(tick.projects.states) - {c.pid}
      ensures tick.Spread(c.pid, Start(tick.cfg, old(tick.View(c.pid)), old(tick.Seen(c.pid, o))), r)
    {
      hide TickOnce, Tolerated, LegalProject, Punish, Clear, Table, Consolidate;
      RaisedStays(tick.cfg, tick.View(c.pid), tick.Seen(c.pid, o), tick.Located(c.pid, r));
      var out := tick.AdvanceProject(c.pid, c.state, o, r);
      if out.Raising? {
        HandleCrash(c.pid, c.state, transient, now);
        advanced := true;
      } else {
        ClearTransient(c.pid);
        advanced := out.Moved?;
      }
    }

    /** One worker's turn, undisturbed: claim, serve, release. */
    method Step(now: int, o: Signals, r: Reply, transient: bool, later: int) returns (advanced: bool,
        taken: Option<Candidate>)
      requires tick.milestones.Valid() && tick.projects.Valid()
      modifies this, tick.milestones, tick.projects`states
      ensures tick.milestones.Valid() && tick.projects.Valid() && claimed == old(claimed)
      ensures taken.None? ==>
        && !advanced && (forall p :: !old(Ready(p, now))) && Account() == old(Account())
        && unchanged(tick.milestones) && unchanged(tick.projects)
      ensures taken.Some? ==>
        && old(Ready(taken.value.pid, now))
        && (forall x | old(Ready(x, now)) ::
              tick.projects.createdAt[taken.value.pid] <= tick.projects.createdAt[x])
        && tick.Valid(taken.value.pid)
        && var pid, p := taken.value.pid, old(tick.View(taken.value.pid));
           var q := TickOnce(tick.cfg, p, old(tick.Seen(taken.value.pid, o)), old(tick.Located(taken.value.pid, r)));
           && tick.View(pid) == Settle(q, Tolerated(old(Account()), pid, transient)).(flight := Landed)
           && (advanced <==> OutcomeOf(p, q) != Outcome.Idle)
           && Account() == (if q.flight.Raised? && Tolerated(old(Account()), pid, transient)
                            then Punish(old(Account()), pid, later) else Clear(old(Account()), pid))
           && (q.flight.Raised? && !transient ==> tick.projects.states[pid].Blocked?)
           && tick.projects.states - {pid} == old(tick.projects.states) - {pid}
           && tick.Spread(pid, Start(tick.cfg, p, old(tick.Seen(taken.value.pid, o))), r)
    {
      hide TickOnce, Tolerated, Settle, OutcomeOf, Punish, Clear, Table, Consolidate;
      taken := ClaimNext(now);
      if taken.None? {
        return false, None;
      }
      ghost var pid := taken.value.pid;
      ghost var before := tick.projects.states;
      advanced := Serve(taken.value, o, r, transient, later);
      assert tick.projects.states.Keys == (tick.projects.states - {pid}).Keys + {pid};
      assert before.Keys == (before - {pid}).Keys + {pid};
      claimed := claimed - {taken.value.pid};
    }
  }
}
