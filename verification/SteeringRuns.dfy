/** Pulls as overlapping transactions: a SELECT, one INSERT per selected row, a
    commit or a rollback. A row that another open pull has inserted makes the
    INSERT wait; one already committed is skipped. */
module SteeringRuns {
  import opened Lifecycle
  import opened Backoff
  import opened Steering

  /** `won` are the rows this pull inserted, out of the first `next` selected.
      `horizon` is a history variable: how many notes there were at the SELECT. */
  datatype Pull = Pull(pid: Pid, role: Role, rows: seq<nat>, next: nat, won: seq<nat>, horizon: nat)

  /** `handed`: what the committed pulls returned, in the order they did. */
  datatype State = State(notes: seq<Note>, delivered: set<Delivery>, pulls: map<nat, Pull>, handed: seq<Delivery>)

  const EMPTY_LEDGER := State([], {}, map[], [])

  datatype LedgerStep =
    | Add(note: Note)
    | Open(w: nat, pid: Pid, role: Role)
    | Take(w: nat)
    | Commit(w: nat)
    | Rollback(w: nat)

  ghost predicate Locked(s: State, w: nat, d: Delivery) {
    exists v :: v in s.pulls && v != w && s.pulls[v].role == d.role && d.note in s.pulls[v].won
  }

  function Handed(won: seq<nat>, role: Role): (ds: seq<Delivery>)
    ensures |ds| == |won| && forall i | 0 <= i < |won| :: ds[i] == Delivery(won[i], role)
  {
    seq(|won|, i requires 0 <= i < |won| => Delivery(won[i], role))
  }

  ghost function Advance(s: State, a: LedgerStep): State {
    match a
    case Add(note) => if Blank(note.body) then s else s.(notes := s.notes + [note])
    case Open(w, pid, role) =>
      if w in s.pulls || role == "" then s
      else s.(pulls := s.pulls[w := Pull(pid, role, Unseen(s.notes, s.delivered, pid, role, |s.notes|), 0, [],
          |s.notes|)])
    case Take(w) =>
      if w in s.pulls && s.pulls[w].next < |s.pulls[w].rows| then
        var p := s.pulls[w];
        var d := Delivery(p.rows[p.next], p.role);
        if d in s.delivered then s.(pulls := s.pulls[w := p.(next := p.next + 1)])
        else if Locked(s, w, d) then s
        else s.(pulls := s.pulls[w := p.(next := p.next + 1, won := p.won + [d.note])])
      else s
    case Commit(w) =>
      if w in s.pulls && s.pulls[w].next == |s.pulls[w].rows| then
        var p := s.pulls[w];
        State(s.notes, s.delivered + Deliveries(p.won, p.role), s.pulls - {w}, s.handed + Handed(p.won, p.role))
      else s
    case Rollback(w) => s.(pulls := s.pulls - {w})
  }

  ghost function Run(steps: seq<LedgerStep>): State {
    if steps == [] then EMPTY_LEDGER else Advance(Run(steps[..|steps|-1]), steps[|steps|-1])
  }

  // ------------------------------------------------------- the invariant

  ghost predicate Seen(s: State, p: Pull, k: nat) {
    k in p.rows || Delivery(k, p.role) in s.delivered
  }

  ghost predicate PullFits(s: State, p: Pull) {
    && p.next <= |p.rows| && Increasing(p.rows) && Increasing(p.won) && p.horizon <= |s.notes|
    && (forall k | k in p.rows :: k < |s.notes| && Addressed(s.notes[k], p.pid, p.role))
    && (forall k | k in p.won :: k in p.rows[..p.next] && Delivery(k, p.role) !in s.delivered)
    && (forall i | 0 <= i < p.next :: p.rows[i] in p.won || Delivery(p.rows[i], p.role) in s.delivered)
    && (forall k | 0 <= k < p.horizon && Addressed(s.notes[k], p.pid, p.role) :: Seen(s, p, k))
  }

  ghost predicate AllFit(s: State) {
    forall w | w in s.pulls :: PullFits(s, s.pulls[w])
  }

  /** A row is inserted by one open pull at a time. */
  ghost predicate Exclusive(s: State) {
    forall v, w, k | v in s.pulls && w in s.pulls && v != w && s.pulls[v].role == s.pulls[w].role
                     && k in s.pulls[v].won :: k !in s.pulls[w].won
  }

  predicate Reaches(notes: seq<Note>, d: Delivery) {
    d.note < |notes| && Addressed(notes[d.note], notes[d.note].pid, d.role)
  }

  ghost predicate HandedFits(s: State) {
    && (forall i, j | 0 <= i < j < |s.handed| :: s.handed[i] != s.handed[j])
    && (forall d :: d in s.delivered <==> d in s.handed)
    && (forall d | d in s.handed :: Reaches(s.notes, d))
  }

  ghost predicate Sound(s: State) {
    AllFit(s) && Exclusive(s) && HandedFits(s)
  }

  lemma AddSound(s: State, note: Note)
    requires Sound(s)
    ensures Sound(Advance(s, Add(note)))
  {
    var t := Advance(s, Add(note));
    forall w | w in t.pulls ensures PullFits(t, t.pulls[w]) { assert PullFits(s, s.pulls[w]); }
  }

  /** Fitting is a matter of notes and deliveries alone. */
  lemma FitsStill(s: State, t: State, p: Pull)
    requires PullFits(s, p) && t.notes == s.notes && t.delivered == s.delivered
    ensures PullFits(t, p)
  {
  }

  lemma HandedStill(s: State, t: State)
    requires HandedFits(s) && t.notes == s.notes && t.delivered == s.delivered && t.handed == s.handed
    ensures HandedFits(t)
  {
  }

  lemma FreshFits(s: State, pid: Pid, role: Role)
    ensures PullFits(s, Pull(pid, role, Unseen(s.notes, s.delivered, pid, role, |s.notes|), 0, [], |s.notes|))
  {
  }

  lemma OpenSound(s: State, w: nat, pid: Pid, role: Role)
    requires Sound(s)
    ensures Sound(Advance(s, Open(w, pid, role)))
  {
    hide PullFits, HandedFits;
    var t := Advance(s, Open(w, pid, role));
    forall v | v in t.pulls ensures PullFits(t, t.pulls[v]) {
      if v in s.pulls { FitsStill(s, t, s.pulls[v]); } else { FreshFits(s, pid, role); FitsStill(s, t, t.pulls[v]); }
    }
    HandedStill(s, t);
  }

  lemma TakeFits(s: State, p: Pull)
    requires p.next < |p.rows| && PullFits(s, p)
    ensures var d := Delivery(p.rows[p.next], p.role);
            && (d in s.delivered ==> PullFits(s, p.(next := p.next + 1)))
            && (d !in s.delivered ==> PullFits(s, p.(next := p.next + 1, won := p.won + [d.note])))
  {
    assert p.rows[..p.next+1] == p.rows[..p.next] + [p.rows[p.next]];
    forall i | 0 <= i < |p.won| ensures p.won[i] < p.rows[p.next] { assert p.won[i] in p.won; }
  }

  lemma TakeSound(s: State, w: nat)
    requires Sound(s)
    ensures Sound(Advance(s, Take(w)))
  {
    hide PullFits, HandedFits;
    var t := Advance(s, Take(w));
    if t != s {
      TakeFits(s, s.pulls[w]);
      forall v | v in t.pulls ensures PullFits(t, t.pulls[v]) { FitsStill(s, t, t.pulls[v]); }
    }
    HandedStill(s, t);
  }

  lemma CommitHanded(s: State, w: nat)
    requires Sound(s)
    ensures HandedFits(Advance(s, Commit(w)))
  {
    var t := Advance(s, Commit(w));
    if t != s {
      var p := s.pulls[w];
      assert PullFits(s, p);
      var added := Handed(p.won, p.role);
      forall i | 0 <= i < |added| ensures added[i] !in s.handed && added[i] in Deliveries(p.won, p.role)
          && Reaches(s.notes, added[i]) {
        assert p.won[i] in p.won;
        assert p.won[i] in p.rows[..p.next];
        assert p.won[i] in p.rows;
      }
      forall d | d in Deliveries(p.won, p.role) ensures d in added {
        var i :| 0 <= i < |p.won| && p.won[i] == d.note;
        assert added[i] == d;
      }
    }
  }

  lemma CommitSound(s: State, w: nat)
    requires Sound(s)
    ensures Sound(Advance(s, Commit(w)))
  {
    var t := Advance(s, Commit(w));
    CommitHanded(s, w);
    if t != s {
      forall v | v in t.pulls ensures PullFits(t, t.pulls[v]) {
        assert PullFits(s, s.pulls[v]);
      }
    }
  }

  lemma {:induction false} RunSound(steps: seq<LedgerStep>)
    ensures Sound(Run(steps))
  {
    if steps != [] {
      var s, a := Run(steps[..|steps|-1]), steps[|steps|-1];
      RunSound(steps[..|steps|-1]);
      match a
      case Add(note) => AddSound(s, note);
      case Open(w, pid, role) => OpenSound(s, w, pid, role);
      case Take(w) => TakeSound(s, w);
      case Commit(w) => CommitSound(s, w);
      case Rollback(w) =>
        forall v | v in s.pulls - {w} ensures PullFits(Advance(s, a), s.pulls[v]) { assert PullFits(s, s.pulls[v]); }
    }
  }

  // ------------------------------------------------------------- theorems

  /** No note is handed to a role twice, none to a role it is not for. */
  lemma AtMostOncePerRole(steps: seq<LedgerStep>, i: nat, j: nat)
    requires i < j < |Run(steps).handed|
    ensures var s := Run(steps); s.handed[i] != s.handed[j]
    ensures var s := Run(steps);
            forall d | d in s.handed ::
              d.note < |s.notes| && (s.notes[d.note].target == None || s.notes[d.note].target == Some(d.role))
  {
    RunSound(steps);
  }

  /** A pull hands out notes of its project, to its role, oldest first; once it
      has committed, every note addressed to the role that was there at its
      SELECT has been handed to the role, by this pull or another. */
  lemma CommitCompletes(steps: seq<LedgerStep>, w: nat)
    requires var s := Run(steps); w in s.pulls && s.pulls[w].next == |s.pulls[w].rows|
    ensures var s, t := Run(steps), Run(steps + [Commit(w)]);
            var p := s.pulls[w];
            && t.handed == s.handed + Handed(p.won, p.role) && Increasing(p.won)
            && p.horizon <= |s.notes|
            && (forall i | 0 <= i < |p.won| ::
                  && p.won[i] < |s.notes| && s.notes[p.won[i]].pid == p.pid
                  && (s.notes[p.won[i]].target == None || s.notes[p.won[i]].target == Some(p.role)))
            && (forall k: nat | k < p.horizon && s.notes[k].pid == p.pid
                                && (s.notes[k].target == None || s.notes[k].target == Some(p.role)) ::
                  Delivery(k, p.role) in t.handed)
  {
    var s, t := Run(steps), Run(steps + [Commit(w)]);
    assert (steps + [Commit(w)])[..|steps|] == steps;
    RunSound(steps);
    RunSound(steps + [Commit(w)]);
    var p := s.pulls[w];
    assert PullFits(s, p) && p.rows[..p.next] == p.rows;
    forall i | 0 <= i < |p.won| ensures p.won[i] in p.rows { assert p.won[i] in p.won; }
    forall k: nat | k < p.horizon && Addressed(s.notes[k], p.pid, p.role) ensures Delivery(k, p.role) in t.delivered {
      assert Seen(s, p, k);
      if k in p.rows {
        var i :| 0 <= i < |p.rows| && p.rows[i] == k;
      }
    }
  }

  /** A rolled-back pull keeps nothing: the rows it had inserted are due again,
      and free for the next pull to take. */
  lemma RollbackReleases(steps: seq<LedgerStep>, w: nat, k: nat, x: nat)
    requires var s := Run(steps); w in s.pulls && k in s.pulls[w].won
    ensures var s, t := Run(steps), Advance(Run(steps), Rollback(w));
            var p := s.pulls[w];
            && k in Unseen(t.notes, t.delivered, p.pid, p.role, |t.notes|)
            && !Locked(t, x, Delivery(k, p.role)) && t.handed == s.handed
  {
    RunSound(steps);
    var s := Run(steps);
    var p := s.pulls[w];
    assert PullFits(s, p);
    assert k in p.rows[..p.next] && k in p.rows;
    assert Wanted(s.notes, s.delivered, p.pid, p.role, k);
  }

  // ------------------------------------- the repository is such a ledger

  ghost function Takes(s: State, w: nat, n: nat): State {
    if n == 0 then s else Advance(Takes(s, w, n - 1), Take(w))
  }

  /** Undisturbed, the row by row INSERT is `Steering.SteeringRepo.Claim`. */
  lemma {:induction false} TakesClaim(s: State, w: nat, n: nat)
    requires w in s.pulls && s.pulls[w].next == 0 && s.pulls[w].won == [] && n <= |s.pulls[w].rows|
    requires forall v | v in s.pulls && v != w :: s.pulls[v].role != s.pulls[w].role
    ensures var p := s.pulls[w];
            Takes(s, w, n) == s.(pulls := s.pulls[w := p.(next := n, won := Undelivered(p.rows[..n], s.delivered,
                p.role))])
  {
    var p := s.pulls[w];
    if n == 0 {
      assert s.pulls == s.pulls[w := p];
    } else {
      TakesClaim(s, w, n - 1);
      assert p.rows[..n][..n-1] == p.rows[..n-1];
      var t := Takes(s, w, n - 1);
      assert !Locked(t, w, Delivery(p.rows[n-1], p.role));
    }
  }
}
