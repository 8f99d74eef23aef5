/** orchestrator/auto_split.py: mechanical bisection, once per lineage. */
module AutoSplit {
  import opened Lifecycle
  import opened Graph
  import opened Markers

  datatype Session = Session(turns: int, cost: real)

  function Half(spec: Spec, criteria: seq<Criterion>, suffix: string, tag: string): Spec {
    Spec(spec.title + suffix, spec.description, criteria, ChildNote(spec.note, tag))
  }

  /** First half rounds up. */
  function Bisect(spec: Spec): (halves: Children)
    ensures |halves| == 2
    ensures halves[0].criteria + halves[1].criteria == spec.criteria
    ensures |halves[1].criteria| <= |halves[0].criteria| <= |halves[1].criteria| + 1
  {
    var mid := (|spec.criteria| + 1) / 2;
    [Half(spec, spec.criteria[..mid], " (part 1)", HALF_1),
     Half(spec, spec.criteria[mid..], " (part 2)", HALF_2)]
  }

  predicate Splittable(spec: Spec) {
    !Contains(spec.note, AUTO_SPLIT) && |spec.criteria| >= 2
  }

  /** Both children are guarded against a second bisection, and are
      consolidations exactly when the parent is. */
  lemma BisectMarks(spec: Spec)
    ensures forall h | h in Bisect(spec) :: Contains(h.note, AUTO_SPLIT) && !Splittable(h)
    ensures forall h | h in Bisect(spec) ::
      Contains(h.note, CONSOLIDATION) <==> Contains(spec.note, CONSOLIDATION)
  {
    ChildIsMarked(spec.note, HALF_1);
    ChildIsMarked(spec.note, HALF_2);
    ConsolidationSurvives(spec.note, HALF_1);
    ConsolidationSurvives(spec.note, HALF_2);
  }

  predicate Nonzero(s: Session) {
    s.turns > 0 || s.cost > 0.0
  }

  const ROLES := ["Developer", "Tester"]

  /** AutoSplitPredictor: its two caps, and the latest session of each role on
      each milestone. */
  class AutoSplitPredictor {
    const maxTurns: int
    const maxCost: real
    var latest: map<(Id, string), Session>

    constructor (maxTurns: int, maxCost: real, latest: map<(Id, string), Session>)
      ensures this.maxTurns == maxTurns && this.maxCost == maxCost && this.latest == latest
    {
      this.maxTurns, this.maxCost, this.latest := maxTurns, maxCost, latest;
    }

    predicate Ran(id: Id, role: string)
      reads this
    {
      (id, role) in latest && Nonzero(latest[(id, role)])
    }

    predicate Over(id: Id, role: string)
      reads this
    {
      (id, role) in latest && (latest[(id, role)].turns > maxTurns || latest[(id, role)].cost > maxCost)
    }

    /** Some recorded session went over a cap. A negative cap is exceeded by any
        non-zero history. */
    ghost predicate TooBig(id: Id)
      reads this
    {
      && (exists j | 0 <= j < |ROLES| :: Ran(id, ROLES[j]))
      && (maxTurns < 0 || maxCost < 0.0 || exists j | 0 <= j < |ROLES| :: Over(id, ROLES[j]))
    }

    /** Some role went over a cap; under a negative cap, some role ran at all. */
    lemma TooBigMeans(id: Id)
      ensures maxTurns >= 0 && maxCost >= 0.0 ==>
        (TooBig(id) <==> exists role | role == "Developer" || role == "Tester" ::
           (id, role) in latest && (latest[(id, role)].turns > maxTurns || latest[(id, role)].cost > maxCost))
      ensures maxTurns < 0 || maxCost < 0.0 ==>
        (TooBig(id) <==> exists role | role == "Developer" || role == "Tester" ::
           (id, role) in latest && (latest[(id, role)].turns > 0 || latest[(id, role)].cost > 0.0))
    {
      assert ROLES[0] == "Developer" && ROLES[1] == "Tester";
      forall j | 0 <= j < |ROLES| ensures ROLES[j] == "Developer" || ROLES[j] == "Tester" {}
      if role :| (role == "Developer" || role == "Tester") && (Ran(id, role) || Over(id, role)) {
        assert role == ROLES[0] || role == ROLES[1];
      }
    }

    /** The history half of `predict`: some role ran at all, and some role ran over
        its turns or its cost. */
    method OverBudget(id: Id) returns (over: bool)
      ensures over <==> TooBig(id)
      ensures maxTurns >= 0 && maxCost >= 0.0 ==>
        (over <==> exists role | role == "Developer" || role == "Tester" ::
           (id, role) in latest && (latest[(id, role)].turns > maxTurns || latest[(id, role)].cost > maxCost))
      ensures maxTurns < 0 || maxCost < 0.0 ==>
        (over <==> exists role | role == "Developer" || role == "Tester" ::
           (id, role) in latest && (latest[(id, role)].turns > 0 || latest[(id, role)].cost > 0.0))
    {
      TooBigMeans(id);
      var worstTurns, worstCost := 0, 0.0;
      for i := 0 to |ROLES|
        invariant worstTurns >= 0 && worstCost >= 0.0
        invariant worstTurns > 0 || worstCost > 0.0 <==> exists j | 0 <= j < i :: Ran(id, ROLES[j])
        invariant worstTurns > maxTurns || worstCost > maxCost <==>
          (maxTurns < 0 || maxCost < 0.0 || exists j | 0 <= j < i :: Over(id, ROLES[j]))
      {
        if (id, ROLES[i]) in latest {
          var prev := latest[(id, ROLES[i])];
          worstTurns := if prev.turns > worstTurns then prev.turns else worstTurns;
          worstCost := if prev.cost > worstCost then prev.cost else worstCost;
        }
      }
      if worstTurns == 0 && worstCost == 0.0 {
        return false;
      }
      over := worstTurns > maxTurns || worstCost > maxCost;
    }

    /** `predict`: a mechanical split for a milestone over its caps that can still
        be split. */
    method Predict(m: Milestone) returns (into: Option<Children>)
      ensures into.Some? <==> TooBig(m.id) && Splittable(m.spec)
      ensures into.Some? ==> into.value == Bisect(m.spec)
      ensures into.Some? ==> !Contains(m.spec.note, "[AUTO-SPLIT") && |m.spec.criteria| >= 2
    {
      var over := OverBudget(m.id);
      if !over {
        return None;
      }
      if Contains(m.spec.note, AUTO_SPLIT) {
        return None;
      }
      if |m.spec.criteria| < 2 {
        return None;
      }
      into := Some(Bisect(m.spec));
    }
  }
}
