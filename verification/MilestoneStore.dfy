/** PsycopgMilestoneRepo: every statement works on rows; every contract speaks
    of the ordinal-ordered lists, for all projects at once. */
module MilestoneStore {
  import opened Lifecycle
  import opened Graph
  import opened Rewrites
  import opened Backoff
  import opened MilestoneTable

  class MilestoneRepo {
    var rows: map<Id, Row>
    var nextId: nat
    ghost var graphs: map<Pid, seq<Milestone>>

    ghost predicate Valid()
      reads this
    {
      Table(rows, graphs, nextId)
    }

    /** The project's milestones in ordinal order. */
    ghost function Listing(pid: Pid): seq<Milestone>
      reads this
    {
      GraphIn(graphs, pid)
    }

    constructor ()
      ensures Valid() && nextId == 0 && forall p: Pid :: Listing(p) == []
    {
      rows, nextId, graphs := map[], 0, map[];
    }

    // ----------------------------------------------------------- reading

    /** SELECT ... ORDER BY ordinal, by repeated selection of the least. */
    method ListForProject(pid: Pid) returns (listed: seq<Milestone>)
      requires Valid()
      ensures listed == Listing(pid)
    {
      listed := [];
      var todo := set id | id in rows && rows[id].pid == pid;
      assert 0 < |Listing(pid)| ==> rows[Listing(pid)[0].id].pid == pid && Listing(pid)[0].id in todo;
      while todo != {}
        invariant listed <= Listing(pid)
        invariant todo == set id | id in rows && rows[id].pid == pid && rows[id].ordinal >= |listed|
        invariant todo == {} ==> |listed| == |Listing(pid)|
        decreases todo
      {
        var id := Least(todo);
        assert |listed| < |Listing(pid)|;
        ghost var next := Listing(pid)[|listed|].id;
        assert rows[next] == Row(pid, |listed|, Listing(pid)[|listed|]) && next in todo;
        listed := listed + [rows[id].m];
        todo := todo - {id};
        assert forall x | x in todo :: rows[x].ordinal != rows[id].ordinal;
        assert |listed| < |Listing(pid)| ==> Listing(pid)[|listed|].id in todo;
      }
    }

    /** The row with the least ordinal among `ids`. */
    method Least(ids: set<Id>) returns (least: Id)
      requires ids != {} && forall id | id in ids :: id in rows
      ensures least in ids && forall id | id in ids :: rows[least].ordinal <= rows[id].ordinal
    {
      least :| least in ids;
      var todo := ids - {least};
      while todo != {}
        invariant least in ids && todo <= ids
        invariant forall id | id in ids - todo :: rows[least].ordinal <= rows[id].ordinal
        decreases todo
      {
        var id :| id in todo;
        if rows[id].ordinal < rows[least].ordinal { least := id; }
        todo := todo - {id};
      }
    }

    /** SELECT ... state IN ('pending','failed') ORDER BY ordinal LIMIT 1. */
    method NextPendingRow(pid: Pid) returns (next: Option<Milestone>)
      requires Valid()
      ensures var ms, k := Listing(pid), NextPending(Listing(pid));
              next == if k == |ms| then None else Some(ms[k])
    {
      var open := set id | id in rows && rows[id].pid == pid && Open(rows[id].m);
      ghost var ms, k := Listing(pid), NextPending(Listing(pid));
      assert k < |ms| ==> rows[ms[k].id] == Row(pid, k, ms[k]) && ms[k].id in open;
      if open == {} {
        return None;
      }
      var id := Least(open);
      var i := rows[id].ordinal;
      assert ms[i] == rows[id].m && k <= i;
      next := Some(rows[id].m);
    }

    // ------------------------------------------------------ single-row writes

    /** Overwrite the content of one row. */
    method Write(id: Id, m: Milestone)
      requires Valid() && id in rows && m.id == id
      modifies this
      ensures Valid() && nextId == old(nextId) && rows.Keys == old(rows.Keys)
      ensures forall x | x in rows && x != id :: rows[x] == old(rows[x])
      ensures rows[id] == old(rows[id]).(m := m)
      ensures var Row(p, k, _) := old(rows[id]);
              k < |old(Listing(p))| && Listing(p) == old(Listing(p))[k := m]
      ensures forall p: Pid | p != old(rows[id]).pid :: Listing(p) == old(Listing(p))
    {
      var Row(p, k, _) := rows[id];
      graphs := graphs[p := graphs[p][k := m]];
      rows := rows[id := Row(p, k, m)];
    }

    /** Row lock, transition guard, UPDATE. */
    method UpdateState(id: Id, to: MilestoneState) returns (fault: Option<Fault>)
      requires Valid()
      modifies this
      ensures Valid() && nextId == old(nextId)
      ensures forall p: Pid :: old(Has(Listing(p), id)) ==>
          Effect(old(Listing(p)), SetState(old(Listing(p)), id, to), Listing(p), fault)
      ensures forall p: Pid :: old(!Has(Listing(p), id)) ==> Listing(p) == old(Listing(p))
      ensures id !in old(rows) ==> fault == Some(NoSuchRow)
      ensures fault.Some? ==> rows == old(rows)
      ensures fault.None? ==> OneRow(old(rows), rows, id) && rows[id].m == old(rows)[id].m.(state := to)
    {
      Whereabouts(rows, graphs, nextId, id);
      if id !in rows {
        return Some(NoSuchRow);
      }
      if !LegalMilestone(rows[id].m.state, to) {
        return Some(IllegalHop);
      }
      Write(id, rows[id].m.(state := to));
      fault := None;
    }

    /** Success asks for a row that is BUILDING, failure for any not DONE. The given
        commit is stored, and without one the old kept. */
    method RecordAttempt(id: Id, success: bool, commit: Option<string>) returns (fault: Option<Fault>)
      requires Valid()
      modifies this
      ensures Valid() && nextId == old(nextId)
      ensures forall p: Pid :: old(Has(Listing(p), id)) ==>
        Effect(old(Listing(p)), Graph.RecordAttempt(old(Listing(p)), id, success, commit), Listing(p), fault)
      ensures forall p: Pid :: old(!Has(Listing(p), id)) ==> Listing(p) == old(Listing(p))
      ensures fault ==
        if id !in old(rows) then Some(NoSuchRow)
        else if old(rows)[id].m.state.Done? || (success && !old(rows)[id].m.state.Building?) then Some(IllegalHop)
        else None
      ensures fault.Some? ==> rows == old(rows)
      ensures fault.None? ==> OneRow(old(rows), rows, id) && Recorded(old(rows)[id].m, success, commit, rows[id].m)
    {
      Whereabouts(rows, graphs, nextId, id);
      if id !in rows {
        return Some(NoSuchRow);
      }
      var current := rows[id].m;
      var target := if success then MilestoneState.Done else Failed;
      if !LegalMilestone(current.state, target) {
        return Some(IllegalHop);
      }
      var hash := if commit.Some? then commit else current.commit;
      Write(id, current.(state := target, commit := hash, retries := current.retries + if success then 0 else 1));
      fault := None;
    }

    /** A rejected patch raises and changes nothing. */
    method UpdateSpec(id: Id, patch: Patch) returns (ok: bool)
      requires Valid()
      modifies this
      ensures Valid() && nextId == old(nextId)
      ensures forall p: Pid :: Listing(p) == Graph.UpdateSpec(old(Listing(p)), id, patch)
      ensures ok <==> id in old(rows) && patch.Fields?
      ensures !ok ==> rows == old(rows)
      ensures ok ==> OneRow(old(rows), rows, id) && rows[id].m == old(rows)[id].m.(spec := rows[id].m.spec)
                     && Patched(old(rows)[id].m.spec, patch, rows[id].m.spec)
    {
      Whereabouts(rows, graphs, nextId, id);
      ok := id in rows && patch.Fields?;
      if ok {
        Write(id, rows[id].m.(spec := Merge(rows[id].m.spec, patch)));
      } else if id in rows {
        assert Merge(rows[id].m.spec, patch) == rows[id].m.spec;
      }
    }

    // ------------------------------------------------------- many-row writes

    /** UPDATE ... SET state = 'pending' on the given rows. */
    method SetPending(stale: set<Id>)
      requires stale <= rows.Keys && forall id | id in stale :: rows[id].m.state.Building?
      modifies this`rows
      ensures rows.Keys == old(rows.Keys)
      ensures forall id | id in stale :: rows[id] == old(rows)[id].(m := Requeue(old(rows)[id].m))
      ensures forall id | id in rows && id !in stale :: rows[id] == old(rows)[id]
    {
      var todo := stale;
      while todo != {}
        invariant rows.Keys == old(rows.Keys) && todo <= stale
        invariant forall id | id in rows && (id in todo || id !in stale) :: rows[id] == old(rows)[id]
        invariant forall id | id in stale - todo :: rows[id] == old(rows)[id].(m := Requeue(old(rows)[id].m))
        decreases todo
      {
        var id :| id in todo;
        rows := rows[id := rows[id].(m := rows[id].m.(state := Pending))];
        todo := todo - {id};
      }
    }

    /** UPDATE ... WHERE state = 'building', over every project. */
    method RequeueStaleBuilding() returns (requeued: nat)
      requires Valid()
      modifies this
      ensures Valid() && nextId == old(nextId)
      ensures forall p: Pid :: Listing(p) == Reclaim(old(Listing(p)))
      ensures forall p: Pid :: Swept(old(Listing(p)), Listing(p), |old(Listing(p))|)
      ensures requeued == |set id | id in old(rows) && old(rows)[id].m.state.Building?|
    {
      hide Table, Reclaim, Requeue, GraphIn;
      var stale := set id | id in rows && rows[id].m.state.Building?;
      requeued := |stale|;
      ghost var before := rows;
      SetPending(stale);
      RequeuedTable(before, graphs, nextId, rows);
      graphs := map p | p in graphs :: Reclaim(graphs[p]);
      assert stale == set id | id in old(rows) && old(rows)[id].m.state.Building?;
      forall p: Pid ensures Swept(old(Listing(p)), Listing(p), |old(Listing(p))|) {
        ReclaimingSweeps(old(Listing(p)));
      }
    }

    /** UPDATE ... SET retry_count = 0 for one project's rows that are not done. */
    method ResetRetryCount(pid: Pid) returns (reset: nat)
      requires Valid()
      modifies this
      ensures Valid() && nextId == old(nextId)
      ensures Listing(pid) == ResetRetries(old(Listing(pid)))
      ensures Renewed(old(Listing(pid)), Listing(pid))
      ensures forall p: Pid | p != pid :: Listing(p) == old(Listing(p))
      ensures reset == |set id | id in old(rows) && old(rows)[id].pid == pid
                                 && !old(rows)[id].m.state.Done? && old(rows)[id].m.retries > 0|
    {
      hide Table;
      var spent := set id | id in rows && rows[id].pid == pid && !rows[id].m.state.Done? && rows[id].m.retries > 0;
      reset := |spent|;
      ghost var rows0 := rows;
      var todo := spent;
      while todo != {}
        invariant rows.Keys == old(rows.Keys) && todo <= spent && graphs == old(graphs) && nextId == old(nextId)
        invariant forall id | id in rows :: rows[id] ==
                    (if id in spent - todo then old(rows)[id].(m := Refresh(old(rows)[id].m)) else old(rows)[id])
        decreases todo
      {
        var id :| id in todo;
        rows := rows[id := rows[id].(m := rows[id].m.(retries := 0))];
        todo := todo - {id};
      }
      ResetTable(rows0, graphs, nextId, rows, pid);
      graphs := map p | p in graphs :: if p == pid then ResetRetries(graphs[p]) else graphs[p];
    }

    // --------------------------------------------------- moving ordinals

    /** UPDATE ... SET ordinal = ordinal + shift WHERE ordinal > after. */
    method ShiftAfter(pid: Pid, after: nat, shift: nat)
      modifies this`rows
      ensures rows == Shifted(old(rows), pid, after, shift)
    {
      var todo := rows.Keys;
      while todo != {}
        invariant rows.Keys == old(rows.Keys) && todo <= rows.Keys
        invariant forall id | id in todo :: rows[id] == old(rows)[id]
        invariant forall id | id in rows.Keys - todo :: rows[id] == ShiftRow(old(rows)[id], pid, after, shift)
        decreases todo
      {
        var id :| id in todo;
        if rows[id].pid == pid && rows[id].ordinal > after {
          rows := rows[id := rows[id].(ordinal := rows[id].ordinal + shift)];
        }
        todo := todo - {id};
      }
    }

    /** Insert a milestone right behind row `id`. */
    method InsertAfter(id: Id, spec: Spec) returns (fault: Option<Fault>)
      requires Valid()
      modifies this
      ensures Valid()
      ensures id !in old(rows) ==> fault == Some(NoSuchRow) && nextId == old(nextId)
      ensures id in old(rows) ==> fault.None? && nextId == old(nextId) + 1
      ensures forall p: Pid :: old(!Has(Listing(p), id)) ==> Listing(p) == old(Listing(p))
      ensures forall p: Pid :: old(Has(Listing(p), id)) ==>
        Listing(p) == InsertAt(old(Listing(p)), IndexOf(old(Listing(p)), id) + 1, Newborn(old(nextId), spec))
      ensures forall p: Pid :: old(Has(Listing(p), id)) ==>
        InsertedBehind(old(Listing(p)), Listing(p), id, Milestone(old(nextId), spec, Pending, 0, None))
    {
      hide Table, InsertAt, Shifted, Newborn, Has, IndexOf, InsertedBehind;
      Whereabouts(rows, graphs, nextId, id);
      if id !in rows {
        return Some(NoSuchRow);
      }
      var Row(p, k, _) := rows[id];
      InsertedTable(rows, graphs, nextId, id, spec);
      ShiftAfter(p, k, 1);
      rows := rows[nextId := Row(p, k + 1, Newborn(nextId, spec))];
      graphs := graphs[p := InsertAt(graphs[p], k + 1, Newborn(nextId, spec))];
      nextId := nextId + 1;
      fault := None;
      BirthIsUntried(old(nextId), spec);
      forall q: Pid | old(Has(Listing(q), id))
        ensures InsertedBehind(old(Listing(q)), Listing(q), id, Milestone(old(nextId), spec, Pending, 0, None))
      {
        InsertingStandsBehind(old(Listing(q)), id, Newborn(old(nextId), spec));
      }
    }

    method InsertChildren(pid: Pid, start: nat, into: seq<Spec>)
      modifies this`rows, this`nextId
      ensures nextId == old(nextId) + |into|
      ensures rows == old(rows) + ChildRows(pid, start, into, old(nextId), |into|)
    {
      for i := 0 to |into|
        invariant nextId == old(nextId) + i
        invariant rows == old(rows) + ChildRows(pid, start, into, old(nextId), i)
      {
        rows := rows[nextId := Row(pid, start + i, Newborn(nextId, into[i]))];
        nextId := nextId + 1;
      }
    }

    /** Replace row `id` by rows for `into`: shift the followers, delete the row,
        insert the children one by one. */
    method ReplaceWith(id: Id, into: Children) returns (fault: Option<Fault>)
      requires Valid()
      modifies this
      ensures Valid()
      ensures id !in old(rows) ==> fault == Some(NoSuchRow) && nextId == old(nextId)
      ensures id in old(rows) ==> fault.None? && nextId == old(nextId) + |into|
      ensures forall p: Pid :: Listing(p) == Graph.ReplaceWith(old(Listing(p)), id, into, old(nextId))
      ensures forall p: Pid :: Divided(old(Listing(p)), Listing(p), id, into, old(nextId))
    {
      hide Table, Splice, Newborns, ChildRows, Shifted, IndexOf, Divided;
      forall q: Pid ensures Divided(Listing(q), Graph.ReplaceWith(Listing(q), id, into, nextId), id, into, nextId) {
        ReplacingDivides(Listing(q), id, into, nextId);
      }
      Whereabouts(rows, graphs, nextId, id);
      if id !in rows {
        return Some(NoSuchRow);
      }
      var Row(p, k, _) := rows[id];
      SplicedTable(rows, graphs, nextId, id, into);
      ShiftAfter(p, k, |into| - 1);
      rows := rows - {id};
      ghost var base := nextId;
      InsertChildren(p, k, into);
      graphs := graphs[p := Splice(graphs[p], k, Newborns(into, base))];
      fault := None;
    }

    /** Insert a plan at ordinals 0, 1, ...; the (project, ordinal) key rejects
        it as a whole when the project already has rows. */
    method CreateMany(pid: Pid, specs: PlanSpecs) returns (fault: Option<Fault>)
      requires Valid()
      modifies this
      ensures Valid()
      ensures forall p: Pid | p != pid :: Listing(p) == old(Listing(p))
      ensures old(Listing(pid)) != [] ==>
        fault == Some(OrdinalClash) && nextId == old(nextId) && Listing(pid) == old(Listing(pid))
      ensures old(Listing(pid)) == [] ==>
        fault.None? && nextId == old(nextId) + |specs| && Listing(pid) == Newborns(specs, old(nextId))
        && Untried(Listing(pid), specs, old(nextId))
    {
      hide Table, ChildRows, Newborns;
      RowZero(rows, graphs, nextId, pid, |specs|);
      if id :| id in rows && rows[id].pid == pid && rows[id].ordinal < |specs| {
        return Some(OrdinalClash);
      }
      CreatedTable(rows, graphs, nextId, pid, specs);
      graphs := graphs[pid := Newborns(specs, nextId)];
      InsertChildren(pid, 0, specs);
      fault := None;
    }
  }

  /** A write that was carried out, or refused without a trace. */
  ghost predicate Effect(before: seq<Milestone>, write: Graph.Write, after: seq<Milestone>, fault: Option<Fault>) {
    match write
    case Refused(f) => fault == Some(f) && after == before
    case Written(ms) => fault.None? && after == ms
  }
}
