/** The milestones table (PsycopgMilestoneRepo): rows under a project and an
    explicit ordinal, rewritten in place one by one. `Table` ties it to the
    lists of `Graph`: ordinals are dense and unique, and sorting by them yields
    each project's list. */
module MilestoneTable {
  import opened Graph
  import opened Backoff

  datatype Row = Row(pid: Pid, ordinal: nat, m: Milestone)

  /** Only row `id` was written, and it stayed where it was. */
  ghost predicate OneRow(before: map<Id, Row>, after: map<Id, Row>, id: Id) {
    && id in before && after.Keys == before.Keys && after[id] == before[id].(m := after[id].m)
    && forall x | x in before && x != id :: after[x] == before[x]
  }

  ghost function GraphIn(graphs: map<Pid, seq<Milestone>>, pid: Pid): seq<Milestone> {
    if pid in graphs then graphs[pid] else []
  }

  /** `graphs` lists the rows by project and ordinal, all and nothing else. */
  ghost predicate Table(rows: map<Id, Row>, graphs: map<Pid, seq<Milestone>>, nextId: nat) {
    && (forall id | id in rows ::
          && rows[id].m.id == id && id < nextId
          && rows[id].pid in graphs && rows[id].ordinal < |graphs[rows[id].pid]|
          && graphs[rows[id].pid][rows[id].ordinal] == rows[id].m)
    && (forall p, k | p in graphs && 0 <= k < |graphs[p]| ::
          && graphs[p][k].id in rows
          && rows[graphs[p][k].id] == Row(p, k, graphs[p][k]))
  }

  lemma ReadsBelow(rows: map<Id, Row>, a: map<Pid, seq<Milestone>>, b: map<Pid, seq<Milestone>>, nextId: nat, pid: Pid)
    requires Table(rows, a, nextId) && Table(rows, b, nextId)
    ensures GraphIn(a, pid) <= GraphIn(b, pid)
  {
    var x := GraphIn(a, pid);
    forall k: nat | k < |x| ensures k < |GraphIn(b, pid)| && GraphIn(b, pid)[k] == x[k] {
      assert rows[x[k].id] == Row(pid, k, x[k]);
    }
    if x != [] {
      assert rows[x[|x|-1].id] == Row(pid, |x|-1, x[|x|-1]);
    }
  }

  /** A table has one reading: the rows determine every list. */
  lemma ReadingIsUnique(rows: map<Id, Row>, a: map<Pid, seq<Milestone>>, b: map<Pid, seq<Milestone>>,
      nextId: nat, pid: Pid)
    requires Table(rows, a, nextId) && Table(rows, b, nextId)
    ensures GraphIn(a, pid) == GraphIn(b, pid)
  {
    ReadsBelow(rows, a, b, nextId, pid);
    ReadsBelow(rows, b, a, nextId, pid);
  }

  lemma GraphIds(rows: map<Id, Row>, graphs: map<Pid, seq<Milestone>>, nextId: nat, pid: Pid)
    requires Table(rows, graphs, nextId)
    ensures UniqueIds(GraphIn(graphs, pid)) && IdsBelow(GraphIn(graphs, pid), nextId)
  {
    var ms := GraphIn(graphs, pid);
    forall i, j | 0 <= i < j < |ms| ensures ms[i].id != ms[j].id {
      assert rows[ms[i].id] == Row(pid, i, ms[i]) && rows[ms[j].id] == Row(pid, j, ms[j]);
    }
  }

  /** A row is found in its own project's list, at its ordinal, and in no other. */
  lemma Whereabouts(rows: map<Id, Row>, graphs: map<Pid, seq<Milestone>>, nextId: nat, id: Id)
    requires Table(rows, graphs, nextId)
    ensures id in rows ==> rows[id].pid in graphs && rows[id].ordinal < |graphs[rows[id].pid]|
    ensures id in rows ==> IndexOf(GraphIn(graphs, rows[id].pid), id) == rows[id].ordinal
    ensures forall p: Pid :: Has(GraphIn(graphs, p), id) <==> id in rows && rows[id].pid == p
  {
    if id in rows {
      GraphIds(rows, graphs, nextId, rows[id].pid);
      IndexOfAt(graphs[rows[id].pid], rows[id].ordinal);
    }
    forall p: Pid ensures Has(GraphIn(graphs, p), id) <==> id in rows && rows[id].pid == p {
      var k := IndexOf(GraphIn(graphs, p), id);
      if k < |GraphIn(graphs, p)| {
        assert rows[graphs[p][k].id] == Row(p, k, graphs[p][k]);
      }
    }
  }

  /** Whether a row belongs to someone else is settled by the others' lists. */
  lemma StillElsewhere(rows: map<Id, Row>, graphs: map<Pid, seq<Milestone>>, nextId: nat,
                       rows': map<Id, Row>, graphs': map<Pid, seq<Milestone>>, nextId': nat, pid: Pid, id: Id)
    requires Table(rows, graphs, nextId) && Table(rows', graphs', nextId')
    requires forall p: Pid | p != pid :: GraphIn(graphs', p) == GraphIn(graphs, p)
    ensures (id in rows && rows[id].pid != pid) <==> (id in rows' && rows'[id].pid != pid)
  {
    Whereabouts(rows, graphs, nextId, id);
    Whereabouts(rows', graphs', nextId', id);
    if id in rows && rows[id].pid != pid { assert Has(GraphIn(graphs', rows[id].pid), id); }
    if id in rows' && rows'[id].pid != pid { assert Has(GraphIn(graphs, rows'[id].pid), id); }
  }

  // ----------------------------------------------------- shifting ordinals

  function ShiftRow(r: Row, pid: Pid, after: nat, shift: nat): Row {
    if r.pid == pid && r.ordinal > after then r.(ordinal := r.ordinal + shift) else r
  }

  function Shifted(rows: map<Id, Row>, pid: Pid, after: nat, shift: nat): map<Id, Row> {
    map id | id in rows :: ShiftRow(rows[id], pid, after, shift)
  }

  lemma InsertedTable(rows: map<Id, Row>, graphs: map<Pid, seq<Milestone>>, nextId: nat, at: Id, spec: Spec)
    requires Table(rows, graphs, nextId) && at in rows
    ensures var Row(p, k, _) := rows[at];
            Table(Shifted(rows, p, k, 1)[nextId := Row(p, k + 1, Newborn(nextId, spec))],
                  graphs[p := InsertAt(graphs[p], k + 1, Newborn(nextId, spec))], nextId + 1)
  {
    var Row(p, k, _) := rows[at];
    var rows' := Shifted(rows, p, k, 1)[nextId := Row(p, k + 1, Newborn(nextId, spec))];
    var graphs': map<Pid, seq<Milestone>> := graphs[p := InsertAt(graphs[p], k + 1, Newborn(nextId, spec))];
    forall q, j | q in graphs' && 0 <= j < |graphs'[q]|
      ensures graphs'[q][j].id in rows' && rows'[graphs'[q][j].id] == Row(q, j, graphs'[q][j])
    {
      if q != p || j <= k {
        assert graphs'[q][j] == graphs[q][j];
      } else if j > k + 1 {
        assert graphs'[q][j] == graphs[q][j-1];
      }
    }
  }

  /** The first n child rows, with consecutive ordinals and ids. */
  function ChildRows(p: Pid, k: nat, into: seq<Spec>, base: nat, n: nat): (rows: map<Id, Row>)
    requires n <= |into|
    ensures forall id: Id :: id in rows <==> base <= id < base + n
    ensures forall id: Id | base <= id < base + n :: rows[id] == Row(p, k + (id - base), Newborn(id, into[id - base]))
  {
    if n == 0 then map[]
    else ChildRows(p, k, into, base, n - 1)[base + n - 1 := Row(p, k + n - 1, Newborn(base + n - 1, into[n - 1]))]
  }

  function SplicedRows(rows: map<Id, Row>, nextId: nat, id: Id, into: seq<Spec>): map<Id, Row>
    requires id in rows && |into| >= 1
  {
    var Row(p, k, _) := rows[id];
    (Shifted(rows, p, k, |into| - 1) - {id}) + ChildRows(p, k, into, nextId, |into|)
  }

  lemma SplicedListed(rows: map<Id, Row>, graphs: map<Pid, seq<Milestone>>, nextId: nat, id: Id, into: seq<Spec>, x: Id)
    requires Table(rows, graphs, nextId) && id in rows && |into| >= 1 && x in SplicedRows(rows, nextId, id, into)
    ensures var Row(p, k, _) := rows[id];
            var ms, r := Splice(graphs[p], k, Newborns(into, nextId)), SplicedRows(rows, nextId, id, into)[x];
            && r.m.id == x && x < nextId + |into|
            && (if r.pid == p then r.ordinal < |ms| && ms[r.ordinal] == r.m
                else r.pid in graphs && r.ordinal < |graphs[r.pid]| && graphs[r.pid][r.ordinal] == r.m)
  {
    var Row(p, k, _) := rows[id];
    if x < nextId {
      assert x in rows && SplicedRows(rows, nextId, id, into)[x] == ShiftRow(rows[x], p, k, |into| - 1);
      assert x != id && (rows[x].pid == p ==> rows[x].ordinal != k);
    }
  }

  lemma SplicedFound(rows: map<Id, Row>, graphs: map<Pid, seq<Milestone>>, nextId: nat, id: Id, into: seq<Spec>, j: nat)
    requires Table(rows, graphs, nextId) && id in rows && |into| >= 1
    requires j < |Splice(graphs[rows[id].pid], rows[id].ordinal, Newborns(into, nextId))|
    ensures var Row(p, k, _) := rows[id];
            var m, rows' := Splice(graphs[p], k, Newborns(into, nextId))[j], SplicedRows(rows, nextId, id, into);
            m.id in rows' && rows'[m.id] == Row(p, j, m)
  {
    var Row(p, k, _) := rows[id];
    var m := Splice(graphs[p], k, Newborns(into, nextId))[j];
    if j < k {
      assert m == graphs[p][j];
    } else if j < k + |into| {
      assert m == Newborn(nextId + (j - k), into[j - k]);
    } else {
      assert m == graphs[p][j - |into| + 1];
    }
  }

  lemma SplicedTable(rows: map<Id, Row>, graphs: map<Pid, seq<Milestone>>, nextId: nat, id: Id, into: seq<Spec>)
    requires Table(rows, graphs, nextId) && id in rows && |into| >= 1
    ensures var Row(p, k, _) := rows[id];
            Table(SplicedRows(rows, nextId, id, into),
                  graphs[p := Splice(graphs[p], k, Newborns(into, nextId))], nextId + |into|)
  {
    var Row(p, k, _) := rows[id];
    var rows' := SplicedRows(rows, nextId, id, into);
    var graphs': map<Pid, seq<Milestone>> := graphs[p := Splice(graphs[p], k, Newborns(into, nextId))];
    forall q, j | q in graphs' && 0 <= j < |graphs'[q]|
      ensures graphs'[q][j].id in rows' && rows'[graphs'[q][j].id] == Row(q, j, graphs'[q][j])
    {
      if q == p {
        SplicedFound(rows, graphs, nextId, id, into, j);
      } else {
        assert rows[graphs[q][j].id] == Row(q, j, graphs[q][j]);
      }
    }
    hide SplicedRows;
    forall x | x in rows'
      ensures rows'[x].m.id == x && x < nextId + |into| && rows'[x].pid in graphs'
      ensures rows'[x].ordinal < |graphs'[rows'[x].pid]| && graphs'[rows'[x].pid][rows'[x].ordinal] == rows'[x].m
    {
      SplicedListed(rows, graphs, nextId, id, into, x);
    }
  }

  lemma CreatedListed(rows: map<Id, Row>, graphs: map<Pid, seq<Milestone>>, nextId: nat, pid: Pid,
      specs: seq<Spec>, x: Id)
    requires Table(rows, graphs, nextId) && GraphIn(graphs, pid) == []
    requires x in rows + ChildRows(pid, 0, specs, nextId, |specs|)
    ensures var r := (rows + ChildRows(pid, 0, specs, nextId, |specs|))[x];
            && r.m.id == x && x < nextId + |specs|
            && (if r.pid == pid then r.ordinal < |specs| && Newborns(specs, nextId)[r.ordinal] == r.m
                else r.pid in graphs && r.ordinal < |graphs[r.pid]| && graphs[r.pid][r.ordinal] == r.m)
  {
    if x < nextId { assert x in rows && rows[x].pid != pid; }
  }

  /** The ordinals 0, 1, ... are taken as soon as there is one row. */
  lemma RowZero(rows: map<Id, Row>, graphs: map<Pid, seq<Milestone>>, nextId: nat, pid: Pid, n: nat)
    requires Table(rows, graphs, nextId) && n >= 1
    ensures (exists id :: id in rows && rows[id].pid == pid && rows[id].ordinal < n) <==> GraphIn(graphs, pid) != []
  {
    var ms := GraphIn(graphs, pid);
    if ms != [] {
      assert ms[0].id in rows && rows[ms[0].id] == Row(pid, 0, ms[0]);
    }
  }

  lemma CreatedFound(rows: map<Id, Row>, graphs: map<Pid, seq<Milestone>>, nextId: nat, pid: Pid,
      specs: seq<Spec>, q: Pid, j: nat)
    requires Table(rows, graphs, nextId) && GraphIn(graphs, pid) == []
    requires j < |GraphIn(graphs[pid := Newborns(specs, nextId)], q)|
    ensures var m := GraphIn(graphs[pid := Newborns(specs, nextId)], q)[j];
            var rows' := rows + ChildRows(pid, 0, specs, nextId, |specs|);
            m.id in rows' && rows'[m.id] == Row(q, j, m)
  {
    if q != pid { assert rows[graphs[q][j].id] == Row(q, j, graphs[q][j]); }
  }

  lemma CreatedTable(rows: map<Id, Row>, graphs: map<Pid, seq<Milestone>>, nextId: nat, pid: Pid, specs: seq<Spec>)
    requires Table(rows, graphs, nextId) && GraphIn(graphs, pid) == []
    ensures Table(rows + ChildRows(pid, 0, specs, nextId, |specs|), graphs[pid := Newborns(specs, nextId)],
        nextId + |specs|)
  {
    hide ChildRows, Newborns;
    var rows' := rows + ChildRows(pid, 0, specs, nextId, |specs|);
    var graphs': map<Pid, seq<Milestone>> := graphs[pid := Newborns(specs, nextId)];
    forall q, j | q in graphs' && 0 <= j < |graphs'[q]|
      ensures graphs'[q][j].id in rows' && rows'[graphs'[q][j].id] == Row(q, j, graphs'[q][j])
    {
      CreatedFound(rows, graphs, nextId, pid, specs, q, j);
    }
    forall x | x in rows'
      ensures rows'[x].m.id == x && x < nextId + |specs| && rows'[x].pid in graphs'
      ensures rows'[x].ordinal < |graphs'[rows'[x].pid]| && graphs'[rows'[x].pid][rows'[x].ordinal] == rows'[x].m
    {
      CreatedListed(rows, graphs, nextId, pid, specs, x);
    }
  }

  /** Contents rewritten in place, in rows and lists alike. */
  lemma RewrittenTable(rows: map<Id, Row>, graphs: map<Pid, seq<Milestone>>, nextId: nat,
                       rows': map<Id, Row>, graphs': map<Pid, seq<Milestone>>)
    requires Table(rows, graphs, nextId) && rows'.Keys == rows.Keys && graphs'.Keys == graphs.Keys
    requires forall id | id in rows :: rows'[id] == rows[id].(m := rows'[id].m) && rows'[id].m.id == id
    requires forall p | p in graphs :: |graphs'[p]| == |graphs[p]|
    requires forall p, k | p in graphs && 0 <= k < |graphs[p]| ::
               graphs[p][k].id in rows' && graphs'[p][k] == rows'[graphs[p][k].id].m
    ensures Table(rows', graphs', nextId)
  {
    forall p, k | p in graphs' && 0 <= k < |graphs'[p]|
      ensures graphs'[p][k].id in rows' && rows'[graphs'[p][k].id] == Row(p, k, graphs'[p][k])
    {
      assert rows[graphs[p][k].id] == Row(p, k, graphs[p][k]);
    }
  }

  lemma ResetTable(rows: map<Id, Row>, graphs: map<Pid, seq<Milestone>>, nextId: nat, rows': map<Id, Row>, pid: Pid)
    requires Table(rows, graphs, nextId) && rows'.Keys == rows.Keys
    requires forall id | id in rows ::
               rows'[id] == if rows[id].pid == pid then rows[id].(m := Refresh(rows[id].m)) else rows[id]
    ensures Table(rows', map p | p in graphs :: if p == pid then ResetRetries(graphs[p]) else graphs[p], nextId)
  {
    RewrittenTable(rows, graphs, nextId, rows', map p | p in graphs ::
        if p == pid then ResetRetries(graphs[p]) else graphs[p]);
  }

  lemma RequeuedTable(rows: map<Id, Row>, graphs: map<Pid, seq<Milestone>>, nextId: nat, rows': map<Id, Row>)
    requires Table(rows, graphs, nextId) && rows'.Keys == rows.Keys
    requires forall id | id in rows && rows[id].m.state.Building? :: rows'[id] == rows[id].(m := Requeue(rows[id].m))
    requires forall id | id in rows && !rows[id].m.state.Building? :: rows'[id] == rows[id]
    ensures Table(rows', map p | p in graphs :: Reclaim(graphs[p]), nextId)
    ensures forall p: Pid :: GraphIn(map p | p in graphs :: Reclaim(graphs[p]), p) == Reclaim(GraphIn(graphs, p))
  {
    RewrittenTable(rows, graphs, nextId, rows', map p | p in graphs :: Reclaim(graphs[p]));
  }
}
