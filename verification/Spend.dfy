/** The spend panel: grouped queries over the token log (db/repositories.py) and
    the loop that regroups one of them by project and by role (api/server.py).
    Tokens only; costs play no part. */
module Spend {
  import opened Lifecycle
  import opened Backoff

  type Role = string

  /** A token_log row; work outside any project has no project. */
  datatype Usage = Usage(project: Option<Pid>, role: Role, tokens: nat)

  datatype Key = Key(pid: Pid, role: Role)

  datatype Group = Group(key: Key, tokens: nat)

  predicate Under(u: Usage, want: Key -> bool) {
    u.project.Some? && want(Key(u.project.value, u.role))
  }

  /** Project-scoped tokens of the log under the wanted keys. */
  function Spent(log: seq<Usage>, want: Key -> bool): nat {
    if log == [] then 0
    else Spent(log[..|log|-1], want) + if Under(log[|log|-1], want) then log[|log|-1].tokens else 0
  }

  function Sum(rows: seq<Group>, want: Key -> bool): nat {
    if rows == [] then 0
    else Sum(rows[..|rows|-1], want) + if want(rows[|rows|-1].key) then rows[|rows|-1].tokens else 0
  }

  function Pick(rows: seq<Group>, want: Key -> bool): seq<Group> {
    if rows == [] then []
    else
      var rest := Pick(rows[..|rows|-1], want);
      if want(rows[|rows|-1].key) then rest + [rows[|rows|-1]] else rest
  }

  const ANY := (k: Key) => true

  function Is(key: Key): Key -> bool {
    (k: Key) => k == key
  }

  function OfProject(pid: Pid): Key -> bool {
    (k: Key) => k.pid == pid
  }

  function OfRole(role: Role): Key -> bool {
    (k: Key) => k.role == role
  }

  ghost predicate DistinctKeys(rows: seq<Group>) {
    forall i, j | 0 <= i < j < |rows| :: rows[i].key != rows[j].key
  }

  ghost predicate Occurs(log: seq<Usage>, want: Key -> bool) {
    exists i :: 0 <= i < |log| && Under(log[i], want)
  }

  /** GROUP BY project_id, role over the project-scoped rows, in any order. */
  ghost predicate Grouped(log: seq<Usage>, rows: seq<Group>) {
    && DistinctKeys(rows)
    && (forall i | 0 <= i < |rows| :: rows[i].tokens == Spent(log, Is(rows[i].key)) && Occurs(log, Is(rows[i].key)))
    && (forall i | 0 <= i < |log| && log[i].project.Some? ::
          exists j :: 0 <= j < |rows| && Under(log[i], Is(rows[j].key)))
  }

  // ------------------------------------------------------------ the queries

  ghost predicate Sums(log: seq<Usage>, sums: map<Key, nat>) {
    && (forall k :: k in sums <==> Occurs(log, Is(k)))
    && (forall k | k in sums :: sums[k] == Spent(log, Is(k)))
  }

  function Accumulate(sums: map<Key, nat>, u: Usage): map<Key, nat> {
    if u.project.None? then sums
    else var key := Key(u.project.value, u.role); sums[key := (if key in sums then sums[key] else 0) + u.tokens]
  }

  lemma SumsSnoc(log: seq<Usage>, i: nat, sums: map<Key, nat>)
    requires i < |log| && Sums(log[..i], sums)
    ensures Sums(log[..i+1], Accumulate(sums, log[i]))
  {
    assert log[..i+1][..i] == log[..i];
    OccursSnoc(log, i);
    if log[i].project.Some? {
      var key := Key(log[i].project.value, log[i].role);
      if key !in sums { NoneSpent(log[..i], Is(key)); }
    }
    hide Occurs;
  }

  /** `by_project_and_role`. */
  method ByProjectAndRole(log: seq<Usage>) returns (rows: seq<Group>)
    ensures Grouped(log, rows)
  {
    var sums: map<Key, nat> := map[];
    for i := 0 to |log|
      invariant Sums(log[..i], sums)
    {
      SumsSnoc(log, i, sums);
      sums := Accumulate(sums, log[i]);
    }
    assert log[..|log|] == log;
    rows := ListGroups(sums);
    ListingGroups(log, sums, rows);
  }

  ghost predicate Lists(sums: map<Key, nat>, todo: set<Key>, rows: seq<Group>) {
    && DistinctKeys(rows)
    && (forall j | 0 <= j < |rows| ::
          rows[j].key in sums && rows[j].key !in todo && rows[j].tokens == sums[rows[j].key])
    && (forall k | k in sums && k !in todo :: exists j :: 0 <= j < |rows| && rows[j].key == k)
  }

  /** One row a group; ORDER BY cost, in no order the tokens know of. */
  method ListGroups(sums: map<Key, nat>) returns (rows: seq<Group>)
    ensures Lists(sums, {}, rows)
  {
    rows := [];
    var todo := sums.Keys;
    while todo != {}
      invariant todo <= sums.Keys && Lists(sums, todo, rows)
      decreases todo
    {
      var key :| key in todo;
      ListOne(sums, todo, rows, key);
      rows := rows + [Group(key, sums[key])];
      todo := todo - {key};
    }
  }

  lemma ListOne(sums: map<Key, nat>, todo: set<Key>, rows: seq<Group>, key: Key)
    requires Lists(sums, todo, rows) && key in todo && key in sums
    ensures Lists(sums, todo - {key}, rows + [Group(key, sums[key])])
  {
    var more := rows + [Group(key, sums[key])];
    forall k | k in sums && k !in todo - {key} ensures exists j :: 0 <= j < |more| && more[j].key == k {
      if k == key {
        assert more[|rows|].key == k;
      } else {
        var j :| 0 <= j < |rows| && rows[j].key == k;
        assert more[j].key == k;
      }
    }
  }

  lemma ListingGroups(log: seq<Usage>, sums: map<Key, nat>, rows: seq<Group>)
    requires Sums(log, sums) && Lists(sums, {}, rows)
    ensures Grouped(log, rows)
  {
    forall i | 0 <= i < |log| && log[i].project.Some?
      ensures exists j :: 0 <= j < |rows| && Under(log[i], Is(rows[j].key)) {
      var key := Key(log[i].project.value, log[i].role);
      assert Under(log[i], Is(key));
      var j :| 0 <= j < |rows| && rows[j].key == key;
    }
  }

  /** Tokens spent inside projects, by project, by role, by both or by neither. */
  function Tokens(log: seq<Usage>, pid: Option<Pid>, role: Option<Role>): nat {
    if log == [] then 0
    else
      var u := log[|log|-1];
      Tokens(log[..|log|-1], pid, role)
      + if u.project.Some? && (pid == None || pid == u.project) && (role == None || role == Some(u.role))
        then u.tokens else 0
  }

  lemma {:induction false} SpentIsTokens(log: seq<Usage>, pid: Pid, role: Role)
    ensures Spent(log, Is(Key(pid, role))) == Tokens(log, Some(pid), Some(role))
    ensures Spent(log, OfProject(pid)) == Tokens(log, Some(pid), None)
    ensures Spent(log, OfRole(role)) == Tokens(log, None, Some(role))
    ensures Spent(log, ANY) == Tokens(log, None, None)
  {
    if log != [] { SpentIsTokens(log[..|log|-1], pid, role); }
  }

  /** The children under a line are the rows of its own project or role. */
  lemma {:induction false} PickedAre(rows: seq<Group>, want: Key -> bool, g: Group)
    ensures g in Pick(rows, want) <==> g in rows && want(g.key)
  {
    if rows != [] {
      assert rows == rows[..|rows|-1] + [rows[|rows|-1]];
      PickedAre(rows[..|rows|-1], want, g);
    }
  }

  /** `all_time_totals`: project-scoped or not. */
  function AllTime(log: seq<Usage>): nat {
    if log == [] then 0 else AllTime(log[..|log|-1]) + log[|log|-1].tokens
  }

  function Unscoped(log: seq<Usage>): nat {
    if log == [] then 0
    else Unscoped(log[..|log|-1]) + if log[|log|-1].project.None? then log[|log|-1].tokens else 0
  }

  lemma OccursSnoc(log: seq<Usage>, i: nat)
    requires i < |log|
    ensures forall k :: Occurs(log[..i+1], Is(k)) <==> Occurs(log[..i], Is(k)) || Under(log[i], Is(k))
  {
    forall k ensures Occurs(log[..i+1], Is(k)) <==> Occurs(log[..i], Is(k)) || Under(log[i], Is(k)) {
      if Occurs(log[..i], Is(k)) {
        var j :| 0 <= j < i && Under(log[..i][j], Is(k));
        assert Under(log[..i+1][j], Is(k));
      }
      if Under(log[i], Is(k)) { assert Under(log[..i+1][i], Is(k)); }
      if Occurs(log[..i+1], Is(k)) && !Under(log[i], Is(k)) {
        var j :| 0 <= j < i + 1 && Under(log[..i+1][j], Is(k));
        assert Under(log[..i][j], Is(k));
      }
    }
  }

  lemma {:induction false} NoneSpent(log: seq<Usage>, want: Key -> bool)
    requires !Occurs(log, want)
    ensures Spent(log, want) == 0
  {
    if log != [] {
      assert !Under(log[|log|-1], want);
      assert forall i | 0 <= i < |log| - 1 :: log[..|log|-1][i] == log[i];
      NoneSpent(log[..|log|-1], want);
    }
  }

  // ------------------------------------------------------------ regrouping

  /** One line of a breakdown and its expandable children. */
  datatype Line<T> = Line(of: T, tokens: nat, children: seq<Group>)

  const PROJECT := (k: Key) => k.pid
  const ROLE := (k: Key) => k.role

  function Tagged<T(==)>(tag: Key -> T, t: T): Key -> bool {
    (k: Key) => tag(k) == t
  }

  ghost predicate HasTag<T(!new)>(rows: seq<Group>, tag: Key -> T, t: T) {
    exists i :: 0 <= i < |rows| && tag(rows[i].key) == t
  }

  /** The two dictionaries of one dimension after the rows so far. */
  ghost predicate Dicts<T(!new)>(rows: seq<Group>, tag: Key -> T, totals: map<T, nat>, children: map<T, seq<Group>>) {
    && (forall t :: t in totals <==> HasTag(rows, tag, t))
    && (forall t :: t in children <==> t in totals)
    && (forall t | t in totals :: totals[t] == Sum(rows, Tagged(tag, t)) && children[t] == Pick(rows, Tagged(tag, t)))
  }

  lemma NoDicts<T(!new)>(tag: Key -> T)
    ensures Dicts([], tag, map[], map[])
  {
  }

  lemma TagSnoc<T(!new)>(rows: seq<Group>, i: nat, tag: Key -> T, t: T)
    requires i < |rows|
    ensures HasTag(rows[..i+1], tag, t) <==> HasTag(rows[..i], tag, t) || tag(rows[i].key) == t
  {
    if HasTag(rows[..i], tag, t) {
      var j :| 0 <= j < i && tag(rows[..i][j].key) == t;
      assert tag(rows[..i+1][j].key) == t;
    }
    if tag(rows[i].key) == t { assert tag(rows[..i+1][i].key) == t; }
    if HasTag(rows[..i+1], tag, t) && tag(rows[i].key) != t {
      var j :| 0 <= j < i + 1 && tag(rows[..i+1][j].key) == t;
      assert tag(rows[..i][j].key) == t;
    }
  }

  lemma {:induction false} NoRows<T>(rows: seq<Group>, tag: Key -> T, t: T)
    requires forall i | 0 <= i < |rows| :: tag(rows[i].key) != t
    ensures Sum(rows, Tagged(tag, t)) == 0 && Pick(rows, Tagged(tag, t)) == []
  {
    if rows != [] { NoRows(rows[..|rows|-1], tag, t); }
  }

  lemma DictsSnoc<T(!new)>(rows: seq<Group>, i: nat, tag: Key -> T, totals: map<T, nat>, children: map<T, seq<Group>>)
    requires i < |rows| && Dicts(rows[..i], tag, totals, children)
    ensures var t := tag(rows[i].key);
            Dicts(rows[..i+1], tag, totals[t := (if t in totals then totals[t] else 0) + rows[i].tokens],
                  children[t := (if t in children then children[t] else []) + [rows[i]]])
  {
    var t := tag(rows[i].key);
    assert rows[..i+1][..i] == rows[..i] && rows[..i+1][i] == rows[i];
    forall u ensures HasTag(rows[..i+1], tag, u) <==> HasTag(rows[..i], tag, u) || t == u { TagSnoc(rows, i, tag, u); }
    if t !in totals { NoRows(rows[..i], tag, t); }
    hide HasTag;
  }

  ghost predicate HasLine<T(!new)>(lines: seq<Line<T>>, t: T) {
    exists i :: 0 <= i < |lines| && lines[i].of == t
  }

  /** What a breakdown should be: one line a tag, its rows below it. */
  ghost predicate Breakdown<T(!new)>(rows: seq<Group>, tag: Key -> T, lines: seq<Line<T>>) {
    && (forall i, j | 0 <= i < j < |lines| :: lines[i].of != lines[j].of)
    && (forall i | 0 <= i < |lines| ::
          && lines[i].tokens == Sum(rows, Tagged(tag, lines[i].of))
          && lines[i].children == Pick(rows, Tagged(tag, lines[i].of)) && lines[i].children != [])
    && (forall j | 0 <= j < |rows| :: HasLine(lines, tag(rows[j].key)))
  }

  ghost predicate Listed<T(!new)>(totals: map<T, nat>, children: map<T, seq<Group>>, todo: set<T>,
      lines: seq<Line<T>>) {
    && (forall i, j | 0 <= i < j < |lines| :: lines[i].of != lines[j].of)
    && (forall i | 0 <= i < |lines| ::
          && lines[i].of in totals && lines[i].of in children && lines[i].of !in todo
          && lines[i].tokens == totals[lines[i].of] && lines[i].children == children[lines[i].of])
    && (forall t | t in totals && t !in todo :: HasLine(lines, t))
  }

  lemma ListMore<T(!new)>(totals: map<T, nat>, children: map<T, seq<Group>>, todo: set<T>, lines: seq<Line<T>>, t: T)
    requires Listed(totals, children, todo, lines) && t in todo && t in totals && t in children
    ensures Listed(totals, children, todo - {t}, lines + [Line(t, totals[t], children[t])])
  {
    var more := lines + [Line(t, totals[t], children[t])];
    forall u | u in totals && u !in todo - {t} ensures HasLine(more, u) {
      if u == t {
        assert more[|lines|].of == u;
      } else {
        var i :| 0 <= i < |lines| && lines[i].of == u;
        assert more[i].of == u;
      }
    }
  }

  lemma ListedBreaks<T(!new)>(rows: seq<Group>, tag: Key -> T, totals: map<T, nat>, children: map<T, seq<Group>>,
      lines: seq<Line<T>>)
    requires Dicts(rows, tag, totals, children) && Listed(totals, children, {}, lines)
    ensures Breakdown(rows, tag, lines)
  {
    forall i | 0 <= i < |lines| ensures lines[i].children != [] {
      SomeRow(rows, tag, lines[i].of);
    }
    forall j | 0 <= j < |rows| ensures HasLine(lines, tag(rows[j].key)) {
      assert HasTag(rows, tag, tag(rows[j].key));
      assert tag(rows[j].key) in totals;
    }
  }

  /** The lists built from the dictionaries. */
  method Lines<T(!new,==)>(ghost rows: seq<Group>, ghost tag: Key -> T, totals: map<T, nat>, children: map<T,
      seq<Group>>)
    returns (lines: seq<Line<T>>)
    requires Dicts(rows, tag, totals, children)
    ensures Breakdown(rows, tag, lines)
  {
    lines := [];
    var todo := totals.Keys;
    while todo != {}
      invariant todo <= totals.Keys && Listed(totals, children, todo, lines)
      decreases todo
    {
      var t :| t in todo;
      ListMore(totals, children, todo, lines, t);
      lines := lines + [Line(t, totals[t], children[t])];
      todo := todo - {t};
    }
    ListedBreaks(rows, tag, totals, children, lines);
  }

  lemma {:induction false} SomeRow<T(!new)>(rows: seq<Group>, tag: Key -> T, t: T)
    requires HasTag(rows, tag, t)
    ensures Pick(rows, Tagged(tag, t)) != []
  {
    if tag(rows[|rows|-1].key) != t {
      assert rows[..|rows|-1] + [rows[|rows|-1]] == rows;
      var i :| 0 <= i < |rows| && tag(rows[i].key) == t;
      assert rows[..|rows|-1][i] == rows[i];
      SomeRow(rows[..|rows|-1], tag, t);
    }
  }

  /** `_collect_spend`: one pass fills all four dictionaries. */
  method CollectSpend(rows: seq<Group>) returns (byProject: seq<Line<Pid>>, byRole: seq<Line<Role>>)
    ensures Breakdown(rows, PROJECT, byProject) && Breakdown(rows, ROLE, byRole)
  {
    hide Dicts, Breakdown;
    NoDicts(PROJECT);
    NoDicts(ROLE);
    var projectTotals: map<Pid, nat>, projectChildren: map<Pid, seq<Group>> := map[], map[];
    var roleTotals: map<Role, nat>, roleChildren: map<Role, seq<Group>> := map[], map[];
    for i := 0 to |rows|
      invariant Dicts(rows[..i], PROJECT, projectTotals, projectChildren)
      invariant Dicts(rows[..i], ROLE, roleTotals, roleChildren)
    {
      DictsSnoc(rows, i, PROJECT, projectTotals, projectChildren);
      DictsSnoc(rows, i, ROLE, roleTotals, roleChildren);
      var Key(pid, role) := rows[i].key;
      var children := if pid in projectChildren then projectChildren[pid] else [];
      projectChildren := projectChildren[pid := children + [rows[i]]];
      children := if role in roleChildren then roleChildren[role] else [];
      roleChildren := roleChildren[role := children + [rows[i]]];
      projectTotals := projectTotals[pid := (if pid in projectTotals then projectTotals[pid] else 0) + rows[i].tokens];
      roleTotals := roleTotals[role := (if role in roleTotals then roleTotals[role] else 0) + rows[i].tokens];
    }
    assert rows[..|rows|] == rows;
    byProject := Lines(rows, PROJECT, projectTotals, projectChildren);
    byRole := Lines(rows, ROLE, roleTotals, roleChildren);
  }

  // ------------------------------------------------------------- agreement

  /** Children add up to their parent. */
  lemma {:induction false} ChildrenSum(rows: seq<Group>, want: Key -> bool)
    ensures Sum(Pick(rows, want), ANY) == Sum(rows, want)
  {
    if rows != [] {
      ChildrenSum(rows[..|rows|-1], want);
      var rest, last := Pick(rows[..|rows|-1], want), rows[|rows|-1];
      assert (rest + [last])[..|rest|] == rest;
    }
  }

  function Less(log: seq<Usage>, key: Key): seq<Usage> {
    if log == [] then []
    else
      var rest := Less(log[..|log|-1], key);
      if Under(log[|log|-1], Is(key)) then rest else rest + [log[|log|-1]]
  }

  /** Taking one key's usage out of the log. */
  lemma {:induction false} LessSpent(log: seq<Usage>, key: Key, want: Key -> bool)
    ensures Spent(log, want) == Spent(Less(log, key), want) + if want(key) then Spent(log, Is(key)) else 0
  {
    if log != [] {
      LessSpent(log[..|log|-1], key, want);
      var rest, last := Less(log[..|log|-1], key), log[|log|-1];
      assert (rest + [last])[..|rest|] == rest;
    }
  }

  lemma {:induction false} LessFrom(log: seq<Usage>, key: Key, i: nat)
    requires i < |Less(log, key)|
    ensures Less(log, key)[i] in log && !Under(Less(log, key)[i], Is(key))
  {
    if i < |Less(log[..|log|-1], key)| { LessFrom(log[..|log|-1], key, i); }
  }

  /** The rows need only cover the log for their sums to be the log's. */
  ghost predicate Covers(log: seq<Usage>, rows: seq<Group>) {
    && DistinctKeys(rows)
    && (forall i | 0 <= i < |rows| :: rows[i].tokens == Spent(log, Is(rows[i].key)))
    && (forall u | u in log && u.project.Some? :: exists j :: 0 <= j < |rows| && Under(u, Is(rows[j].key)))
  }

  lemma {:induction false} Uncovered(log: seq<Usage>, want: Key -> bool)
    requires forall u | u in log :: u.project.None?
    ensures Spent(log, want) == 0
  {
    if log != [] {
      assert log[|log|-1] in log;
      Uncovered(log[..|log|-1], want);
    }
  }

  /** Any selection of groups adds up to the same selection of the log. */
  lemma {:induction false} GroupTotals(log: seq<Usage>, rows: seq<Group>, want: Key -> bool)
    requires Covers(log, rows)
    ensures Sum(rows, want) == Spent(log, want)
    decreases rows
  {
    hide Covers, Spent, Less;
    if rows == [] {
      NoGroups(log, want);
    } else {
      var init, last := rows[..|rows|-1], rows[|rows|-1];
      LessCovers(log, rows);
      LessSpent(log, last.key, want);
      GroupTotals(Less(log, last.key), init, want);
    }
  }

  lemma NoGroups(log: seq<Usage>, want: Key -> bool)
    requires Covers(log, [])
    ensures Spent(log, want) == 0
  {
    Uncovered(log, want);
  }

  lemma LessCovers(log: seq<Usage>, rows: seq<Group>)
    requires Covers(log, rows) && rows != []
    ensures Covers(Less(log, rows[|rows|-1].key), rows[..|rows|-1])
    ensures rows[|rows|-1].tokens == Spent(log, Is(rows[|rows|-1].key))
  {
    var init, last := rows[..|rows|-1], rows[|rows|-1];
    var less := Less(log, last.key);
    forall i | 0 <= i < |init| ensures init[i].tokens == Spent(less, Is(init[i].key)) {
      LessSpent(log, last.key, Is(init[i].key));
    }
    forall u | u in less && u.project.Some? ensures exists j :: 0 <= j < |init| && Under(u, Is(init[j].key)) {
      var i: nat :| i < |less| && less[i] == u;
      LessFrom(log, last.key, i);
      var j :| 0 <= j < |rows| && Under(u, Is(rows[j].key));
      assert init[j] == rows[j];
    }
  }

  function Total<T>(lines: seq<Line<T>>): nat {
    if lines == [] then 0 else Total(lines[..|lines|-1]) + lines[|lines|-1].tokens
  }

  ghost function AnyOf<T(!new)>(tag: Key -> T, lines: seq<Line<T>>): Key -> bool {
    (k: Key) => HasLine(lines, tag(k))
  }

  /** Lines with distinct tags share no row. */
  lemma {:induction false} LinesTotal<T(!new)>(rows: seq<Group>, tag: Key -> T, lines: seq<Line<T>>)
    requires forall i, j | 0 <= i < j < |lines| :: lines[i].of != lines[j].of
    requires forall i | 0 <= i < |lines| :: lines[i].tokens == Sum(rows, Tagged(tag, lines[i].of))
    ensures Total(lines) == Sum(rows, AnyOf(tag, lines))
  {
    if lines == [] {
      forall k: Key ensures !AnyOf(tag, lines)(k) { assert !HasLine(lines, tag(k)); }
      SumSplit(rows, AnyOf(tag, lines), AnyOf(tag, lines), AnyOf(tag, lines));
    } else {
      var init, last := lines[..|lines|-1], lines[|lines|-1];
      LinesTotal(rows, tag, init);
      forall k: Key
        ensures AnyOf(tag, lines)(k) <==> AnyOf(tag, init)(k) || Tagged(tag, last.of)(k)
        ensures !(AnyOf(tag, init)(k) && Tagged(tag, last.of)(k))
      {
        LineSnoc(lines, tag(k));
      }
      SumSplit(rows, AnyOf(tag, lines), AnyOf(tag, init), Tagged(tag, last.of));
    }
  }

  lemma LineSnoc<T(!new)>(lines: seq<Line<T>>, t: T)
    requires lines != [] && forall i, j | 0 <= i < j < |lines| :: lines[i].of != lines[j].of
    ensures var init, last := lines[..|lines|-1], lines[|lines|-1];
            (HasLine(lines, t) <==> HasLine(init, t) || last.of == t) && !(HasLine(init, t) && last.of == t)
  {
    var init := lines[..|lines|-1];
    if HasLine(init, t) {
      var i :| 0 <= i < |init| && init[i].of == t;
      assert lines[i].of == t;
    }
    if HasLine(lines, t) && lines[|lines|-1].of != t {
      var i :| 0 <= i < |lines| && lines[i].of == t;
      assert init[i].of == t;
    }
    if lines[|lines|-1].of == t { assert HasLine(lines, t); }
  }

  lemma {:induction false} SumSplit(rows: seq<Group>, all: Key -> bool, a: Key -> bool, b: Key -> bool)
    requires forall k :: all(k) <==> a(k) || b(k)
    requires forall k :: !(a(k) && b(k))
    ensures Sum(rows, all) == Sum(rows, a) + Sum(rows, b)
  {
    if rows != [] { SumSplit(rows[..|rows|-1], all, a, b); }
  }

  lemma {:induction false} SumSame(rows: seq<Group>, a: Key -> bool, b: Key -> bool)
    requires forall i | 0 <= i < |rows| :: a(rows[i].key) == b(rows[i].key)
    ensures Sum(rows, a) == Sum(rows, b)
  {
    if rows != [] { SumSame(rows[..|rows|-1], a, b); }
  }

  lemma BreakdownTotal<T(!new)>(log: seq<Usage>, rows: seq<Group>, tag: Key -> T, lines: seq<Line<T>>)
    requires Grouped(log, rows) && Breakdown(rows, tag, lines)
    ensures Total(lines) == Spent(log, ANY)
  {
    LinesTotal(rows, tag, lines);
    SumSame(rows, AnyOf(tag, lines), ANY);
    GroupTotals(log, rows, ANY);
  }

  lemma {:induction false} ScopedAndNot(log: seq<Usage>)
    ensures AllTime(log) == Spent(log, ANY) + Unscoped(log)
  {
    if log != [] { ScopedAndNot(log[..|log|-1]); }
  }

  lemma {:induction false} PickedFrom(rows: seq<Group>, want: Key -> bool) returns (j: nat)
    requires Pick(rows, want) != []
    ensures j < |rows| && want(rows[j].key)
  {
    if want(rows[|rows|-1].key) { j := |rows| - 1; } else { j := PickedFrom(rows[..|rows|-1], want); }
  }

  /** A project has a line exactly when it has usage, were it of zero tokens. */
  lemma ProjectsListed(log: seq<Usage>, rows: seq<Group>, byProject: seq<Line<Pid>>, pid: Pid)
    requires Grouped(log, rows) && Breakdown(rows, PROJECT, byProject)
    ensures HasLine(byProject, pid) <==> exists n :: 0 <= n < |log| && log[n].project == Some(pid)
  {
    assert Occurs(log, OfProject(pid)) <==> exists n :: 0 <= n < |log| && Under(log[n], OfProject(pid));
    hide Spent, Sum;
    if HasLine(byProject, pid) {
      var i :| 0 <= i < |byProject| && byProject[i].of == pid;
      var j := PickedFrom(rows, Tagged(PROJECT, pid));
      var n :| 0 <= n < |log| && Under(log[n], Is(rows[j].key));
      assert Under(log[n], OfProject(pid));
    }
    if Occurs(log, OfProject(pid)) {
      var n :| 0 <= n < |log| && Under(log[n], OfProject(pid));
      var j :| 0 <= j < |rows| && Under(log[n], Is(rows[j].key));
      assert HasLine(byProject, PROJECT(rows[j].key));
    }
  }

  /** The panel agrees with grouping the log directly: project by project, child
      by child and in total, whichever dimension is expanded. It falls short of
      the all-time total by what was spent outside any project. */
  lemma SpendAgrees(log: seq<Usage>, rows: seq<Group>, byProject: seq<Line<Pid>>, byRole: seq<Line<Role>>)
    requires Grouped(log, rows) && Breakdown(rows, PROJECT, byProject) && Breakdown(rows, ROLE, byRole)
    ensures forall i | 0 <= i < |rows| :: rows[i].tokens == Tokens(log, Some(rows[i].key.pid), Some(rows[i].key.role))
    ensures forall i | 0 <= i < |byProject| ::
      && byProject[i].tokens == Tokens(log, Some(byProject[i].of), None)
      && Sum(byProject[i].children, ANY) == byProject[i].tokens
      && forall g :: g in byProject[i].children <==> g in rows && g.key.pid == byProject[i].of
    ensures forall i | 0 <= i < |byRole| ::
      && byRole[i].tokens == Tokens(log, None, Some(byRole[i].of))
      && Sum(byRole[i].children, ANY) == byRole[i].tokens
      && forall g :: g in byRole[i].children <==> g in rows && g.key.role == byRole[i].of
    ensures Total(byProject) == Total(byRole) == Tokens(log, None, None) == AllTime(log) - Unscoped(log)
  {
    SpentIsTokens(log, 0, "");
    forall i | 0 <= i < |rows|
      ensures rows[i].tokens == Tokens(log, Some(rows[i].key.pid), Some(rows[i].key.role))
    {
      SpentIsTokens(log, rows[i].key.pid, rows[i].key.role);
    }
    forall i | 0 <= i < |byProject|
      ensures byProject[i].tokens == Tokens(log, Some(byProject[i].of), None)
      ensures Sum(byProject[i].children, ANY) == byProject[i].tokens
      ensures forall g :: g in byProject[i].children <==> g in rows && g.key.pid == byProject[i].of
    {
      SpentIsTokens(log, byProject[i].of, "");
      forall g { PickedAre(rows, Tagged(PROJECT, byProject[i].of), g); }
      var pid := byProject[i].of;
      ChildrenSum(rows, Tagged(PROJECT, pid));
      SumSame(rows, Tagged(PROJECT, pid), OfProject(pid));
      GroupTotals(log, rows, OfProject(pid));
    }
    forall i | 0 <= i < |byRole|
      ensures byRole[i].tokens == Tokens(log, None, Some(byRole[i].of))
      ensures Sum(byRole[i].children, ANY) == byRole[i].tokens
      ensures forall g :: g in byRole[i].children <==> g in rows && g.key.role == byRole[i].of
    {
      SpentIsTokens(log, 0, byRole[i].of);
      forall g { PickedAre(rows, Tagged(ROLE, byRole[i].of), g); }
      var role := byRole[i].of;
      ChildrenSum(rows, Tagged(ROLE, role));
      SumSame(rows, Tagged(ROLE, role), OfRole(role));
      GroupTotals(log, rows, OfRole(role));
    }
    BreakdownTotal(log, rows, PROJECT, byProject);
    BreakdownTotal(log, rows, ROLE, byRole);
    ScopedAndNot(log);
  }
}
