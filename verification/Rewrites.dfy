/** What the repository's calls do to a project's list, said in the fields of its
    rows: relations that `Graph`'s functions are shown to satisfy. */
module Rewrites {
  import opened Lifecycle
  import opened Graph

  /** Every row but the k-th is as it was, save that one left BUILDING is PENDING
      again. */
  ghost predicate Swept(a: seq<Milestone>, b: seq<Milestone>, k: nat) {
    && |b| == |a|
    && forall i | 0 <= i < |a| && i != k :: b[i] == if a[i].state.Building? then a[i].(state := Pending) else a[i]
  }

  /** Row k is the next to be built: those before it are done, it is not. */
  ghost predicate FirstUndone(ms: seq<Milestone>, k: nat) {
    k < |ms| && !ms[k].state.Done? && forall i | 0 <= i < k :: ms[i].state.Done?
  }

  /** Failed attempts are forgotten, on every row not done. */
  ghost predicate Renewed(a: seq<Milestone>, b: seq<Milestone>) {
    |b| == |a| && forall i | 0 <= i < |a| :: b[i] == if a[i].state.Done? then a[i] else a[i].(retries := 0)
  }

  /** The row after an attempt: what it was, but for outcome, count and commit. */
  ghost predicate Recorded(was: Milestone, success: bool, commit: Option<string>, now: Milestone) {
    && now == was.(state := now.state, retries := now.retries, commit := now.commit)
    && (success ==> now.state.Done? && now.retries == was.retries)
    && (!success ==> now.state.Failed? && now.retries == was.retries + 1)
    && (commit.Some? ==> now.commit == commit) && (commit.None? ==> now.commit == was.commit)
  }

  /** `m` stands right behind the row `id`. */
  ghost predicate InsertedBehind(a: seq<Milestone>, b: seq<Milestone>, id: Id, m: Milestone) {
    exists k :: 0 <= k < |a| && a[k].id == id && b == a[..k+1] + [m] + a[k+1..]
  }

  ghost predicate NoRow(ms: seq<Milestone>, id: Id) {
    forall i | 0 <= i < |ms| :: ms[i].id != id
  }

  ghost predicate OnlyRow(a: seq<Milestone>, b: seq<Milestone>, k: nat) {
    k < |a| == |b| && forall i | 0 <= i < |a| && i != k :: b[i] == a[i]
  }

  /** Rows for `specs`, untouched, with ids from `base`. */
  ghost predicate Untried(ms: seq<Milestone>, specs: seq<Spec>, base: nat) {
    |ms| == |specs| && forall j | 0 <= j < |ms| :: ms[j] == Milestone(base + j, specs[j], Pending, 0, None)
  }

  /** The row `id` made way for rows for `into`; without it nothing changed. */
  ghost predicate Divided(a: seq<Milestone>, b: seq<Milestone>, id: Id, into: seq<Spec>, base: nat) {
    if NoRow(a, id) then b == a
    else exists k :: 0 <= k < |a| && a[k].id == id && DividedAt(a, b, k, into, base)
  }

  ghost predicate DividedAt(a: seq<Milestone>, b: seq<Milestone>, k: nat, into: seq<Spec>, base: nat) {
    && k < |a| && |b| == |a| - 1 + |into|
    && b[..k] == a[..k] && Untried(b[k..k+|into|], into, base) && b[k+|into|..] == a[k+1..]
  }

  ghost predicate Took<T>(was: T, given: Option<T>, now: T) {
    (given.Some? ==> now == given.value) && (given.None? ==> now == was)
  }

  /** Every field the patch gives is taken, every other kept. */
  ghost predicate Patched(was: Spec, patch: Patch, now: Spec) {
    if patch.Rejected? then now == was
    else
      && Took(was.title, patch.title, now.title) && Took(was.description, patch.description, now.description)
      && Took(was.criteria, patch.criteria, now.criteria) && Took(was.note, patch.note, now.note)
  }

  ghost predicate Amended(a: seq<Milestone>, b: seq<Milestone>, id: Id, patch: Patch) {
    && |b| == |a|
    && forall i | 0 <= i < |a| ::
         if a[i].id != id then b[i] == a[i]
         else b[i] == a[i].(spec := b[i].spec) && Patched(a[i].spec, patch, b[i].spec)
  }

  lemma ReplacingDivides(ms: seq<Milestone>, id: Id, into: seq<Spec>, base: nat)
    ensures Divided(ms, ReplaceWith(ms, id, into, base), id, into, base)
  {
    var k := IndexOf(ms, id);
    if k < |ms| {
      var b := Splice(ms, k, Newborns(into, base));
      assert b[k..k+|into|] == Newborns(into, base);
      assert DividedAt(ms, b, k, into, base);
    }
  }

  lemma InsertingStandsBehind(ms: seq<Milestone>, id: Id, m: Milestone)
    requires Has(ms, id)
    ensures InsertedBehind(ms, InsertAt(ms, IndexOf(ms, id) + 1, m), id, m)
  {
  }

  lemma ReclaimingSweeps(ms: seq<Milestone>)
    ensures Swept(ms, Reclaim(ms), |ms|)
  {
  }

  lemma BirthIsUntried(id: Id, spec: Spec)
    ensures Newborn(id, spec) == Milestone(id, spec, Pending, 0, None)
  {
  }

  lemma UpdatingAmends(ms: seq<Milestone>, id: Id, patch: Patch)
    requires UniqueIds(ms)
    ensures Amended(ms, UpdateSpec(ms, id, patch), id, patch)
  {
    var k := IndexOf(ms, id);
    forall i | 0 <= i < |ms| && ms[i].id == id ensures i == k { IndexOfAt(ms, i); }
  }
}
