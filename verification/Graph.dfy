/** A project's milestones as the list `ORDER BY ordinal` yields, and every
    repository write as a function on that list. The class `MilestoneRepo`
    refines these functions on rows carrying explicit ordinals. */
module Graph {
  import opened Lifecycle

  type Id = nat

  datatype Criterion = Criterion(description: string, verifier: string)

  datatype Spec = Spec(title: string, description: string, criteria: seq<Criterion>, note: string)

  datatype Milestone = Milestone(
    id: Id, spec: Spec, state: MilestoneState, retries: nat, commit: Option<string>)

  const BLANK := Spec("", "", [], "")

  /** Schema bounds: a plan has at least one milestone, a split at least two. */
  type PlanSpecs = s: seq<Spec> | 1 <= |s| witness [BLANK]
  type Children = s: seq<Spec> | 2 <= |s| witness [BLANK, BLANK]

  /** An Amend patch: per field a new value or nothing. A patch with an unknown
      or mistyped key is rejected as a whole. */
  datatype Patch =
    | Rejected
    | Fields(title: Option<string>, description: Option<string>,
             criteria: Option<seq<Criterion>>, note: Option<string>)

  /** Why a repository call or a crew raised. */
  datatype Fault = CrewError | IllegalHop | NoSuchRow | OrdinalClash

  datatype Write = Written(ms: seq<Milestone>) | Refused(fault: Fault)

  // ---------------------------------------------------------------- lookup

  ghost predicate UniqueIds(ms: seq<Milestone>) {
    forall i, j | 0 <= i < j < |ms| :: ms[i].id != ms[j].id
  }

  ghost predicate IdsBelow(ms: seq<Milestone>, bound: nat) {
    forall i | 0 <= i < |ms| :: ms[i].id < bound
  }

  /** Position of `id`, or |ms| when no row has it. */
  function IndexOf(ms: seq<Milestone>, id: Id): (k: nat)
    ensures k <= |ms|
    ensures k < |ms| ==> ms[k].id == id
    ensures forall i | 0 <= i < k :: ms[i].id != id
  {
    if ms == [] || ms[0].id == id then 0 else 1 + IndexOf(ms[1..], id)
  }

  predicate Has(ms: seq<Milestone>, id: Id) {
    IndexOf(ms, id) < |ms|
  }

  predicate Open(m: Milestone) {
    m.state.Pending? || m.state.Failed?
  }

  /** Position of the first pending or failed row, or |ms|. */
  function NextPending(ms: seq<Milestone>): (k: nat)
    ensures k <= |ms|
    ensures k < |ms| ==> Open(ms[k])
    ensures forall i | 0 <= i < k :: !Open(ms[i])
  {
    if ms == [] || Open(ms[0]) then 0 else 1 + NextPending(ms[1..])
  }

  /** One past the last done row, or 0 when none is done. */
  function AfterLastDone(ms: seq<Milestone>): (k: nat)
    ensures k <= |ms|
    ensures k > 0 ==> ms[k-1].state.Done?
    ensures forall i | k <= i < |ms| :: !ms[i].state.Done?
  {
    if ms == [] then 0
    else if ms[|ms|-1].state.Done? then |ms|
    else AfterLastDone(ms[..|ms|-1])
  }

  lemma IndexOfAt(ms: seq<Milestone>, k: nat)
    requires UniqueIds(ms) && k < |ms|
    ensures IndexOf(ms, ms[k].id) == k
  {
    var j := IndexOf(ms, ms[k].id);
    assert ms[j].id == ms[k].id;
  }

  // ---------------------------------------------------------------- writes

  function Newborn(id: Id, spec: Spec): Milestone {
    Milestone(id, spec, Pending, 0, None)
  }

  /** Rows for `specs` with consecutive fresh ids from `base`. */
  function Newborns(specs: seq<Spec>, base: nat): (ms: seq<Milestone>)
    ensures |ms| == |specs|
    ensures forall i | 0 <= i < |ms| :: ms[i] == Newborn(base + i, specs[i])
  {
    seq(|specs|, i requires 0 <= i < |specs| => Newborn(base + i, specs[i]))
  }

  function Requeue(m: Milestone): Milestone {
    if m.state.Building? then m.(state := Pending) else m
  }

  function Reclaim(ms: seq<Milestone>): (r: seq<Milestone>)
    ensures |r| == |ms|
    ensures forall i | 0 <= i < |ms| :: r[i] == Requeue(ms[i])
  {
    seq(|ms|, i requires 0 <= i < |ms| => Requeue(ms[i]))
  }

  function Refresh(m: Milestone): Milestone {
    if m.state.Done? then m else m.(retries := 0)
  }

  function ResetRetries(ms: seq<Milestone>): (r: seq<Milestone>)
    ensures |r| == |ms|
    ensures forall i | 0 <= i < |ms| :: r[i] == Refresh(ms[i])
  {
    seq(|ms|, i requires 0 <= i < |ms| => Refresh(ms[i]))
  }

  function SetState(ms: seq<Milestone>, id: Id, to: MilestoneState): Write {
    var k := IndexOf(ms, id);
    if k == |ms| then Refused(NoSuchRow)
    else if !LegalMilestone(ms[k].state, to) then Refused(IllegalHop)
    else Written(ms[k := ms[k].(state := to)])
  }

  /** COALESCE keeps the old commit when none is given; only failures count. */
  function Attempted(m: Milestone, success: bool, commit: Option<string>): Milestone {
    m.(state := if success then MilestoneState.Done else Failed,
       commit := if commit.Some? then commit else m.commit,
       retries := if success then m.retries else m.retries + 1)
  }

  function RecordAttempt(ms: seq<Milestone>, id: Id, success: bool, commit: Option<string>): Write {
    var k := IndexOf(ms, id);
    if k == |ms| then Refused(NoSuchRow)
    else if !LegalMilestone(ms[k].state, if success then MilestoneState.Done else Failed) then Refused(IllegalHop)
    else Written(ms[k := Attempted(ms[k], success, commit)])
  }

  function InsertAt(ms: seq<Milestone>, k: nat, m: Milestone): (r: seq<Milestone>)
    requires k <= |ms|
    ensures |r| == |ms| + 1
  {
    ms[..k] + [m] + ms[k..]
  }

  function Splice(ms: seq<Milestone>, k: nat, born: seq<Milestone>): (r: seq<Milestone>)
    requires k < |ms|
    ensures |r| == |ms| - 1 + |born|
  {
    ms[..k] + born + ms[k+1..]
  }

  /** `replace_with`, seen from one project: a no-op when the id is elsewhere. */
  function ReplaceWith(ms: seq<Milestone>, id: Id, into: seq<Spec>, base: nat): seq<Milestone> {
    var k := IndexOf(ms, id);
    if k == |ms| then ms else Splice(ms, k, Newborns(into, base))
  }

  function Merge(spec: Spec, patch: Patch): Spec {
    match patch
    case Rejected => spec
    case Fields(t, d, c, n) =>
      Spec(if t.Some? then t.value else spec.title,
           if d.Some? then d.value else spec.description,
           if c.Some? then c.value else spec.criteria,
           if n.Some? then n.value else spec.note)
  }

  /** `update_spec`, seen from one project. */
  function UpdateSpec(ms: seq<Milestone>, id: Id, patch: Patch): seq<Milestone> {
    var k := IndexOf(ms, id);
    if k == |ms| then ms else ms[k := ms[k].(spec := Merge(ms[k].spec, patch))]
  }

  // ------------------------------------------------------- weighted totals

  function Total(ms: seq<Milestone>, weight: Milestone -> nat): nat {
    if ms == [] then 0 else weight(ms[0]) + Total(ms[1..], weight)
  }

  lemma {:induction false} TotalConcat(a: seq<Milestone>, b: seq<Milestone>, weight: Milestone -> nat)
    ensures Total(a + b, weight) == Total(a, weight) + Total(b, weight)
  {
    if a == [] {
      assert a + b == b;
    } else {
      assert (a + b)[1..] == a[1..] + b;
      TotalConcat(a[1..], b, weight);
    }
  }

  lemma TotalUpdate(ms: seq<Milestone>, k: nat, m: Milestone, weight: Milestone -> nat)
    requires k < |ms|
    ensures Total(ms[k := m], weight) + weight(ms[k]) == Total(ms, weight) + weight(m)
  {
    assert ms == ms[..k] + ([ms[k]] + ms[k+1..]);
    assert ms[k := m] == ms[..k] + ([m] + ms[k+1..]);
    TotalConcat(ms[..k], [ms[k]] + ms[k+1..], weight);
    TotalConcat(ms[..k], [m] + ms[k+1..], weight);
  }

  lemma TotalSplice(ms: seq<Milestone>, k: nat, born: seq<Milestone>, weight: Milestone -> nat)
    requires k < |ms|
    ensures Total(Splice(ms, k, born), weight) + weight(ms[k]) == Total(ms, weight) + Total(born, weight)
  {
    assert ms == ms[..k] + ([ms[k]] + ms[k+1..]);
    TotalConcat(ms[..k], [ms[k]] + ms[k+1..], weight);
    TotalConcat(ms[..k] + born, ms[k+1..], weight);
    TotalConcat(ms[..k], born, weight);
  }

  lemma TotalInsert(ms: seq<Milestone>, k: nat, m: Milestone, weight: Milestone -> nat)
    requires k <= |ms|
    ensures Total(InsertAt(ms, k, m), weight) == Total(ms, weight) + weight(m)
  {
    assert ms == ms[..k] + ms[k..];
    TotalConcat(ms[..k], ms[k..], weight);
    TotalConcat(ms[..k] + [m], ms[k..], weight);
    TotalConcat(ms[..k], [m], weight);
  }

  lemma {:induction false} TotalPointwise(a: seq<Milestone>, b: seq<Milestone>, weight: Milestone -> nat)
    requires |a| == |b|
    requires forall i | 0 <= i < |a| :: weight(b[i]) <= weight(a[i])
    ensures Total(b, weight) <= Total(a, weight)
  {
    if a != [] {
      assert weight(b[0]) <= weight(a[0]);
      forall i | 0 <= i < |a| - 1 ensures weight(b[1..][i]) <= weight(a[1..][i]) {
        assert weight(b[i+1]) <= weight(a[i+1]);
      }
      TotalPointwise(a[1..], b[1..], weight);
    }
  }

  lemma {:induction false} TotalBound(ms: seq<Milestone>, weight: Milestone -> nat, each: nat)
    requires forall i | 0 <= i < |ms| :: weight(ms[i]) <= each
    ensures Total(ms, weight) <= each * |ms|
  {
    if ms != [] {
      TotalBound(ms[1..], weight, each);
      calc {
        Total(ms, weight);
        weight(ms[0]) + Total(ms[1..], weight);
      <= each + each * (|ms| - 1);
        each * |ms|;
      }
    }
  }

  // ------------------------------------------------ identity preservation

  lemma ReplaceWithIds(ms: seq<Milestone>, id: Id, into: seq<Spec>, base: nat)
    requires UniqueIds(ms) && IdsBelow(ms, base)
    ensures UniqueIds(ReplaceWith(ms, id, into, base))
    ensures IdsBelow(ReplaceWith(ms, id, into, base), base + |into|)
  {
    var k := IndexOf(ms, id);
    if k < |ms| { SpliceIds(ms, k, into, base); }
    hide Splice, Newborns;
  }

  lemma SpliceIds(ms: seq<Milestone>, k: nat, into: seq<Spec>, base: nat)
    requires UniqueIds(ms) && IdsBelow(ms, base) && k < |ms|
    ensures UniqueIds(Splice(ms, k, Newborns(into, base)))
    ensures IdsBelow(Splice(ms, k, Newborns(into, base)), base + |into|)
  {
    var born := Newborns(into, base);
    var b := Splice(ms, k, born);
    hide Newborns;
    forall i | 0 <= i < |b|
      ensures b[i] == if i < k then ms[i] else if i < k + |into| then born[i-k] else ms[i-|into|+1] {}
    hide Splice;
  }

  lemma InsertAtIds(ms: seq<Milestone>, k: nat, spec: Spec, base: nat)
    requires UniqueIds(ms) && IdsBelow(ms, base) && k <= |ms|
    ensures UniqueIds(InsertAt(ms, k, Newborn(base, spec)))
    ensures IdsBelow(InsertAt(ms, k, Newborn(base, spec)), base + 1)
  {
  }
}
