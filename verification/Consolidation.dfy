/** orchestrator/consolidation.py: the "every Nth done milestone" cadence. */
module Consolidation {
  import opened Graph
  import opened Markers

  /** In two parts: the verifier does not look into longer literals. */
  const NOTE_TAIL := " Tidy + verify; the Reviewer " + "rejects feature-adds."

  /** The injected milestone. The prose of its description plays no part. */
  function ConsolidationSpec(): Spec {
    Spec("Consolidation pass", "",
         [Criterion("`make verify` exits 0", "lint"),
          Criterion("No new public functions, classes, or CLI args", "manual"),
          Criterion("README + relevant ADRs reflect current behaviour", "manual")],
         CONSOLIDATION + NOTE_TAIL)
  }

  predicate IsConsolidation(m: Milestone) {
    Contains(m.spec.note, CONSOLIDATION)
  }

  /** One turn of the counter: a consolidation resets, a done row counts. */
  function Count(m: Milestone, acc: nat): nat {
    if IsConsolidation(m) then 0 else if m.state.Done? then acc + 1 else acc
  }

  function Tally(ms: seq<Milestone>, acc: nat): nat {
    if ms == [] then acc else Tally(ms[1..], Count(ms[0], acc))
  }

  predicate InFlight(ms: seq<Milestone>) {
    exists i | 0 <= i < |ms| :: IsConsolidation(ms[i]) && !ms[i].state.Done?
  }

  predicate Due(ms: seq<Milestone>, every: int) {
    every > 0 && !InFlight(ms) && Tally(ms, 0) > 0 && Tally(ms, 0) % every == 0
  }

  lemma {:induction false} TallyConcat(a: seq<Milestone>, b: seq<Milestone>, acc: nat)
    ensures Tally(a + b, acc) == Tally(b, Tally(a, acc))
  {
    if a == [] {
      assert a + b == b;
    } else {
      assert (a + b)[1..] == a[1..] + b;
      TallyConcat(a[1..], b, Count(a[0], acc));
    }
  }

  /** The done milestones behind the last consolidation, by position. */
  ghost function DoneSince(ms: seq<Milestone>): set<nat> {
    set i: nat | i < |ms| && ms[i].state.Done?
                 && forall j | i <= j < |ms| :: !Contains(ms[j].spec.note, "[CONSOLIDATION]")
  }

  /** Every consolidation is done. */
  ghost predicate NoneOpen(ms: seq<Milestone>) {
    forall i | 0 <= i < |ms| && Contains(ms[i].spec.note, "[CONSOLIDATION]") :: ms[i].state.Done?
  }

  /** The last row resets, counts, or does nothing. */
  lemma DoneSinceSnoc(init: seq<Milestone>, last: Milestone)
    ensures DoneSince(init + [last]) ==
              if Contains(last.spec.note, "[CONSOLIDATION]") then {}
              else DoneSince(init) + if last.state.Done? then {|init|} else {}
    ensures |init| !in DoneSince(init)
  {
    hide Contains;
    var ms := init + [last];
    assert ms[|init|] == last && forall j | 0 <= j < |init| :: ms[j] == init[j];
    forall i: nat | i < |init| ensures i in DoneSince(ms) <==>
      i in DoneSince(init) && !Contains(last.spec.note, "[CONSOLIDATION]") {}
  }

  /** The counter that resets and counts ends at the number of those. */
  lemma {:induction false} TallyCounts(ms: seq<Milestone>)
    ensures Tally(ms, 0) == |DoneSince(ms)|
  {
    hide Contains;
    if ms == [] {
      assert DoneSince(ms) == {};
    } else {
      hide DoneSince;
      var init, last := ms[..|ms|-1], ms[|ms|-1];
      TallyCounts(init);
      assert ms == init + [last];
      TallyConcat(init, [last], 0);
      assert Tally([last], Tally(init, 0)) == Count(last, Tally(init, 0));
      DoneSinceSnoc(init, last);
    }
  }

  lemma DueMeans(ms: seq<Milestone>, every: int)
    ensures Due(ms, every) <==>
              every > 0 && NoneOpen(ms) && |DoneSince(ms)| > 0 && |DoneSince(ms)| % every == 0
  {
    TallyCounts(ms);
    hide Tally, DoneSince;
  }

  method ShouldInsertConsolidation(ms: seq<Milestone>, every: int) returns (due: bool)
    ensures due <==> Due(ms, every)
    ensures due <==> every > 0 && NoneOpen(ms) && |DoneSince(ms)| > 0 && |DoneSince(ms)| % every == 0
  {
    DueMeans(ms, every);
    if every <= 0 {
      return false;
    }
    for i := 0 to |ms|
      invariant forall j | 0 <= j < i :: !(IsConsolidation(ms[j]) && !ms[j].state.Done?)
    {
      if IsConsolidation(ms[i]) && !ms[i].state.Done? {
        return false;
      }
    }
    var since: nat := 0;
    for i := 0 to |ms|
      invariant Tally(ms[i..], since) == Tally(ms, 0)
    {
      assert ms[i..][1..] == ms[i+1..];
      since := if IsConsolidation(ms[i]) then 0 else if ms[i].state.Done? then since + 1 else since;
    }
    due := since > 0 && since % every == 0;
  }

  lemma ConsolidationSpecMarks()
    ensures Contains(ConsolidationSpec().note, CONSOLIDATION)
    ensures !Contains(ConsolidationSpec().note, AUTO_SPLIT)
    ensures CONSOLIDATION == "[CONSOLIDATION]" && AUTO_SPLIT == "[AUTO-SPLIT"
  {
    assert forall j | 0 <= j < |NOTE_TAIL| :: NOTE_TAIL[j] != '[';
    MarkedFront(CONSOLIDATION, NOTE_TAIL, AUTO_SPLIT);
  }
}
