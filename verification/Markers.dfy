/** Substring tests for the two markers stamped into a technical note. */
module Markers {

  const CONSOLIDATION := "[CONSOLIDATION]"
  const AUTO_SPLIT := "[AUTO-SPLIT"

  predicate OccursAt(text: string, part: string, i: nat) {
    i + |part| <= |text| && text[i..i+|part|] == part
  }

  predicate Contains(text: string, part: string) {
    exists i: nat | i <= |text| :: OccursAt(text, part, i)
  }

  lemma ContainsMeans(text: string, part: string)
    ensures Contains(text, part) <==> exists a, b :: text == a + part + b
  {
    if i: nat :| i <= |text| && OccursAt(text, part, i) {
      assert text == text[..i] + part + text[i+|part|..];
    }
    if a, b :| text == a + part + b {
      assert text[|a|..|a|+|part|] == part;
      assert OccursAt(text, part, |a|);
    }
  }

  /** A bisected child's note (auto_split.py:101-113). */
  function ChildNote(note: string, half: string): string
  {
    note + (if note == "" then "" else " ") + half
  }

  const HALF_1 := "[AUTO-SPLIT 1/2]"
  const HALF_2 := "[AUTO-SPLIT 2/2]"

  lemma OccursKeeps(a: string, b: string, part: string, i: nat)
    requires OccursAt(a, part, i)
    ensures OccursAt(a + b, part, i)
  {
    assert (a + b)[i..i+|part|] == a[i..i+|part|];
  }

  lemma OccursLetter(text: string, part: string, i: nat, j: nat)
    requires j < |part|
    ensures OccursAt(text, part, i) ==> text[i+j] == part[j]
  {
    if OccursAt(text, part, i) {
      assert text[i..i+|part|][j] == text[i+j];
    }
  }

  /** A bracketed word without blanks that opens differently from `tag` can
      only occur in note + glue + tag inside the note. */
  lemma NoStraddle(note: string, glue: string, tag: string, part: string, i: nat)
    requires |part| >= 2 && part[0] == '[' && forall j | 1 <= j < |part| :: part[j] != '[' && part[j] != ' '
    requires |tag| >= 2 && tag[0] == '[' && tag[1] != part[1] && forall j | 1 <= j < |tag| :: tag[j] != '['
    requires glue == "" || glue == " "
    requires OccursAt(note + glue + tag, part, i)
    ensures OccursAt(note, part, i)
  {
    var text, start := note + glue + tag, |note| + |glue|;
    var j := if i + |part| <= |note| || i > start then 0 else if i == start then 1
             else if glue == "" then start - i else |note| - i;
    OccursLetter(text, part, i, j);
    if i + |part| <= |note| {
      assert note[i..i+|part|] == text[i..i+|part|];
    }
  }

  lemma MarkerShapes(half: string)
    requires half == HALF_1 || half == HALF_2
    ensures |CONSOLIDATION| >= 2 && CONSOLIDATION[0] == '[' && CONSOLIDATION[1] == 'C'
    ensures forall j | 1 <= j < |CONSOLIDATION| :: CONSOLIDATION[j] != '[' && CONSOLIDATION[j] != ' '
    ensures |half| >= 2 && half[0] == '[' && half[1] == 'A'
    ensures forall j | 1 <= j < |half| :: half[j] != '['
  {
  }

  /** Bisecting a milestone neither makes nor unmakes a consolidation. */
  lemma ConsolidationSurvives(note: string, half: string)
    requires half == HALF_1 || half == HALF_2
    ensures Contains(ChildNote(note, half), CONSOLIDATION) <==> Contains(note, CONSOLIDATION)
  {
    var glue := if note == "" then "" else " ";
    MarkerShapes(half);
    if i: nat :| i <= |note| && OccursAt(note, CONSOLIDATION, i) {
      OccursKeeps(note, glue + half, CONSOLIDATION, i);
      assert note + (glue + half) == ChildNote(note, half);
    } else if i: nat :| i <= |ChildNote(note, half)| && OccursAt(ChildNote(note, half), CONSOLIDATION, i) {
      NoStraddle(note, glue, half, CONSOLIDATION, i);
    }
  }

  lemma ChildIsMarked(note: string, half: string)
    requires half == HALF_1 || half == HALF_2
    ensures Contains(ChildNote(note, half), AUTO_SPLIT)
  {
    var child := ChildNote(note, half);
    var i := |child| - |half|;
    assert child[i..i+|AUTO_SPLIT|] == half[..|AUTO_SPLIT|] == AUTO_SPLIT;
    assert OccursAt(child, AUTO_SPLIT, i);
  }

  lemma MarkedFront(front: string, tail: string, other: string)
    requires |front| >= 2 && |other| >= 2 && other[0] == '[' && other[1] != front[1]
    requires forall j | 1 <= j < |front| :: front[j] != '['
    requires forall j | 0 <= j < |tail| :: tail[j] != '['
    ensures Contains(front + tail, front) && !Contains(front + tail, other)
  {
    var text := front + tail;
    assert text[0..|front|] == front;
    assert OccursAt(text, front, 0);
    forall i: nat | i <= |text| ensures !OccursAt(text, other, i) {
      OccursLetter(text, other, i, 0);
      OccursLetter(text, other, i, 1);
    }
  }
}
