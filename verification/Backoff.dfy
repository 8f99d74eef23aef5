/** Transient-error backoff of the project pool (scheduler.py:63-69, 259-345). */
module Backoff {

  type Pid = nat

  const BASE := 30
  const CAP := 900
  const MAX_TRANSIENT_FAILS := 5

  /** `_cooldown_until` and `_transient_fails`. */
  datatype Ledger = Ledger(until: map<Pid, int>, fails: map<Pid, nat>)

  const EMPTY := Ledger(map[], map[])

  function Streak(l: Ledger, pid: Pid): nat {
    if pid in l.fails then l.fails[pid] else 0
  }

  function Pow2(n: nat): nat {
    if n == 0 then 1 else 2 * Pow2(n - 1)
  }

  /** Wait after the n-th failure in a row. */
  function Wait(n: nat): nat
    requires n >= 1
  {
    var d := BASE * Pow2(n - 1);
    if d < CAP then d else CAP
  }

  function Punish(l: Ledger, pid: Pid, now: int): Ledger {
    var n := Streak(l, pid) + 1;
    Ledger(l.until[pid := now + Wait(n)], l.fails[pid := n])
  }

  function Clear(l: Ledger, pid: Pid): Ledger {
    Ledger(l.until - {pid}, l.fails - {pid})
  }

  predicate Eligible(l: Ledger, pid: Pid, now: int) {
    (if pid in l.until then l.until[pid] else 0) <= now
  }

  /** Whether a crash is waited out rather than blocking the project. */
  predicate Tolerated(l: Ledger, pid: Pid, transient: bool) {
    transient && Streak(l, pid) + 1 < MAX_TRANSIENT_FAILS
  }

  lemma Waits()
    ensures Wait(1) == 30 && Wait(2) == 60 && Wait(3) == 120 && Wait(4) == 240
  {
    assert Pow2(0) == 1 && Pow2(1) == 2 && Pow2(2) == 4 && Pow2(3) == 8;
  }

  /** The record of a current streak: when each failure struck, each no earlier
      than the previous one's cooldown allowed. */
  ghost predicate StreakFits(l: Ledger, pid: Pid, marks: seq<int>) {
    && 1 <= |marks| < MAX_TRANSIENT_FAILS
    && pid in l.until && pid in l.fails && l.fails[pid] == |marks|
    && l.until[pid] == marks[|marks|-1] + Wait(|marks|)
    && forall i | 0 <= i < |marks| - 1 :: marks[i] + Wait(i + 1) <= marks[i+1]
  }

  lemma PunishFits(l: Ledger, pid: Pid, marks: seq<int>, now: int)
    requires StreakFits(l, pid, marks) && |marks| + 1 < MAX_TRANSIENT_FAILS && l.until[pid] <= now
    ensures StreakFits(Punish(l, pid, now), pid, marks + [now])
  {
  }

  /** Four cooldowns stand between the first failure and the fifth. */
  lemma FullStreakSpan(l: Ledger, pid: Pid, marks: seq<int>, now: int)
    requires StreakFits(l, pid, marks) && |marks| == MAX_TRANSIENT_FAILS - 1 && l.until[pid] <= now
    ensures now - marks[0] >= 450
  {
    Waits();
    assert marks[0] + Wait(1) <= marks[1] && marks[1] + Wait(2) <= marks[2] && marks[2] + Wait(3) <= marks[3];
  }
}
