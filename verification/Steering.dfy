/** The steering ledger (steering/repository.py): operator notes, and which role
    has been handed which note. */
module Steering {
  import opened Lifecycle
  import opened Backoff

  type Role = string

  datatype Note = Note(pid: Pid, body: string, target: Option<Role>, at: int)

  /** A note handed to a role. */
  datatype Delivery = Delivery(note: nat, role: Role)

  predicate Space(c: char) {
    var n := c as int;
    9 <= n <= 13 || 28 <= n <= 32 || n == 133 || n == 160 || n == 5760 || 8192 <= n <= 8202
    || n == 8232 || n == 8233 || n == 8239 || n == 8287 || n == 12288
  }

  predicate Blank(body: string) {
    forall i | 0 <= i < |body| :: Space(body[i])
  }

  predicate Addressed(n: Note, pid: Pid, role: Role) {
    n.pid == pid && (n.target.None? || n.target.value == role)
  }

  predicate Increasing(ids: seq<nat>) {
    forall i, j | 0 <= i < j < |ids| :: ids[i] < ids[j]
  }

  predicate Wanted(notes: seq<Note>, delivered: set<Delivery>, pid: Pid, role: Role, k: nat) {
    k < |notes| && Addressed(notes[k], pid, role) && Delivery(k, role) !in delivered
  }

  /** The notes before `n` still due to a role, oldest first. */
  function Unseen(notes: seq<Note>, delivered: set<Delivery>, pid: Pid, role: Role, n: nat): (ids: seq<nat>)
    ensures forall k: nat :: k in ids <==> k < n && Wanted(notes, delivered, pid, role, k)
    ensures Increasing(ids) && forall i | 0 <= i < |ids| :: ids[i] < n && ids[i] < |notes|
  {
    if n == 0 then []
    else
      var rest := Unseen(notes, delivered, pid, role, n - 1);
      assert forall i | 0 <= i < |rest| :: rest[i] in rest;
      if Wanted(notes, delivered, pid, role, n - 1) then rest + [n - 1] else rest
  }

  function Undelivered(ids: seq<nat>, delivered: set<Delivery>, role: Role): seq<nat> {
    if ids == [] then []
    else
      var rest := Undelivered(ids[..|ids|-1], delivered, role);
      if Delivery(ids[|ids|-1], role) in delivered then rest else rest + [ids[|ids|-1]]
  }

  function Deliveries(ids: seq<nat>, role: Role): set<Delivery> {
    set k | k in ids :: Delivery(k, role)
  }

  function Bodies(notes: seq<Note>, ids: seq<nat>): seq<string>
    requires forall i | 0 <= i < |ids| :: ids[i] < |notes|
  {
    seq(|ids|, i requires 0 <= i < |ids| => notes[ids[i]].body)
  }

  /** The notes `ids`, in order, are handed to the role: those of the project,
      addressed to everybody or to this role, which it has not had. */
  ghost predicate HandsOut(notes: seq<Note>, before: set<Delivery>, after: set<Delivery>, pid: Pid, role: Role,
                           ids: seq<nat>, bodies: seq<string>)
  {
    && (forall k: nat :: k in ids <==>
          && k < |notes| && notes[k].pid == pid && (notes[k].target == None || notes[k].target == Some(role))
          && Delivery(k, role) !in before)
    && (forall i, j | 0 <= i < j < |ids| :: ids[i] < ids[j])
    && |bodies| == |ids| && (forall i | 0 <= i < |ids| :: ids[i] < |notes| && bodies[i] == notes[ids[i]].body)
    && (forall d :: d in after <==> d in before || (d.role == role && d.note in ids))
  }

  lemma ClaimNone(delivered: set<Delivery>, role: Role)
    ensures Deliveries([], role) == {} && Undelivered([], delivered, role) == []
  {
  }

  lemma ClaimOne(ids: seq<nat>, i: nat, delivered: set<Delivery>, role: Role)
    requires Increasing(ids) && i < |ids|
    ensures Deliveries(ids[..i+1], role) == Deliveries(ids[..i], role) + {Delivery(ids[i], role)}
    ensures Delivery(ids[i], role) !in Deliveries(ids[..i], role)
    ensures Undelivered(ids[..i+1], delivered, role)
         == Undelivered(ids[..i], delivered, role) + if Delivery(ids[i], role) in delivered then [] else [ids[i]]
  {
    assert ids[..i+1][..i] == ids[..i];
    assert ids[..i+1] == ids[..i] + [ids[i]];
  }

  class SteeringRepo {
    var notes: seq<Note>
    var delivered: set<Delivery>

    /** Notes in the order of `created_at, id`. */
    ghost predicate Valid()
      reads this
    {
      forall i, j | 0 <= i < j < |notes| :: notes[i].at <= notes[j].at
    }

    constructor ()
      ensures Valid() && notes == [] && delivered == {}
    {
      notes, delivered := [], {};
    }

    method AddNote(pid: Pid, body: string, target: Option<Role>, now: int) returns (id: Option<nat>)
      requires Valid() && (notes != [] ==> notes[|notes|-1].at <= now)
      modifies this`notes
      ensures Valid()
      ensures (forall i | 0 <= i < |body| :: body[i] in [' ', '\t', '\n', '\r']) ==> id == None
      ensures (exists i :: 0 <= i < |body| && '!' <= body[i] <= '~') ==> id != None
      ensures Blank(body) ==> id == None && notes == old(notes)
      ensures !Blank(body) ==> id == Some(|old(notes)|) && notes == old(notes) + [Note(pid, body, target, now)]
    {
      if Blank(body) {
        return None;
      }
      id := Some(|notes|);
      notes := notes + [Note(pid, body, target, now)];
    }

    /** The SELECT of a pull. */
    method Select(pid: Pid, role: Role) returns (ids: seq<nat>)
      ensures ids == Unseen(notes, delivered, pid, role, |notes|)
      ensures Increasing(ids) && forall k: nat :: k in ids <==>
                && k < |notes| && notes[k].pid == pid && (notes[k].target == None || notes[k].target == Some(role))
                && Delivery(k, role) !in delivered
    {
      ids := [];
      for k := 0 to |notes|
        invariant ids == Unseen(notes, delivered, pid, role, k)
      {
        if Addressed(notes[k], pid, role) && Delivery(k, role) !in delivered {
          ids := ids + [k];
        }
      }
    }

    /** The INSERT ... ON CONFLICT DO NOTHING of a pull: what it returns are the
        rows it created, whatever happened since its SELECT. */
    method Claim(ids: seq<nat>, role: Role) returns (claimed: seq<nat>)
      requires Increasing(ids)
      modifies this`delivered
      ensures claimed == Undelivered(ids, old(delivered), role)
      ensures delivered == old(delivered) + Deliveries(ids, role)
    {
      hide Deliveries, Undelivered, Increasing;
      ClaimNone(old(delivered), role);
      claimed := [];
      for i := 0 to |ids|
        invariant claimed == Undelivered(ids[..i], old(delivered), role)
        invariant delivered == old(delivered) + Deliveries(ids[..i], role)
      {
        ClaimOne(ids, i, old(delivered), role);
        if Delivery(ids[i], role) !in delivered {
          delivered := delivered + {Delivery(ids[i], role)};
          claimed := claimed + [ids[i]];
        }
      }
      assert ids[..|ids|] == ids;
    }

    /** A pull nothing interferes with: every note due, in order, and then none. */
    method PullUnconsumed(pid: Pid, role: Role) returns (bodies: Option<seq<string>>)
      modifies this`delivered
      ensures bodies.None? <==> role == ""
      ensures bodies.None? ==> delivered == old(delivered)
      ensures bodies.Some? ==>
        && bodies.value == Bodies(notes, Unseen(notes, old(delivered), pid, role, |notes|))
        && delivered == old(delivered) + Deliveries(Unseen(notes, old(delivered), pid, role, |notes|), role)
        && Unseen(notes, delivered, pid, role, |notes|) == []
      ensures bodies.Some? ==>
        exists ids :: HandsOut(notes, old(delivered), delivered, pid, role, ids, bodies.value)
    {
      hide HandsOut, Deliveries, Undelivered;
      if role == "" {
        return None;
      }
      var ids := Select(pid, role);
      AllFresh(ids, delivered, role);
      var claimed := Claim(ids, role);
      PullHandsOut(notes, old(delivered), pid, role);
      bodies := Some(Bodies(notes, claimed));
    }
  }

  lemma Head(ids: seq<nat>)
    ensures ids == [] || ids[0] in ids
  {
  }

  /** The whole of an undisturbed pull. */
  lemma PullHandsOut(notes: seq<Note>, delivered: set<Delivery>, pid: Pid, role: Role)
    ensures var ids := Unseen(notes, delivered, pid, role, |notes|);
            var after := delivered + Deliveries(ids, role);
            && HandsOut(notes, delivered, after, pid, role, ids, Bodies(notes, ids))
            && Unseen(notes, after, pid, role, |notes|) == []
  {
    var ids := Unseen(notes, delivered, pid, role, |notes|);
    Head(Unseen(notes, delivered + Deliveries(ids, role), pid, role, |notes|));
  }

  lemma {:induction false} AllFresh(ids: seq<nat>, delivered: set<Delivery>, role: Role)
    requires forall k | k in ids :: Delivery(k, role) !in delivered
    ensures Undelivered(ids, delivered, role) == ids
  {
    if ids != [] {
      assert ids[|ids|-1] in ids;
      AllFresh(ids[..|ids|-1], delivered, role);
    }
  }
}
