/** Whole histories of the confirmation store: which taps still find their
    command. */
module ConfirmationRuns {
  import opened Lifecycle
  import opened Confirmations

  /** Each operation reads the clock; a stash reads it again for its stamp. */
  datatype Op =
    | Stash(token: Token, request: Request, now: real, later: real)
    | Peek(now: real)
    | Pull(token: Token, now: real)

  datatype Bounds = Bounds(ttl: real, max: nat)

  function Ended(op: Op): real {
    if op.Stash? then op.later else op.now
  }

  /** The clock never goes back. */
  ghost predicate Monotone(ops: seq<Op>) {
    && (forall i | 0 <= i < |ops| :: ops[i].now <= Ended(ops[i]))
    && forall i, j | 0 <= i < j < |ops| :: Ended(ops[i]) <= ops[j].now
  }

  function Apply(b: Bounds, items: seq<Item>, op: Op): seq<Item> {
    match op
    case Stash(token, request, now, later) => Stashed(items, b.max, now - b.ttl, Item(token, request, later))
    case Peek(now) => Alive(items, now - b.ttl)
    case Pull(token, now) => Without(Alive(items, now - b.ttl), token)
  }

  function Exec(b: Bounds, ops: seq<Op>): seq<Item> {
    if ops == [] then [] else Apply(b, Exec(b, ops[..|ops|-1]), ops[|ops|-1])
  }

  /** What a pull at time `now` after these operations finds. */
  function Answer(b: Bounds, ops: seq<Op>, token: Token, now: real): Option<Request> {
    Find(Alive(Exec(b, ops), now - b.ttl), token)
  }

  predicate Touches(op: Op, token: Token) {
    (op.Stash? || op.Pull?) && op.token == token
  }

  /** ops[i] stashed under the token, and nothing touched the token since. */
  ghost predicate LatestStash(ops: seq<Op>, token: Token, i: nat) {
    i < |ops| && ops[i].Stash? && ops[i].token == token
    && forall j | i < j < |ops| :: !Touches(ops[j], token)
  }

  // ------------------------------------------------------- the invariant

  ghost predicate Below(items: seq<Item>, at: real) {
    forall i | 0 <= i < |items| :: items[i].at <= at
  }

  lemma FilterBelow(items: seq<Item>, keep: Item -> bool, at: real)
    requires Below(items, at)
    ensures Below(Filter(items, keep), at)
  {
    forall i: nat | i < |Filter(items, keep)| ensures Filter(items, keep)[i].at <= at {
      var j := KeptFrom(items, keep, i);
    }
  }

  /** In timestamp order, each token once, within the bound. */
  lemma {:induction false} ExecTidy(b: Bounds, ops: seq<Op>)
    requires Monotone(ops)
    ensures Tidy(Exec(b, ops)) && |Exec(b, ops)| <= b.max
    ensures forall at | ops != [] && Ended(ops[|ops|-1]) <= at :: Below(Exec(b, ops), at)
  {
    if ops != [] {
      var init, op := ops[..|ops|-1], ops[|ops|-1];
      ExecTidy(b, init);
      var items := Exec(b, init);
      assert Below(items, op.now);
      hide Tidy, Below, Filter;
      FilterTidy(items, (x: Item) => x.at >= op.now - b.ttl);
      FilterBelow(items, (x: Item) => x.at >= op.now - b.ttl, op.now);
      ApplyTidy(b, items, op);
    }
  }

  lemma NewestTidy(items: seq<Item>, n: nat, at: real)
    requires Tidy(items) && Below(items, at)
    ensures Tidy(Newest(items, n)) && |Newest(items, n)| <= n && Below(Newest(items, n), at)
  {
  }

  lemma AppendBelow(items: seq<Item>, x: Item, at: real)
    requires Below(items, at) && at <= x.at
    ensures Below(items + [x], x.at)
  {
  }

  lemma ApplyTidy(b: Bounds, items: seq<Item>, op: Op)
    requires Tidy(items) && Below(items, op.now) && |items| <= b.max && op.now <= Ended(op)
    ensures Tidy(Apply(b, items, op)) && |Apply(b, items, op)| <= b.max && Below(Apply(b, items, op), Ended(op))
  {
    hide Filter, Tidy, Newest;
    var cutoff := op.now - b.ttl;
    var alive := Alive(items, cutoff);
    FilterTidy(items, (x: Item) => x.at >= cutoff);
    FilterBelow(items, (x: Item) => x.at >= cutoff, op.now);
    if op.Stash? {
      var x := Item(op.token, op.request, op.later);
      FilterBelow(alive, (x: Item) => x.token != op.token, op.now);
      AppendBelow(Without(alive, op.token), x, op.now);
      AppendTidy(alive, op.token, op.request, op.later);
      NewestTidy(Without(alive, op.token) + [x], b.max, op.later);
    } else if op.Pull? {
      FilterTidy(alive, (x: Item) => x.token != op.token);
      FilterBelow(alive, (x: Item) => x.token != op.token, op.now);
    }
  }

  // ------------------------------------ what is found was stashed, and last

  lemma RemovedFrom(items: seq<Item>, token: Token, cutoff: real, k: nat) returns (j: nat)
    requires k < |Without(Alive(items, cutoff), token)|
    ensures j < |items| && items[j] == Without(Alive(items, cutoff), token)[k] && items[j].token != token
  {
    j := KeptFrom(Alive(items, cutoff), (y: Item) => y.token != token, k);
    j := KeptFrom(items, (y: Item) => y.at >= cutoff, j);
  }

  /** An entry after an operation was there before it and is not touched by it,
      or is the one just stashed (j == |items|). */
  lemma AppliedFrom(b: Bounds, items: seq<Item>, op: Op, k: nat) returns (j: nat)
    requires k < |Apply(b, items, op)|
    ensures j <= |items|
    ensures var x := Apply(b, items, op)[k];
            if j < |items| then items[j] == x && !Touches(op, x.token)
            else op.Stash? && x == Item(op.token, op.request, op.later)
  {
    hide Filter;
    var cutoff := op.now - b.ttl;
    match op
    case Peek(_) => j := KeptFrom(items, (y: Item) => y.at >= cutoff, k);
    case Pull(token, _) => j := RemovedFrom(items, token, cutoff, k);
    case Stash(token, request, _, later) =>
      var kept, x := Without(Alive(items, cutoff), token), Item(token, request, later);
      var i := k + |kept + [x]| - |Newest(kept + [x], b.max)|;
      assert Newest(kept + [x], b.max)[k] == (kept + [x])[i];
      if i == |kept| { j := |items|; } else { j := RemovedFrom(items, token, cutoff, i); }
  }

  /** The k-th entry comes from the latest stash under its token. */
  lemma {:induction false} Origin(b: Bounds, ops: seq<Op>, k: nat) returns (i: nat)
    requires k < |Exec(b, ops)|
    ensures var x := Exec(b, ops)[k];
            LatestStash(ops, x.token, i) && ops[i].request == x.request && ops[i].later == x.at
  {
    hide Apply;
    var init, op := ops[..|ops|-1], ops[|ops|-1];
    var j := AppliedFrom(b, Exec(b, init), op, k);
    if j == |Exec(b, init)| { i := |ops| - 1; } else { i := Origin(b, init, j); }
  }

  /** A pull finds only what was stashed under the token last, has not been
      pulled since, and has not expired. */
  lemma PulledIsLatestStash(b: Bounds, ops: seq<Op>, token: Token, now: real) returns (i: nat)
    requires Answer(b, ops, token, now).Some?
    ensures LatestStash(ops, token, i) && Answer(b, ops, token, now) == Some(ops[i].request)
    ensures ops[i].later >= now - b.ttl
  {
    var k := FoundAt(Alive(Exec(b, ops), now - b.ttl), token);
    k := KeptFrom(Exec(b, ops), (x: Item) => x.at >= now - b.ttl, k);
    i := Origin(b, ops, k);
  }

  /** A stashed command is pulled, hence dispatched, at most once: two successful
      pulls of one token have a stash between them. */
  lemma AtMostOncePerStash(b: Bounds, ops: seq<Op>, n: nat, m: nat)
    requires n < m < |ops| && ops[n].Pull? && ops[m].Pull? && ops[n].token == ops[m].token
    requires Answer(b, ops[..m], ops[m].token, ops[m].now).Some?
    ensures exists i :: n < i < m && ops[i].Stash? && ops[i].token == ops[m].token
  {
    var i := PulledIsLatestStash(b, ops[..m], ops[m].token, ops[m].now);
    assert ops[..m][i] == ops[i] && ops[..m][n] == ops[n];
    assert Touches(ops[..m][n], ops[m].token);
    assert n < i;
  }

  // --------------------------------------------- what was stashed is found

  /** Tokens stashed after ops[i] and not pulled since. */
  function Rivals(ops: seq<Op>, i: nat): set<Token> {
    if |ops| <= i + 1 then {}
    else
      var rest := Rivals(ops[..|ops|-1], i);
      match ops[|ops|-1]
      case Stash(token, _, _, _) => rest + {token}
      case Pull(token, _) => rest - {token}
      case Peek(_) => rest
  }

  /** No stash left `max` rivals standing, itself included. */
  ghost predicate Uncrowded(b: Bounds, ops: seq<Op>, i: nat) {
    forall n | i <= n < |ops| :: Room(b, ops, i, n)
  }

  predicate Room(b: Bounds, ops: seq<Op>, i: nat, n: nat)
    requires n < |ops|
  {
    ops[n].Stash? ==> |Rivals(ops[..n+1], i)| < b.max
  }

  lemma RoomSnoc(b: Bounds, ops: seq<Op>, i: nat, n: nat)
    requires n < |ops|
    ensures if n == |ops| - 1 then Room(b, ops, i, n) <==> (ops[n].Stash? ==> |Rivals(ops, i)| < b.max)
            else Room(b, ops, i, n) <==> Room(b, ops[..|ops|-1], i, n)
  {
    hide Rivals;
    assert n == |ops| - 1 ==> ops[..n+1] == ops;
    assert n < |ops| - 1 ==> ops[..|ops|-1][..n+1] == ops[..n+1] && ops[..|ops|-1][n] == ops[n];
  }

  function Tokens(items: seq<Item>): set<Token> {
    set n | 0 <= n < |items| :: items[n].token
  }

  lemma {:induction false} CountTokens(items: seq<Item>)
    requires Distinct(items)
    ensures |Tokens(items)| == |items|
  {
    if items != [] {
      var init, last := items[..|items|-1], items[|items|-1];
      CountTokens(init);
      assert Tokens(items) == Tokens(init) + {last.token};
    }
  }

  lemma TokensSnoc(items: seq<Item>, x: Item)
    ensures Tokens(items + [x]) == Tokens(items) + {x.token}
  {
    var all := items + [x];
    forall t | t in Tokens(items) + {x.token} ensures t in Tokens(all) {
      if t == x.token {
        assert all[|items|].token == t;
      } else {
        var n :| 0 <= n < |items| && items[n].token == t;
        assert all[n].token == t;
      }
    }
  }

  lemma {:induction false} TokensWithout(items: seq<Item>, token: Token)
    ensures Tokens(Without(items, token)) == Tokens(items) - {token}
  {
    if items != [] {
      var init, last := items[..|items|-1], items[|items|-1];
      assert items == init + [last];
      TokensWithout(init, token);
      TokensSnoc(init, last);
      TokensSnoc(Without(init, token), last);
    }
  }

  lemma {:induction false} WithoutConcat(a: seq<Item>, c: seq<Item>, token: Token)
    ensures Without(a + c, token) == Without(a, token) + Without(c, token)
  {
    if c == [] {
      assert a + c == a;
    } else {
      assert (a + c)[..|a + c|-1] == a + c[..|c|-1];
      WithoutConcat(a, c[..|c|-1], token);
    }
  }

  lemma {:induction false} Absent(items: seq<Item>, token: Token)
    ensures Find(items, token).None? <==> token !in Tokens(items)
  {
    if items != [] {
      var init, last := items[..|items|-1], items[|items|-1];
      assert items == init + [last];
      Absent(init, token);
      TokensSnoc(init, last);
    }
  }

  /** Entry k is there, and exactly the rivals are newer. */
  ghost predicate Stands(items: seq<Item>, k: nat, x: Item, rivals: set<Token>) {
    k < |items| && items[k] == x && Tokens(items[k+1..]) == rivals
  }

  lemma AliveStands(items: seq<Item>, cutoff: real, k: nat, x: Item, rivals: set<Token>) returns (j: nat)
    requires Ordered(items) && Stands(items, k, x, rivals) && x.at >= cutoff
    ensures Stands(Alive(items, cutoff), j, x, rivals)
  {
    PruneIsPrefix(items, cutoff);
    var alive := Alive(items, cutoff);
    j := k - (|items| - |alive|);
    assert alive[j+1..] == items[k+1..];
  }

  lemma WithoutStands(items: seq<Item>, token: Token, k: nat, x: Item, rivals: set<Token>) returns (j: nat)
    requires Stands(items, k, x, rivals) && token != x.token
    ensures Stands(Without(items, token), j, x, rivals - {token})
  {
    var front, back := items[..k+1], items[k+1..];
    assert items == front + back && front[..|front|-1] == items[..k];
    WithoutConcat(front, back, token);
    TokensWithout(back, token);
    j := |Without(front, token)| - 1;
    assert Without(items, token)[j+1..] == Without(back, token);
  }

  lemma AppendStands(items: seq<Item>, y: Item, k: nat, x: Item, rivals: set<Token>)
    requires Stands(items, k, x, rivals)
    ensures Stands(items + [y], k, x, rivals + {y.token})
  {
    assert (items + [y])[k+1..] == items[k+1..] + [y];
    TokensSnoc(items[k+1..], y);
  }

  /** Of distinct entries the newest n hold entry k exactly when fewer than n are
      newer than it. */
  lemma NewestStands(items: seq<Item>, n: nat, k: nat, x: Item, rivals: set<Token>) returns (j: nat)
    requires Distinct(items) && Stands(items, k, x, rivals)
    ensures |rivals| < n ==> Stands(Newest(items, n), j, x, rivals)
    ensures |rivals| >= n ==> Find(Newest(items, n), x.token).None?
  {
    CountTokens(items[k+1..]);
    var kept := Newest(items, n);
    if |rivals| < n {
      j := k - (|items| - |kept|);
      assert kept[j+1..] == items[k+1..];
    } else {
      j := 0;
      Absent(kept, x.token);
    }
  }

  /** The rivals after one more operation, which does not touch the token. */
  function RivalsThen(rivals: set<Token>, op: Op): set<Token> {
    match op
    case Stash(token, _, _, _) => rivals + {token}
    case Pull(token, _) => rivals - {token}
    case Peek(_) => rivals
  }

  lemma ApplyStands(b: Bounds, items: seq<Item>, op: Op, k: nat, x: Item, rivals: set<Token>) returns (j: nat)
    requires Tidy(items) && Below(items, op.now) && op.now <= Ended(op)
    requires Stands(items, k, x, rivals) && x.at >= op.now - b.ttl && !Touches(op, x.token)
    ensures var after := RivalsThen(rivals, op);
            if op.Stash? && |after| >= b.max then Find(Apply(b, items, op), x.token).None?
            else Stands(Apply(b, items, op), j, x, after)
  {
    hide Filter, Stands, Distinct, Ordered, Find, Newest;
    var cutoff := op.now - b.ttl;
    var alive := Alive(items, cutoff);
    j := AliveStands(items, cutoff, k, x, rivals);
    match op
    case Peek(_) =>
    case Pull(token, _) => j := WithoutStands(alive, token, j, x, rivals);
    case Stash(token, request, _, later) =>
      j := WithoutStands(alive, token, j, x, rivals);
      var y := Item(token, request, later);
      AppendStands(Without(alive, token), y, j, x, rivals - {token});
      assert rivals - {token} + {token} == rivals + {token};
      FilterTidy(items, (z: Item) => z.at >= cutoff);
      FilterBelow(items, (z: Item) => z.at >= cutoff, op.now);
      BelowLater(alive, op.now, later);
      AppendTidy(alive, token, request, later);
      j := NewestStands(Without(alive, token) + [y], b.max, j, x, rivals + {token});
  }

  lemma BelowLater(items: seq<Item>, at: real, later: real)
    requires Below(items, at) && at <= later
    ensures forall i | 0 <= i < |items| :: items[i].at <= later
  {
  }

  /** A token that is gone does not come back by itself. */
  lemma GoneStaysGone(b: Bounds, items: seq<Item>, op: Op, token: Token)
    requires !Touches(op, token)
    ensures Find(items, token).None? ==> Find(Apply(b, items, op), token).None?
  {
    hide Apply, Filter;
    if Find(Apply(b, items, op), token).Some? {
      var k := FoundAt(Apply(b, items, op), token);
      var j := AppliedFrom(b, items, op, k);
      Absent(items, token);
    }
  }

  /** The last operation's stash, just made. */
  lemma JustStashed(b: Bounds, items: seq<Item>, op: Op) returns (k: nat)
    requires op.Stash?
    ensures var x := Item(op.token, op.request, op.later);
            if b.max > 0 then Stands(Apply(b, items, op), k, x, {}) else Find(Apply(b, items, op), op.token).None?
  {
    hide Filter;
    k := if b.max > 0 then |Apply(b, items, op)| - 1 else 0;
    assert b.max > 0 ==> Apply(b, items, op)[k+1..] == [];
  }

  lemma UncrowdedSnoc(b: Bounds, ops: seq<Op>, i: nat)
    requires ops != [] && i < |ops|
    ensures Uncrowded(b, ops, i) <==>
              Uncrowded(b, ops[..|ops|-1], i) && (ops[|ops|-1].Stash? ==> |Rivals(ops, i)| < b.max)
  {
    hide Rivals, Room;
    var init := ops[..|ops|-1];
    forall n: nat | n < |ops|
      ensures if n == |ops| - 1 then Room(b, ops, i, n) <==> (ops[n].Stash? ==> |Rivals(ops, i)| < b.max)
              else Room(b, ops, i, n) <==> Room(b, init, i, n)
    {
      RoomSnoc(b, ops, i, n);
    }
  }

  /** The stash at i: where it stands, or that it was crowded out. */
  lemma {:induction false} StandsOrGone(b: Bounds, ops: seq<Op>, token: Token, i: nat) returns (k: nat)
    requires Monotone(ops) && LatestStash(ops, token, i)
    requires forall j | i < j < |ops| :: ops[j].now - b.ttl <= ops[i].later
    ensures if Uncrowded(b, ops, i)
            then Stands(Exec(b, ops), k, Item(token, ops[i].request, ops[i].later), Rivals(ops, i))
            else Find(Exec(b, ops), token).None?
    decreases |ops|
  {
    hide Apply, Tidy, Filter, Stands, Uncrowded, Find;
    var init, op := ops[..|ops|-1], ops[|ops|-1];
    UncrowdedSnoc(b, ops, i);
    if i == |ops| - 1 {
      NoneYet(b, init, i);
      k := JustStashed(b, Exec(b, init), op);
    } else {
      assert init[i] == ops[i];
      k := StandsOrGone(b, init, token, i);
      ExecTidy(b, init);
      if Uncrowded(b, init, i) {
        k := ApplyStands(b, Exec(b, init), op, k, Item(token, ops[i].request, ops[i].later), Rivals(init, i));
      } else {
        GoneStaysGone(b, Exec(b, init), op, token);
      }
    }
  }

  lemma NoneYet(b: Bounds, ops: seq<Op>, i: nat)
    requires |ops| <= i
    ensures Uncrowded(b, ops, i)
  {
  }

  /** Whether an unexpired latest stash is found depends on its rivals alone. */
  lemma FoundIffUncrowded(b: Bounds, ops: seq<Op>, token: Token, now: real, i: nat)
    requires Monotone(ops + [Pull(token, now)])
    requires LatestStash(ops, token, i) && ops[i].later >= now - b.ttl
    ensures Answer(b, ops, token, now).Some? <==> Uncrowded(b, ops, i)
  {
    hide Exec, Filter, Rivals, Uncrowded, Tidy, Find;
    var all := ops + [Pull(token, now)];
    forall j | 0 <= j < |ops| ensures ops[j].now <= now { assert all[j] == ops[j] && Ended(all[j]) <= all[|ops|].now; }
    MonotonePrefix(ops, Pull(token, now));
    var k := StandsOrGone(b, ops, token, i);
    if Uncrowded(b, ops, i) {
      StandingIsFound(b, ops, now, k);
    } else {
      GoneStaysGone(b, Exec(b, ops), Peek(now), token);
    }
  }

  lemma StandingIsFound(b: Bounds, ops: seq<Op>, now: real, k: nat)
    requires Monotone(ops) && k < |Exec(b, ops)| && Exec(b, ops)[k].at >= now - b.ttl
    ensures Answer(b, ops, Exec(b, ops)[k].token, now).Some?
  {
    hide Exec, Filter, Find;
    ExecTidy(b, ops);
    var j := AliveKeeps(Exec(b, ops), now - b.ttl, k);
    FilterTidy(Exec(b, ops), (x: Item) => x.at >= now - b.ttl);
    FindAt(Alive(Exec(b, ops), now - b.ttl), j);
  }

  lemma AliveKeeps(items: seq<Item>, cutoff: real, k: nat) returns (j: nat)
    requires Ordered(items) && k < |items| && items[k].at >= cutoff
    ensures j < |Alive(items, cutoff)| && Alive(items, cutoff)[j] == items[k]
  {
    PruneIsPrefix(items, cutoff);
    j := k - (|items| - |Alive(items, cutoff)|);
  }

  /** A pull succeeds exactly when the token's latest stash has not been pulled,
      has not expired, and no later stash found the store full of newer ones. */
  lemma PullSucceedsIff(b: Bounds, ops: seq<Op>, token: Token, now: real)
    requires Monotone(ops + [Pull(token, now)])
    ensures Answer(b, ops, token, now).Some? <==> exists i: nat ::
              LatestStash(ops, token, i) && ops[i].later >= now - b.ttl && Uncrowded(b, ops, i)
  {
    hide Exec, Uncrowded, Find, Filter, Monotone;
    if Answer(b, ops, token, now).Some? {
      var i := PulledIsLatestStash(b, ops, token, now);
      FoundIffUncrowded(b, ops, token, now, i);
    }
    if i: nat :| LatestStash(ops, token, i) && ops[i].later >= now - b.ttl && Uncrowded(b, ops, i) {
      FoundIffUncrowded(b, ops, token, now, i);
    }
  }

  lemma MonotonePrefix(ops: seq<Op>, op: Op)
    requires Monotone(ops + [op])
    ensures Monotone(ops)
  {
    forall i | 0 <= i < |ops| ensures ops[i].now <= Ended(ops[i]) { assert (ops + [op])[i] == ops[i]; }
    forall i, j | 0 <= i < j < |ops| ensures Ended(ops[i]) <= ops[j].now {
      assert (ops + [op])[i] == ops[i] && (ops + [op])[j] == ops[j];
    }
  }
}
