/** Destructive commands waiting for the operator's tap (telegram/bot.py): a
    bounded store of `OrderedDict` shape whose entries expire. */
module Confirmations {
  import opened Lifecycle
  import opened Backoff
  import opened Machine
  import opened CommandRouting

  type Token = string

  datatype Request = Request(pid: Pid, command: Command)

  datatype Item = Item(token: Token, request: Request, at: real)

  // ----------------------------------------------- what the operations mean

  function Filter(items: seq<Item>, keep: Item -> bool): (r: seq<Item>)
    ensures |r| <= |items|
  {
    if items == [] then []
    else
      var rest := Filter(items[..|items|-1], keep);
      var last := items[|items|-1];
      if keep(last) then rest + [last] else rest
  }

  /** Entries not yet expired. */
  function Alive(items: seq<Item>, cutoff: real): seq<Item> {
    Filter(items, (x: Item) => x.at >= cutoff)
  }

  function Without(items: seq<Item>, token: Token): seq<Item> {
    Filter(items, (x: Item) => x.token != token)
  }

  function Newest(items: seq<Item>, n: nat): seq<Item> {
    if |items| <= n then items else items[|items|-n..]
  }

  /** The store after a command is stashed. */
  function Stashed(items: seq<Item>, max: nat, cutoff: real, x: Item): seq<Item> {
    Newest(Without(Alive(items, cutoff), x.token) + [x], max)
  }

  function Find(items: seq<Item>, token: Token): Option<Request> {
    if items == [] then None
    else if items[|items|-1].token == token then Some(items[|items|-1].request)
    else Find(items[..|items|-1], token)
  }

  ghost predicate Distinct(items: seq<Item>) {
    forall i, j | 0 <= i < j < |items| :: items[i].token != items[j].token
  }

  /** Oldest first. */
  ghost predicate Ordered(items: seq<Item>) {
    forall i, j | 0 <= i < j < |items| :: items[i].at <= items[j].at
  }

  ghost predicate Tidy(items: seq<Item>) {
    Distinct(items) && Ordered(items)
  }

  // ---------------------------------------------------------- filter lemmas

  lemma {:induction false} FilterSame(items: seq<Item>, f: Item -> bool, g: Item -> bool)
    requires forall i | 0 <= i < |items| :: f(items[i]) == g(items[i])
    ensures Filter(items, f) == Filter(items, g)
  {
    if items != [] {
      FilterSame(items[..|items|-1], f, g);
    }
  }

  /** Where the i-th kept entry comes from. */
  lemma {:induction false} KeptFrom(items: seq<Item>, keep: Item -> bool, i: nat) returns (j: nat)
    requires i < |Filter(items, keep)|
    ensures j < |items| && Filter(items, keep)[i] == items[j] && keep(items[j])
  {
    var init := items[..|items|-1];
    if i < |Filter(init, keep)| {
      j := KeptFrom(init, keep, i);
    } else {
      j := |items| - 1;
    }
  }

  lemma {:induction false} FilterTwice(items: seq<Item>, f: Item -> bool, g: Item -> bool)
    ensures Filter(Filter(items, f), g) == Filter(items, (x: Item) => f(x) && g(x))
  {
    if items != [] {
      var init := items[..|items|-1];
      FilterTwice(init, f, g);
      var kept := Filter(init, f);
      assert (kept + [items[|items|-1]])[..|kept|] == kept;
    }
  }

  lemma {:induction false} FilterTidy(items: seq<Item>, keep: Item -> bool)
    requires Tidy(items)
    ensures Tidy(Filter(items, keep))
  {
    if items != [] {
      var init := items[..|items|-1];
      FilterTidy(init, keep);
      forall i: nat | i < |Filter(init, keep)|
        ensures Filter(init, keep)[i].token != items[|items|-1].token && Filter(init, keep)[i].at <= items[|items|-1].at
      {
        var j := KeptFrom(init, keep, i);
      }
    }
  }

  lemma {:induction false} AllExpired(items: seq<Item>, cutoff: real)
    requires forall i | 0 <= i < |items| :: items[i].at < cutoff
    ensures Alive(items, cutoff) == []
  {
    if items != [] { AllExpired(items[..|items|-1], cutoff); }
  }

  /** With a monotone clock pruning removes exactly a prefix. */
  lemma {:induction false} PruneIsPrefix(items: seq<Item>, cutoff: real)
    requires Ordered(items)
    ensures var kept := Alive(items, cutoff);
            && kept == items[|items| - |kept|..]
            && forall i | 0 <= i < |items| - |kept| :: items[i].at < cutoff
  {
    if items == [] {
    } else if items[|items|-1].at >= cutoff {
      PruneIsPrefix(items[..|items|-1], cutoff);
    } else {
      AllExpired(items, cutoff);
    }
  }

  lemma {:induction false} FindWithout(items: seq<Item>, token: Token, other: Token)
    ensures Find(Without(items, token), other) == if other == token then None else Find(items, other)
  {
    if items != [] {
      FindWithout(items[..|items|-1], token, other);
      var kept := Without(items[..|items|-1], token);
      assert (kept + [items[|items|-1]])[..|kept|] == kept;
    }
  }

  lemma {:induction false} FindAt(items: seq<Item>, i: nat)
    requires Distinct(items) && i < |items|
    ensures Find(items, items[i].token) == Some(items[i].request)
  {
    if i < |items| - 1 { FindAt(items[..|items|-1], i); }
  }

  lemma {:induction false} FoundAt(items: seq<Item>, token: Token) returns (i: nat)
    requires Find(items, token).Some?
    ensures i < |items| && items[i].token == token && Find(items, token) == Some(items[i].request)
  {
    if items[|items|-1].token == token { i := |items| - 1; } else { i := FoundAt(items[..|items|-1], token); }
  }

  // ------------------------------------------------------------- the store

  class PendingConfirmations {
    const ttl: real
    const max: nat
    var items: seq<Item>

    ghost predicate Valid()
      reads this
    {
      Tidy(items) && |items| <= max
    }

    constructor (ttl: real, max: nat)
      ensures Valid() && items == [] && this.ttl == ttl && this.max == max
    {
      this.ttl, this.max, items := ttl, max, [];
    }

    /** The tokens `_prune` collects. */
    method StaleTokens(cutoff: real) returns (stale: seq<Token>)
      requires Valid()
      ensures forall j | 0 <= j < |items| :: items[j].token in stale <==> items[j].at < cutoff
    {
      stale := [];
      for i := 0 to |items|
        invariant forall j | 0 <= j < i :: items[j].token in stale <==> items[j].at < cutoff
        invariant forall j | i <= j < |items| :: items[j].token !in stale
      {
        if items[i].at < cutoff {
          stale := stale + [items[i].token];
        }
      }
    }

    /** `_prune`: collect the stale tokens, then delete one by one. */
    method Prune(now: real)
      requires Valid()
      modifies this`items
      ensures Valid() && items == Alive(old(items), now - ttl)
    {
      var stale := StaleTokens(now - ttl);
      KeepAll(items);
      for k := 0 to |stale|
        invariant items == Filter(old(items), Spared(stale[..k]))
      {
        SpareOneLess(old(items), stale, k);
        items := Without(items, stale[k]);
      }
      assert stale[..|stale|] == stale;
      FilterSame(old(items), Spared(stale), (x: Item) => x.at >= now - ttl);
      FilterTidy(old(items), (x: Item) => x.at >= now - ttl);
    }

    /** `store[token] = command`: the entry becomes the newest; beyond the bound
        the oldest go. The clock is read once to prune and once to stamp. */
    method SetItem(token: Token, request: Request, now: real, later: real)
      requires Valid() && forall i | 0 <= i < |items| :: items[i].at <= later
      modifies this`items
      ensures Valid()
      ensures items == Stashed(old(items), max, now - ttl, Item(token, request, later))
    {
      AliveBelow(items, now - ttl, later);
      AppendTidy(Alive(items, now - ttl), token, request, later);
      Prune(now);
      items := Without(items, token) + [Item(token, request, later)];
      EvictOldest();
    }

    method EvictOldest()
      requires Tidy(items)
      modifies this`items
      ensures Valid() && items == Newest(old(items), max)
    {
      hide Tidy, Newest;
      while |items| > max
        invariant Tidy(items) && Newest(items, max) == Newest(old(items), max)
      {
        DropOldest(items, max);
        items := items[1..];
      }
      SmallStays(items, max);
    }

    method Contains(token: Token, now: real) returns (found: bool)
      requires Valid()
      modifies this`items
      ensures Valid() && items == Alive(old(items), now - ttl)
      ensures found <==> Find(items, token).Some?
    {
      Prune(now);
      found := Find(items, token).Some?;
    }

    method Pop(token: Token, now: real) returns (request: Option<Request>)
      requires Valid()
      modifies this`items
      ensures Valid() && items == Without(Alive(old(items), now - ttl), token)
      ensures request == Find(Alive(old(items), now - ttl), token)
    {
      Prune(now);
      request := Find(items, token);
      FilterTidy(items, (x: Item) => x.token != token);
      items := Without(items, token);
    }
  }

  function Confirmed(c: Command): Command {
    if c.AbortProject? then AbortProject(true) else c
  }

  /** The taps of the bot. */
  class Taps {
    const pending: PendingConfirmations
    const router: Router

    constructor (pending: PendingConfirmations, router: Router)
      ensures this.pending == pending && this.router == router
    {
      this.pending, this.router := pending, router;
    }

    /** `_cb_no`. */
    method No(token: Token, now: real)
      requires pending.Valid()
      modifies pending
      ensures pending.Valid() && pending.items == Without(Alive(old(pending.items), now - pending.ttl), token)
    {
      var _ := pending.Pop(token, now);
    }

    /** `_cb_yes`: the stashed command leaves the store and takes effect; with
        nothing stashed under the token nothing happens. */
    method Yes(token: Token, now: real) returns (answer: Option<Answer>)
      requires pending.Valid() && router.Valid()
      modifies pending, router.projects, router.kills, router.table
      ensures pending.Valid() && pending.items == Without(Alive(old(pending.items), now - pending.ttl), token)
      ensures answer.None? <==> Find(Alive(old(pending.items), now - pending.ttl), token).None?
      ensures answer.None? ==> unchanged(router.projects) && unchanged(router.kills) && unchanged(router.table)
      ensures answer.Some? ==>
        var request := Find(Alive(old(pending.items), now - pending.ttl), token).value;
        && (request.command.AbortProject? ==> request.pid in router.kills.killed)
        && answer != Some(NeedsConfirmation) && router.Valid() && router.Apart(request.pid)
        && (request.pid in router.projects.states ==>
              router.View(request.pid) == Step(router.cfg, old(router.View(request.pid)), EventOf(request.command)))
    {
      hide Step, Alive, Without, Find;
      var request := pending.Pop(token, now);
      if request.None? {
        return None;
      }
      var a := router.Dispatch(request.value.pid, Confirmed(request.value.command));
      answer := Some(a);
    }
  }

  lemma SmallStays(items: seq<Item>, n: nat)
    ensures |items| <= n ==> Newest(items, n) == items
  {
  }

  lemma DropOldest(items: seq<Item>, n: nat)
    requires Tidy(items) && |items| > n
    ensures Tidy(items[1..]) && Newest(items[1..], n) == Newest(items, n)
  {
  }

  function Spared(tokens: seq<Token>): Item -> bool {
    (x: Item) => x.token !in tokens
  }

  lemma {:induction false} KeepAll(items: seq<Item>)
    ensures Filter(items, Spared([])) == items
  {
    if items != [] { KeepAll(items[..|items|-1]); }
  }

  lemma SpareOneLess(items: seq<Item>, stale: seq<Token>, k: nat)
    requires k < |stale|
    ensures Without(Filter(items, Spared(stale[..k])), stale[k]) == Filter(items, Spared(stale[..k+1]))
  {
    var f, g := Spared(stale[..k]), (x: Item) => x.token != stale[k];
    FilterTwice(items, f, g);
    assert stale[..k+1] == stale[..k] + [stale[k]];
    FilterSame(items, (x: Item) => f(x) && g(x), Spared(stale[..k+1]));
  }

  lemma AliveBelow(items: seq<Item>, cutoff: real, later: real)
    requires Tidy(items) && forall i | 0 <= i < |items| :: items[i].at <= later
    ensures Tidy(Alive(items, cutoff)) && forall i | 0 <= i < |Alive(items, cutoff)| ::
        Alive(items, cutoff)[i].at <= later
  {
    FilterTidy(items, (x: Item) => x.at >= cutoff);
    forall i: nat | i < |Alive(items, cutoff)| ensures Alive(items, cutoff)[i].at <= later {
      var j := KeptFrom(items, (x: Item) => x.at >= cutoff, i);
    }
  }

  lemma AppendTidy(items: seq<Item>, token: Token, request: Request, later: real)
    requires Tidy(items) && forall i | 0 <= i < |items| :: items[i].at <= later
    ensures Tidy(Without(items, token) + [Item(token, request, later)])
  {
    FilterTidy(items, (x: Item) => x.token != token);
    forall i: nat | i < |Without(items, token)|
      ensures Without(items, token)[i].at <= later && Without(items, token)[i].token != token
    {
      var j := KeptFrom(items, (x: Item) => x.token != token, i);
    }
  }
}
