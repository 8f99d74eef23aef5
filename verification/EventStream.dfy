/** EventBridge (observability/event_bridge.py): one bounded queue per client;
    when it is full the oldest entry makes room for the newest. */
module EventStream {
  import opened Lifecycle
  import opened Backoff

  datatype Topic = Projects | Transcript | Metrics

  datatype Entry = Entry(topic: Topic, project: Option<Pid>, text: string)

  type Conn = nat

  const MAX_QUEUE := 200

  datatype Subscription = Subscription(topic: Topic, filter: Option<Pid>)

  predicate Matches(s: Subscription, e: Entry) {
    e.topic == s.topic && (s.filter.None? || e.project == s.filter)
  }

  // ------------------------------------------------- one client's history

  /** What became of an entry that left the queue. */
  datatype Fate = Delivered | Dropped

  /** The matching entries since the client subscribed, and the fate of those
      that have left its queue: always the oldest ones. */
  datatype Line = Line(sent: seq<Entry>, fate: seq<Fate>)

  const FRESH := Line([], [])

  predicate Sane(l: Line) {
    |l.fate| <= |l.sent| <= |l.fate| + MAX_QUEUE
  }

  function Queue(l: Line): (q: seq<Entry>)
    requires Sane(l)
    ensures |q| <= MAX_QUEUE
  {
    l.sent[|l.fate|..]
  }

  function Arrived(l: Line, e: Entry): (r: Line)
    requires Sane(l)
    ensures Sane(r)
  {
    Line(l.sent + [e], if |Queue(l)| == MAX_QUEUE then l.fate + [Dropped] else l.fate)
  }

  function Taken(l: Line): (r: Line)
    requires Sane(l) && Queue(l) != []
    ensures Sane(r)
  {
    Line(l.sent, l.fate + [Delivered])
  }

  /** At 200 unread the oldest goes. */
  lemma ArrivedQueue(l: Line, e: Entry)
    requires Sane(l)
    ensures Queue(Arrived(l, e)) == (if |Queue(l)| < 200 then Queue(l) else Queue(l)[1..]) + [e]
  {
  }

  // ------------------------------------------------------------ the bridge

  class EventBridge {
    var attached: bool
    var subs: map<Conn, Subscription>
    var queues: map<Conn, seq<Entry>>
    ghost var lines: map<Conn, Line>

    ghost predicate Valid()
      reads this
    {
      && subs.Keys == queues.Keys == lines.Keys
      && forall c | c in lines :: Sane(lines[c]) && queues[c] == Queue(lines[c])
    }

    constructor ()
      ensures Valid() && subs == map[] && !attached
    {
      attached, subs, queues, lines := false, map[], map[], map[];
    }

    method Attach()
      modifies this`attached
      ensures attached
    {
      attached := true;
    }

    /** Under a connection id nobody has yet. */
    method Subscribe(conn: Conn, topic: Topic, filter: Option<Pid>)
      requires Valid() && conn !in subs
      modifies this`subs, this`queues, this`lines
      ensures Valid() && subs == old(subs)[conn := Subscription(topic, filter)] && lines == old(lines)[conn := FRESH]
    {
      subs := subs[conn := Subscription(topic, filter)];
      queues := queues[conn := []];
      lines := lines[conn := FRESH];
    }

    method Unsubscribe(conn: Conn)
      requires Valid()
      modifies this`subs, this`queues, this`lines
      ensures Valid() && subs == old(subs) - {conn} && lines == old(lines) - {conn}
    {
      subs, queues, lines := subs - {conn}, queues - {conn}, lines - {conn};
    }

    /** `put_nowait`, after making room. */
    method Enqueue(conn: Conn, e: Entry)
      requires Valid() && conn in subs
      modifies this`queues, this`lines
      ensures Valid() && lines == old(lines)[conn := Arrived(old(lines)[conn], e)]
    {
      var queue := queues[conn];
      if |queue| == MAX_QUEUE {
        queue := queue[1..];
      }
      queues := queues[conn := queue + [e]];
      lines := lines[conn := Arrived(lines[conn], e)];
    }

    /** `_dispatch`: every matching client's line gets the entry, no other does. */
    method Dispatch(e: Entry)
      requires Valid()
      modifies this`queues, this`lines
      ensures Valid() && lines.Keys == old(lines.Keys)
      ensures forall c | c in lines ::
                lines[c] == if Matches(subs[c], e) then Arrived(old(lines)[c], e) else old(lines)[c]
      ensures forall c | c in subs ::
        queues[c] ==
        if e.topic == subs[c].topic && (subs[c].filter == None || subs[c].filter == e.project)
        then (if |old(queues)[c]| < 200 then old(queues)[c] else old(queues)[c][1..]) + [e] else old(queues)[c]
    {
      hide Arrived, Queue, Sane;
      ghost var lines0, queues0 := lines, queues;
      assert forall c | c in subs :: Sane(lines0[c]) && queues0[c] == Queue(lines0[c]);
      var todo := subs.Keys;
      while todo != {}
        invariant Valid() && todo <= subs.Keys && lines.Keys == old(lines.Keys)
        invariant forall c | c in lines ::
                    lines[c] == if c !in todo && Matches(subs[c], e) then Arrived(old(lines)[c], e) else old(lines)[c]
        decreases todo
      {
        var c :| c in todo;
        todo := todo - {c};
        if !Matches(subs[c], e) {
          continue;
        }
        Enqueue(c, e);
      }
      forall c | c in subs
        ensures queues[c] ==
          if Matches(subs[c], e) then (if |queues0[c]| < 200 then queues0[c] else queues0[c][1..]) + [e] else queues0[c]
      {
        ArrivedQueue(lines0[c], e);
      }
    }

    /** Before the loop is attached, entries are lost. */
    method Publish(e: Entry)
      requires Valid()
      modifies this`queues, this`lines
      ensures Valid() && lines.Keys == old(lines.Keys)
      ensures forall c | c in lines ::
                lines[c] == if attached && Matches(subs[c], e) then Arrived(old(lines)[c], e) else old(lines)[c]
      ensures forall c | c in subs ::
        queues[c] ==
        if attached && e.topic == subs[c].topic && (subs[c].filter == None || subs[c].filter == e.project)
        then (if |old(queues)[c]| < 200 then old(queues)[c] else old(queues)[c][1..]) + [e] else old(queues)[c]
    {
      if !attached {
        return;
      }
      Dispatch(e);
    }

    /** `queue.get()`; with nothing queued the client waits. */
    method Get(conn: Conn) returns (e: Option<Entry>)
      requires Valid() && conn in subs
      modifies this`queues, this`lines
      ensures Valid() && lines.Keys == old(lines.Keys)
      ensures e == if Queue(old(lines)[conn]) == [] then None else Some(Queue(old(lines)[conn])[0])
      ensures lines == if e.None? then old(lines) else old(lines)[conn := Taken(old(lines)[conn])]
    {
      if queues[conn] == [] {
        return None;
      }
      e := Some(queues[conn][0]);
      queues := queues[conn := queues[conn][1..]];
      lines := lines[conn := Taken(lines[conn])];
    }
  }

  // ------------------------------------------------------- whole histories

  datatype Happening = Arrival(e: Entry) | Read

  /** A client's line after a run of arrivals and reads. */
  function Lived(hs: seq<Happening>): (l: Line)
    ensures Sane(l)
  {
    if hs == [] then FRESH
    else
      var l := Lived(hs[..|hs|-1]);
      match hs[|hs|-1]
      case Arrival(e) => Arrived(l, e)
      case Read => if Queue(l) == [] then l else Taken(l)
  }

  /** What the client was handed in that run, read by read. */
  function Received(hs: seq<Happening>): seq<Entry> {
    if hs == [] then []
    else
      var l, got := Lived(hs[..|hs|-1]), Received(hs[..|hs|-1]);
      if hs[|hs|-1].Read? && Queue(l) != [] then got + [Queue(l)[0]] else got
  }

  function Arrivals(hs: seq<Happening>): seq<Entry> {
    if hs == [] then []
    else
      var rest := Arrivals(hs[..|hs|-1]);
      match hs[|hs|-1]
      case Arrival(e) => rest + [e]
      case Read => rest
  }

  function Tally(fate: seq<Fate>, f: Fate): nat {
    if fate == [] then 0 else Tally(fate[..|fate|-1], f) + if fate[|fate|-1] == f then 1 else 0
  }

  /** Arrivals on a full queue. */
  function Overflows(hs: seq<Happening>): nat {
    if hs == [] then 0
    else
      var l := Lived(hs[..|hs|-1]);
      Overflows(hs[..|hs|-1]) + if hs[|hs|-1].Arrival? && |Queue(l)| == MAX_QUEUE then 1 else 0
  }

  /** The entries with that fate, in the order they were sent. */
  function Pick(sent: seq<Entry>, fate: seq<Fate>, f: Fate): seq<Entry>
    requires |fate| <= |sent|
  {
    if fate == [] then []
    else
      var n := |fate| - 1;
      var rest := Pick(sent, fate[..n], f);
      if fate[n] == f then rest + [sent[n]] else rest
  }

  /** Where in the stream the i-th such entry was. */
  function Place(fate: seq<Fate>, f: Fate, i: nat): (k: nat)
    requires i < Tally(fate, f)
    ensures k < |fate| && fate[k] == f && Tally(fate[..k], f) == i
  {
    var n := |fate| - 1;
    if i == Tally(fate[..n], f) then n
    else
      var k := Place(fate[..n], f, i);
      assert fate[..n][..k] == fate[..k];
      k
  }

  lemma {:induction false} PickGrows(sent: seq<Entry>, more: seq<Entry>, fate: seq<Fate>, f: Fate)
    requires |fate| <= |sent| && sent <= more
    ensures Pick(more, fate, f) == Pick(sent, fate, f) && |Pick(sent, fate, f)| == Tally(fate, f)
  {
    if fate != [] {
      PickGrows(sent, more, fate[..|fate|-1], f);
    }
  }

  lemma {:induction false} Fates(fate: seq<Fate>)
    ensures Tally(fate, Delivered) + Tally(fate, Dropped) == |fate|
  {
    if fate != [] { Fates(fate[..|fate|-1]); }
  }

  lemma {:induction false} DropsAreOverflows(hs: seq<Happening>)
    ensures Tally(Lived(hs).fate, Dropped) == Overflows(hs)
  {
    if hs != [] {
      DropsAreOverflows(hs[..|hs|-1]);
      var fate := Lived(hs[..|hs|-1]).fate;
      assert (fate + [Dropped])[..|fate|] == fate && (fate + [Delivered])[..|fate|] == fate;
    }
  }

  /** Over every run the queue is the newest part of what was sent, what the
      client received is what was sent with the dropped entries left out, and
      every entry sent is delivered, dropped or queued. Dropped are as many as
      arrived on 200 unread. */
  lemma {:induction false} NewestSuffix(hs: seq<Happening>)
    ensures var l := Lived(hs);
            && l.sent == Arrivals(hs)
            && Received(hs) == Pick(l.sent, l.fate, Delivered)
            && Queue(l) == Arrivals(hs)[|Arrivals(hs)| - |Queue(l)|..]
            && |Received(hs)| + Overflows(hs) + |Queue(l)| == |Arrivals(hs)|
            && Tally(l.fate, Dropped) == Overflows(hs)
  {
    hide Overflows;
    var l := Lived(hs);
    DropsAreOverflows(hs);
    Fates(l.fate);
    PickGrows(l.sent, l.sent, l.fate, Delivered);
    if hs != [] {
      var init, h := hs[..|hs|-1], hs[|hs|-1];
      NewestSuffix(init);
      var l0 := Lived(init);
      PickGrows(l0.sent, l.sent, l0.fate, Delivered);
      assert l.fate != l0.fate ==> l.fate[..|l.fate|-1] == l0.fate;
    }
  }

  /** Reads never go back: a later read returns a later entry. */
  lemma ReadsInOrder(hs: seq<Happening>, i: nat, j: nat)
    requires i < j < |Received(hs)|
    ensures var fate := Lived(hs).fate;
            && j < Tally(fate, Delivered) && Place(fate, Delivered, i) < Place(fate, Delivered, j) < |Arrivals(hs)|
            && Received(hs)[i] == Arrivals(hs)[Place(fate, Delivered, i)]
  {
    NewestSuffix(hs);
    var l := Lived(hs);
    PickGrows(l.sent, l.sent, l.fate, Delivered);
    PickAt(l.sent, l.fate, Delivered, i);
    var a, b := Place(l.fate, Delivered, i), Place(l.fate, Delivered, j);
    if b <= a { TallyMonotone(l.fate, Delivered, b, a); }
  }

  lemma {:induction false} PickAt(sent: seq<Entry>, fate: seq<Fate>, f: Fate, i: nat)
    requires |fate| <= |sent| && i < Tally(fate, f)
    ensures i < |Pick(sent, fate, f)| && Pick(sent, fate, f)[i] == sent[Place(fate, f, i)]
  {
    var n := |fate| - 1;
    PickGrows(sent, sent, fate[..n], f);
    if i < Tally(fate[..n], f) { PickAt(sent, fate[..n], f, i); }
  }

  lemma {:induction false} TallyMonotone(fate: seq<Fate>, f: Fate, a: nat, b: nat)
    requires a <= b <= |fate|
    ensures Tally(fate[..a], f) <= Tally(fate[..b], f)
  {
    if a < b {
      assert fate[..b][..b-1] == fate[..b-1];
      TallyMonotone(fate, f, a, b - 1);
    }
  }
}
