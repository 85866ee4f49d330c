/** The agent's outbound queue and the socket writer that drains it. Results and
    events are precious: they are never dropped and never reordered. */
module OutboundQueue {
  import opened Wrappers

  datatype Kind = Hello | Ping | State | Result | Event

  datatype Message = Message(kind: Kind, id: int)

  predicate Droppable(m: Message) { m.kind.State? || m.kind.Ping? }

  predicate Precious(m: Message) { m.kind.Result? || m.kind.Event? }

  /** The precious messages of a sequence, in order. */
  function OnlyPrecious(s: seq<Message>): seq<Message> {
    if s == [] then []
    else OnlyPrecious(s[..|s| - 1]) + if Precious(s[|s| - 1]) then [s[|s| - 1]] else []
  }

  /** How many messages of a sequence are not precious. */
  function Ordinary(s: seq<Message>): nat {
    PreciousBound(s);
    |s| - |OnlyPrecious(s)|
  }

  lemma {:induction false} PreciousConcat(s: seq<Message>, t: seq<Message>)
    ensures OnlyPrecious(s + t) == OnlyPrecious(s) + OnlyPrecious(t)
  {
    if t == [] {
      assert s + t == s;
    } else {
      var front := t[..|t| - 1];
      PreciousConcat(s, front);
      assert (s + t)[..|s + t| - 1] == s + front;
    }
  }

  lemma {:induction false} PreciousBound(s: seq<Message>)
    ensures |OnlyPrecious(s)| <= |s|
  {
    if s != [] { PreciousBound(s[..|s| - 1]); }
  }

  lemma {:induction false} PreciousMember(s: seq<Message>, m: Message)
    requires m.kind == Result || m.kind == Event
    ensures m in OnlyPrecious(s) <==> m in s
  {
    if s != [] {
      PreciousMember(s[..|s| - 1], m);
      assert s == s[..|s| - 1] + [s[|s| - 1]];
    }
  }

  /** How many messages are states, pings or hellos. */
  function CountOthers(s: seq<Message>): nat {
    if s == [] then 0
    else CountOthers(s[..|s| - 1]) + if s[|s| - 1].kind == State || s[|s| - 1].kind == Ping || s[|s| - 1].kind == Hello then 1 else 0
  }

  lemma {:induction false} OthersAreOrdinary(s: seq<Message>)
    ensures CountOthers(s) == Ordinary(s)
  {
    PreciousBound(s);
    if s != [] { OthersAreOrdinary(s[..|s| - 1]); }
  }

  lemma PreciousOne(m: Message)
    ensures OnlyPrecious([m]) == if Precious(m) then [m] else []
  {
    assert [m][..0] == [];
  }

  /** Without its first droppable item, if there is one. */
  function Evicted(s: seq<Message>): seq<Message> {
    if s == [] then []
    else if Droppable(s[0]) then s[1..] else [s[0]] + Evicted(s[1..])
  }

  lemma {:induction false} EvictedAt(s: seq<Message>, i: nat)
    requires i < |s| && Droppable(s[i]) && forall j | 0 <= j < i :: !Droppable(s[j])
    ensures Evicted(s) == s[..i] + s[i + 1..]
  {
    if i > 0 {
      EvictedAt(s[1..], i - 1);
      assert s[..i] == [s[0]] + s[1..][..i - 1];
      assert s[1..][i..] == s[i + 1..];
    }
  }

  lemma {:induction false} EvictedLess(s: seq<Message>)
    ensures |Evicted(s)| == |s| - (if exists m :: m in s && (m.kind == State || m.kind == Ping) then 1 else 0)
    ensures (exists m :: m in s && (m.kind == State || m.kind == Ping)) <==> Evicted(s) != s
  {
    if s != [] && !Droppable(s[0]) { EvictedLess(s[1..]); }
  }

  lemma {:induction false} NothingEvicted(s: seq<Message>)
    requires forall m :: m in s ==> !Droppable(m)
    ensures Evicted(s) == s
  {
    if s != [] { NothingEvicted(s[1..]); }
  }

  function Added(s: seq<Message>, m: Message, front: bool): seq<Message> { if front then [m] + s else s + [m] }

  /** The queue after a put: a full one gives up its oldest state or ping first, and an
      ordinary message that still finds no room is not queued. */
  function AfterPut(s: seq<Message>, m: Message, front: bool, maxDepth: nat): seq<Message> {
    if |s| < maxDepth then Added(s, m, front)
    else if m.kind == Result || m.kind == Event then Added(Evicted(s), m, front)
    else if Evicted(s) == s || |Evicted(s)| >= maxDepth then Evicted(s)
    else Added(Evicted(s), m, front)
  }

  class Queue {
    const maxDepth: nat
    var items: seq<Message>
    var dropped: nat

    constructor (maxDepth: nat)
      ensures this.maxDepth == maxDepth && items == [] && dropped == 0
    {
      this.maxDepth := maxDepth;
      items, dropped := [], 0;
    }

    /** Deletes the first droppable item, if there is one, and counts it. */
    method DropOldestDroppable() returns (found: bool)
      modifies this
      ensures found <==> exists m :: m in old(items) && (m.kind == State || m.kind == Ping)
      ensures dropped == old(dropped) + if found then 1 else 0
      ensures OnlyPrecious(items) == OnlyPrecious(old(items))
      ensures items == Evicted(old(items))
      ensures if found
        then exists i | 0 <= i < |old(items)| ::
               && old(items)[i].kind in {State, Ping} && (forall j | 0 <= j < i :: old(items)[j].kind !in {State, Ping})
               && items == old(items)[..i] + old(items)[i + 1..]
        else items == old(items)
    {
      for position := 0 to |items|
        invariant items == old(items) && dropped == old(dropped)
        invariant forall j | 0 <= j < position :: !Droppable(items[j])
      {
        if Droppable(items[position]) {
          DropKeepsPrecious(items, position);
          EvictedAt(items, position);
          items := items[..position] + items[position + 1..];
          dropped := dropped + 1;
          return true;
        }
      }
      NothingEvicted(items);
      found := false;
    }

    /** A full queue makes room by dropping old state and pings; an ordinary
        message that still finds no room is dropped itself. */
    method Put(m: Message, front: bool)
      modifies this
      ensures items == AfterPut(old(items), m, front, maxDepth)
      ensures dropped >= old(dropped) && |items| + dropped == |old(items)| + old(dropped) + 1
      ensures Precious(m) && !front ==> OnlyPrecious(items) == OnlyPrecious(old(items)) + [m]
      ensures !Precious(m) ==> OnlyPrecious(items) == OnlyPrecious(old(items))
      ensures |old(items)| >= maxDepth && !Precious(m) && (forall x | x in old(items) :: !Droppable(x)) ==> items == old(items)
      ensures |old(items)| < maxDepth ==> items == (if front then [m] + old(items) else old(items) + [m])
      ensures Ordinary(items) <= Ordinary(old(items)) || |items| <= maxDepth
    {
      hide OnlyPrecious, Evicted;
      PreciousBound(items);
      EvictedLess(items);
      if |items| >= maxDepth && !Precious(m) {
        var found := DropOldestDroppable();
        PreciousBound(items);
        if !found || |items| >= maxDepth {
          dropped := dropped + 1;
          return;
        }
      } else if |items| >= maxDepth {
        var _ := DropOldestDroppable();
        PreciousBound(items);
      }
      PreciousOne(m);
      if front {
        PreciousConcat([m], items);
        items := [m] + items;
      } else {
        PreciousConcat(items, [m]);
        items := items + [m];
      }
    }

    method Requeue(m: Message)
      modifies this`items
      ensures items == [m] + old(items)
    {
      items := [m] + items;
    }

    /** `get` without the waiting: the head, if there is one. */
    method Get() returns (m: Option<Message>)
      modifies this`items
      ensures old(items) == [] ==> m.None? && items == []
      ensures old(items) != [] ==> m == Some(old(items)[0]) && items == old(items)[1..]
    {
      if items == [] { return None; }
      m := Some(items[0]);
      items := items[1..];
    }
  }

  lemma DropKeepsPrecious(s: seq<Message>, i: nat)
    requires i < |s| && !Precious(s[i])
    ensures OnlyPrecious(s[..i] + s[i + 1..]) == OnlyPrecious(s)
  {
    hide OnlyPrecious;
    assert s == s[..i] + ([s[i]] + s[i + 1..]);
    PreciousConcat(s[..i], [s[i]] + s[i + 1..]);
    PreciousConcat([s[i]], s[i + 1..]);
    PreciousOne(s[i]);
    PreciousConcat(s[..i], s[i + 1..]);
  }

  /** How a message left the agent for good: sent, or lost because the writer task
      was cancelled while the send was under way. */
  datatype Left = Left(message: Message, sent: bool)

  function Messages(s: seq<Left>): seq<Message> {
    seq(|s|, i requires 0 <= i < |s| => s[i].message)
  }

  function SentOnly(s: seq<Left>): seq<Message> {
    if s == [] then []
    else SentOnly(s[..|s| - 1]) + if s[|s| - 1].sent then [s[|s| - 1].message] else []
  }

  /** How many results and events a cancelled writer has lost. */
  function LostPrecious(s: seq<Left>): nat {
    if s == [] then 0
    else
      var last := s[|s| - 1];
      LostPrecious(s[..|s| - 1]) + if !last.sent && Precious(last.message) then 1 else 0
  }

  lemma {:induction false} SentLengths(s: seq<Left>)
    ensures |OnlyPrecious(Messages(s))| == |OnlyPrecious(SentOnly(s))| + LostPrecious(s)
    ensures LostPrecious(s) == 0 ==> OnlyPrecious(Messages(s)) == OnlyPrecious(SentOnly(s))
  {
    if s != [] {
      var front, last := s[..|s| - 1], s[|s| - 1];
      SentLengths(front);
      assert Messages(s) == Messages(front) + [last.message];
      PreciousConcat(Messages(front), [last.message]);
      PreciousOne(last.message);
      PreciousConcat(SentOnly(front), [last.message]);
      assert SentOnly(s) == if last.sent then SentOnly(front) + [last.message] else SentOnly(front);
    }
  }

  /** The results and events sent are, in order, those that left the queue exactly
      when no cancellation hit the writer while it held one. */
  lemma SentInOrder(s: seq<Left>)
    ensures OnlyPrecious(SentOnly(s)) == OnlyPrecious(Messages(s)) <==> LostPrecious(s) == 0
  {
    SentLengths(s);
  }

  /** The socket: the queue, what the writer holds, and the history. */
  class ControlSocket {
    const queue: Queue
    var inFlight: Option<Message>
    ghost var puts: seq<Message>
    ghost var left: seq<Left>

    ghost function Flying(): seq<Message>
      reads this
    {
      if inFlight.Some? then [inFlight.value] else []
    }

    /** Precious messages leave, fly and wait in exactly the order they were put;
        every message is accounted for; ordinary ones are bounded. */
    ghost predicate Valid()
      reads this, queue
    {
      && OnlyPrecious(puts) == OnlyPrecious(Messages(left)) + OnlyPrecious(Flying()) + OnlyPrecious(queue.items)
      && |puts| == |left| + |Flying()| + |queue.items| + queue.dropped
      && Ordinary(queue.items) + Ordinary(Flying()) <= queue.maxDepth + 1
    }

    constructor (maxDepth: nat)
      ensures Valid() && fresh(queue) && puts == [] && left == [] && queue.maxDepth == maxDepth
    {
      queue := new Queue(maxDepth);
      inFlight, puts, left := None, [], [];
    }

    /** `send_event`, `send_result`: at the back. */
    method SendPrecious(m: Message)
      requires Valid() && Precious(m)
      modifies this`puts, queue
      ensures Valid() && puts == old(puts) + [m]
    {
      Put(m, false);
    }

    /** The pinger sends to the front, the state sender to the back. */
    method SendOrdinary(m: Message, front: bool)
      requires Valid() && !Precious(m)
      modifies this`puts, queue
      ensures Valid() && puts == old(puts) + [m]
    {
      Put(m, front);
    }

    /** `send`. */
    method Put(m: Message, front: bool)
      requires Valid() && (Precious(m) ==> !front)
      modifies this`puts, queue
      ensures Valid() && puts == old(puts) + [m]
    {
      hide OnlyPrecious;
      PreciousConcat(puts, [m]);
      PreciousOne(m);
      FlyingOrdinary();
      queue.Put(m, front);
      puts := puts + [m];
      PreciousBound(queue.items);
    }

    lemma FlyingOrdinary()
      ensures Ordinary(Flying()) <= 1
    {
      PreciousBound(Flying());
    }

    /** The writer takes the head of the queue. */
    method Take()
      requires Valid() && inFlight.None?
      modifies this`inFlight, queue
      ensures Valid() && puts == old(puts) && left == old(left)
      ensures old(queue.items) != [] ==> inFlight == Some(old(queue.items)[0])
    {
      if queue.items != [] {
        PreciousConcat([queue.items[0]], queue.items[1..]);
        assert queue.items == [queue.items[0]] + queue.items[1..];
        PreciousBound(queue.items[1..]);
        PreciousBound([queue.items[0]]);
      }
      inFlight := queue.Get();
    }

    /** The send succeeded. */
    method Sent()
      requires Valid() && inFlight.Some?
      modifies this`inFlight, this`left
      ensures Valid() && left == old(left) + [Left(old(inFlight).value, true)]
    {
      Leave(true);
    }

    /** The send raised: the message goes back to the head, and the writer ends. */
    method SendFailed()
      requires Valid() && inFlight.Some?
      modifies this`inFlight, queue
      ensures Valid() && inFlight.None? && queue.items == [old(inFlight).value] + old(queue.items) && left == old(left)
    {
      var m := inFlight.value;
      PreciousConcat([m], queue.items);
      PreciousBound([m]);
      PreciousBound(queue.items);
      queue.Requeue(m);
      inFlight := None;
    }

    /** The writer was cancelled inside the send: the handler catches only
        `Exception`, so the message is not requeued. */
    method Cancelled()
      requires Valid() && inFlight.Some?
      modifies this`inFlight, this`left
      ensures Valid() && left == old(left) + [Left(old(inFlight).value, false)]
    {
      Leave(false);
    }

    method Leave(sent: bool)
      requires Valid() && inFlight.Some?
      modifies this`inFlight, this`left
      ensures Valid() && inFlight.None? && left == old(left) + [Left(old(inFlight).value, sent)]
    {
      ghost var m := inFlight.value;
      PreciousConcat(Messages(left), [m]);
      assert Messages(left + [Left(m, sent)]) == Messages(left) + [m];
      PreciousBound([m]);
      left := left + [Left(m, sent)];
      inFlight := None;
    }

    /** Results and events, by their kinds: while no cancelled send hits one, each that was
        put was sent, is in flight, or waits. */
    lemma NoneMissing(m: Message)
      requires Valid() && m in puts && (m.kind == Result || m.kind == Event) && LostPrecious(left) == 0
      ensures m in SentOnly(left) + Flying() + queue.items
    {
      hide OnlyPrecious, SentOnly, LostPrecious;
      NothingLostInOrder();
      PreciousMember(puts, m);
      PreciousMember(SentOnly(left), m);
      PreciousMember(Flying(), m);
      PreciousMember(queue.items, m);
    }

    /** States, pings and hellos together never exceed the depth by more than one. */
    lemma OthersBounded()
      requires Valid()
      ensures CountOthers(queue.items) + CountOthers(Flying()) <= queue.maxDepth + 1
    {
      OthersAreOrdinary(queue.items);
      OthersAreOrdinary(Flying());
    }

    /** For every run of puts, sends and failed sends: what was put is what was
        sent, then the one in flight, then what waits. A cancelled send of a
        result or event is exactly what breaks it. */
    lemma NothingLostInOrder()
      requires Valid()
      ensures OnlyPrecious(puts) == OnlyPrecious(SentOnly(left)) + OnlyPrecious(Flying()) + OnlyPrecious(queue.items)
         <==> LostPrecious(left) == 0
    {
      SentLengths(left);
    }
  }

  /** A run that loses a result: it is put, taken by the writer, and the writer is
      cancelled during the send. */
  method ResultLost(m: Message) returns (socket: ControlSocket)
    requires m.kind.Result?
    ensures fresh(socket) && socket.Valid() && socket.puts == [m] && socket.queue.items == [] && socket.inFlight.None?
    ensures SentOnly(socket.left) == [] && LostPrecious(socket.left) == 1
  {
    socket := new ControlSocket(1);
    socket.SendPrecious(m);
    socket.Take();
    socket.Cancelled();
  }
}
