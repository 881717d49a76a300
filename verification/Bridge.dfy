/** One event source, many browsers: every browser has its own bounded queue and its own sender task.
    A registration is identified by a number of its own, which also stands for its queue and task objects. */
module Bridge {
  import opened OrderedDict
  import opened Replay
  import ChatStore

  type ClientId = nat

  /** What a queue holds: a payload, or the sentinel that ends the sender. */
  datatype Item = Payload(event: Event) | Stop

  datatype Sender = Idle | Sending(event: Event) | Failed | Finished

  /** A queue object with its sender task, and everything that went over the socket so far. */
  datatype Link = Link(queue: seq<Item>, cap: nat, sender: Sender, sent: seq<Event>)

  /** `clients`, `queues` and `senders` are the three registries; `links` keeps the objects, also unregistered ones. */
  datatype State = State(
    history: seq<Event>, active: seq<SuperChat>,
    clients: set<ClientId>, queues: set<ClientId>, senders: set<ClientId>,
    links: map<ClientId, Link>, closed: bool, maxsize: nat)

  // ---------------------------------------------------------------- specification of the steps

  function Payloads(events: seq<Event>): seq<Item> {
    seq(|events|, i requires 0 <= i < |events| => Payload(events[i]))
  }

  function Halted(l: Link): Link { l.(queue := [Stop]) }

  function HaltedIn(links: map<ClientId, Link>, ids: set<ClientId>): map<ClientId, Link> {
    map id | id in links :: if id in ids then Halted(links[id]) else links[id]
  }

  predicate HasRoom(l: Link) { |l.queue| < l.cap }

  /** Queue the event, or give up on a client whose queue is full. */
  function Offer(l: Link, e: Event): Link {
    if HasRoom(l) then l.(queue := l.queue + [Payload(e)]) else Halted(l)
  }

  function NewLink(snapshot: seq<Event>, maxsize: nat): Link {
    Link(Payloads(snapshot), if maxsize >= |snapshot| + 1 then maxsize else |snapshot| + 1, Idle, [])
  }

  datatype Act =
    | Register(id: ClientId, now: int)   // register_ws
    | Occur(event: Event, now: int)      // _on_event
    | Take(id: ClientId)                 // the sender takes the next item
    | Deliver(id: ClientId)              // the send in flight returns
    | Break(id: ClientId)                // the send in flight raises or times out
    | SelfDetach(id: ClientId)           // the broken sender removes its own client
    | Detach(id: ClientId)               // unregister_ws
    | BeginClose                         // close, up to the lock
    | EndClose                           // close, from the lock on

  function Unregister(s: State, ids: set<ClientId>): State {
    s.(clients := s.clients - ids, queues := s.queues - ids, senders := s.senders - ids)
  }

  function RegisterStep(s: State, id: ClientId, now: int): State {
    if s.closed || id in s.links then s
    else s.(
      active := Prune(s.active, now),
      clients := s.clients + {id}, queues := s.queues + {id}, senders := s.senders + {id},
      links := s.links[id := NewLink(Snapshot(s.history, s.active, now), s.maxsize)])
  }

  function Full(s: State): set<ClientId> {
    set id | id in s.clients && id in s.links && !HasRoom(s.links[id])
  }

  function OfferIn(links: map<ClientId, Link>, ids: set<ClientId>, e: Event): map<ClientId, Link> {
    map id | id in links :: if id in ids then Offer(links[id], e) else links[id]
  }

  function OccurStep(s: State, e: Event, now: int): State {
    Unregister(s, Full(s)).(
      history := Append(s.history, e),
      active := Remember(s.active, e, now),
      links := OfferIn(s.links, s.clients, e))
  }

  function TakeStep(s: State, id: ClientId): State {
    if id !in s.links || !s.links[id].sender.Idle? || s.links[id].queue == [] then s
    else
      var l := s.links[id];
      var sender := if l.queue[0].Stop? then Finished else Sending(l.queue[0].event);
      s.(links := s.links[id := l.(queue := l.queue[1..], sender := sender)])
  }

  function DeliverStep(s: State, id: ClientId): State {
    if id !in s.links || !s.links[id].sender.Sending? then s
    else
      var l := s.links[id];
      s.(links := s.links[id := l.(sender := Idle, sent := l.sent + [l.sender.event])])
  }

  function BreakStep(s: State, id: ClientId): State {
    if id !in s.links || !s.links[id].sender.Sending? then s
    else s.(links := s.links[id := s.links[id].(sender := Failed)])
  }

  function DetachStep(s: State, id: ClientId): State {
    if id in s.senders && id in s.links then Unregister(s, {id}).(links := s.links[id := Halted(s.links[id])])
    else Unregister(s, {id})
  }

  function SelfDetachStep(s: State, id: ClientId): State {
    if id in s.links && s.links[id].sender.Failed? then Unregister(s, {id}) else s
  }

  function EndCloseStep(s: State): State {
    if !s.closed then s
    else s.(clients := {}, queues := {}, senders := {},
            links := HaltedIn(s.links, s.queues))
  }

  function Step(s: State, a: Act): State {
    match a
    case Register(id, now) => RegisterStep(s, id, now)
    case Occur(e, now) => OccurStep(s, e, now)
    case Take(id) => TakeStep(s, id)
    case Deliver(id) => DeliverStep(s, id)
    case Break(id) => BreakStep(s, id)
    case SelfDetach(id) => SelfDetachStep(s, id)
    case Detach(id) => DetachStep(s, id)
    case BeginClose => s.(closed := true)
    case EndClose => EndCloseStep(s)
  }

  function Init(initial: seq<SuperChat>, now: int, maxsize: nat): State {
    State([], InitialActive(initial, now), {}, {}, {}, map[], false, maxsize)
  }

  // ---------------------------------------------------------------- what holds at every lock release

  /** The registries agree, no queue is over its bound, and a sentinel only ever stands alone, in the queue of a
      client that is no longer registered. */
  ghost predicate Tidy(s: State) {
    && s.clients == s.queues == s.senders
    && s.clients <= s.links.Keys
    && s.maxsize > 0
    && forall id :: id in s.links ==> TidyLink(s.links[id], id in s.clients)
  }

  ghost predicate TidyLink(l: Link, registered: bool) {
    && 0 < l.cap && |l.queue| <= l.cap
    && (registered ==> !l.sender.Finished? && forall i :: 0 <= i < |l.queue| ==> l.queue[i].Payload?)
    && (!registered ==> l.sender.Failed? || (if l.sender.Finished? then l.queue == [] else l.queue == [Stop]))
  }

  lemma StepTidy(s: State, a: Act)
    requires Tidy(s)
    ensures Tidy(Step(s, a))
  {
    var t := Step(s, a);
    forall id | id in t.links ensures TidyLink(t.links[id], id in t.clients) {
      if id in s.links {
        assert TidyLink(s.links[id], id in s.clients);
      }
    }
  }

  /** Of all clients, some are served, some are slow, and the others are still to do. */
  ghost predicate Enqueued(
    links: map<ClientId, Link>, all: set<ClientId>, served: set<ClientId>, slow: set<ClientId>, todo: set<ClientId>)
  {
    && all <= links.Keys && todo <= all
    && (forall id :: id in served <==> id in all && id !in todo && HasRoom(links[id]))
    && (forall id :: id in slow <==> id in all && id !in todo && !HasRoom(links[id]))
  }

  lemma EnqueuedNext(
    links: map<ClientId, Link>, all: set<ClientId>, served: set<ClientId>, slow: set<ClientId>, todo: set<ClientId>,
    id: ClientId)
    requires Enqueued(links, all, served, slow, todo) && id in todo
    ensures HasRoom(links[id]) ==>
              && Enqueued(links, all, served + {id}, slow, todo - {id})
              && served + todo == (served + {id}) + (todo - {id})
    ensures !HasRoom(links[id]) ==>
              && Enqueued(links, all, served, slow + {id}, todo - {id})
              && (served + todo) - {id} == served + (todo - {id})
    ensures id !in served
  {
  }

  lemma EnqueuedAll(links: map<ClientId, Link>, all: set<ClientId>, served: set<ClientId>, slow: set<ClientId>)
    requires Enqueued(links, all, served, slow, {})
    ensures served == all - slow && served + {} == served
  {
  }

  lemma OfferNone(links: map<ClientId, Link>, e: Event)
    ensures OfferIn(links, {}, e) == links
  {
  }

  lemma OfferNext(links: map<ClientId, Link>, served: set<ClientId>, id: ClientId, e: Event)
    requires id in links
    ensures OfferIn(links, served, e)[id := Offer(links[id], e)] == OfferIn(links, served + {id}, e)
  {
  }

  lemma HaltSlow(links: map<ClientId, Link>, clients: set<ClientId>, slow: set<ClientId>, e: Event)
    requires clients <= links.Keys
    requires forall id :: id in slow <==> id in clients && !HasRoom(links[id])
    ensures HaltedIn(OfferIn(links, clients - slow, e), slow) == OfferIn(links, clients, e)
  {
  }

  // ---------------------------------------------------------------- the bridge

  class RoomBridge {
    const maxsize: nat
    var history: seq<Event>
    var active: seq<SuperChat>
    var clients: set<ClientId>
    var clientQueues: set<ClientId>
    var senderTasks: set<ClientId>
    var links: map<ClientId, Link>
    var closed: bool

    ghost function Abs(): State
      reads this
    {
      State(history, active, clients, clientQueues, senderTasks, links, closed, maxsize)
    }

    constructor (initial: seq<SuperChat>, now: int, maxsize: nat)
      requires maxsize > 0
      ensures Abs() == Init(initial, now, maxsize) && Tidy(Abs())
    {
      this.maxsize := maxsize;
      history, active := [], InitialActive(initial, now);
      clients, clientQueues, senderTasks, links, closed := {}, {}, {}, map[], false;
    }

    /** A queue bound of zero or less is refused. */
    static method Create(initial: seq<SuperChat>, now: int, maxsize: int) returns (r: Option<RoomBridge>)
      ensures r.None? <==> maxsize <= 0
      ensures r.Some? ==> fresh(r.value) && r.value.Abs() == Init(initial, now, maxsize) && Tidy(r.value.Abs())
    {
      if maxsize <= 0 {
        return None;
      }
      var b := new RoomBridge(initial, now, maxsize);
      return Some(b);
    }

    /** A queue of this size is filled from the snapshot, which never overflows it. */
    static method FillQueue(snapshot: seq<Event>, size: nat) returns (queue: seq<Item>)
      requires size > |snapshot|
      ensures queue == Payloads(snapshot)
    {
      queue := [];
      for i := 0 to |snapshot|
        invariant queue == Payloads(snapshot)[..i]
      {
        assert |queue| < size;  // no QueueFull
        queue := queue + [Payload(snapshot[i])];
      }
    }

    method RegisterWs(id: ClientId, now: int)
      requires Tidy(Abs()) && id !in links
      modifies this
      ensures Tidy(Abs()) && Abs() == Step(old(Abs()), Register(id, now))
    {
      StepTidy(Abs(), Register(id, now));
      if closed {
        return;
      }
      var snapshot := Snapshot(history, active, now);
      active := Prune(active, now);
      var size := if maxsize >= |snapshot| + 1 then maxsize else |snapshot| + 1;
      var queue := FillQueue(snapshot, size);
      clients := clients + {id};
      clientQueues := clientQueues + {id};
      links := links[id := Link(queue, size, Idle, [])];
      senderTasks := senderTasks + {id};
    }

    /** Posting the sentinel into the drained queue never overflows it. */
    method SignalSenderStop(id: ClientId)
      requires id in links && links[id].cap > 0
      modifies this`links
      ensures links == old(links)[id := Halted(old(links)[id])]
    {
      var queue := links[id].queue;
      while queue != []
      {
        queue := queue[1..];
      }
      assert |queue| < links[id].cap && queue + [Stop] == [Stop];  // no QueueFull
      links := links[id := links[id].(queue := queue + [Stop])];
    }

    method SignalAll(ids: set<ClientId>)
      requires forall id :: id in ids ==> id in links && links[id].cap > 0
      modifies this`links
      ensures links == HaltedIn(old(links), ids)
    {
      var todo := ids;
      while todo != {}
        invariant todo <= ids && links.Keys == old(links).Keys
        invariant forall id :: id in links ==>
                    links[id] == if id in ids - todo then Halted(old(links)[id]) else old(links)[id]
        decreases |todo|
      {
        var id :| id in todo;
        todo := todo - {id};
        SignalSenderStop(id);
      }
    }

    method DetachClient(id: ClientId)
      requires Tidy(Abs())
      modifies this
      ensures Tidy(Abs()) && Abs() == Step(old(Abs()), Detach(id))
    {
      StepTidy(Abs(), Detach(id));
      var hasSender := id in senderTasks;
      clients := clients - {id};
      clientQueues := clientQueues - {id};
      senderTasks := senderTasks - {id};
      if hasSender {
        SignalSenderStop(id);
      }
    }

    /** Queue the event for one client, or take it off the registries if its queue is full. */
    method EnqueueOne(id: ClientId, e: Event) returns (ok: bool)
      requires id in links
      modifies this`links, this`clients, this`clientQueues, this`senderTasks
      ensures ok == HasRoom(old(links)[id])
      ensures links == if ok then old(links)[id := Offer(old(links)[id], e)] else old(links)
      ensures clients == if ok then old(clients) else old(clients) - {id}
      ensures clientQueues == if ok then old(clientQueues) else old(clientQueues) - {id}
      ensures senderTasks == if ok then old(senderTasks) else old(senderTasks) - {id}
    {
      var link := links[id];
      ok := HasRoom(link);
      if ok {
        links := links[id := link.(queue := link.queue + [Payload(e)])];
      } else {
        senderTasks := senderTasks - {id};
        clients := clients - {id};
        clientQueues := clientQueues - {id};
      }
    }

    /** Queue the event for every client; those whose queue is full are taken off the registries. */
    method EnqueueAll(e: Event) returns (slow: set<ClientId>)
      requires clients == clientQueues == senderTasks && clients <= links.Keys
      modifies this`links, this`clients, this`clientQueues, this`senderTasks
      ensures forall id :: id in slow <==> id in old(clients) && !HasRoom(old(links)[id])
      ensures clients == clientQueues == senderTasks == old(clients) - slow
      ensures links == OfferIn(old(links), clients, e)
    {
      var todo := clients;
      ghost var served: set<ClientId> := {};
      slow := {};
      OfferNone(links, e);
      while todo != {}
        invariant Enqueued(old(links), old(clients), served, slow, todo)
        invariant clients == clientQueues == senderTasks == served + todo
        invariant links == OfferIn(old(links), served, e)
        decreases |todo|
      {
        var id :| id in todo;
        EnqueuedNext(old(links), old(clients), served, slow, todo, id);
        OfferNext(old(links), served, id, e);
        todo := todo - {id};
        var ok := EnqueueOne(id, e);
        if ok {
          served := served + {id};
        } else {
          slow := slow + {id};
        }
      }
      EnqueuedAll(old(links), old(clients), served, slow);
    }

    method OnEvent(e: Event, now: int)
      requires Tidy(Abs())
      modifies this
      ensures Tidy(Abs()) && Abs() == Step(old(Abs()), Occur(e, now))
    {
      ghost var s := Abs();
      StepTidy(s, Occur(e, now));
      active := Remember(active, e, now);
      history := Append(history, e);
      var slow := EnqueueAll(e);
      // after the lock: the clients that could not keep up are told to stop
      assert slow == Full(s);
      HaltSlow(s.links, s.clients, slow, e);
      SignalAll(slow);
    }

    /** The next item for the sender: the sentinel ends it, a payload is put in flight. */
    method SenderTake(id: ClientId)
      requires Tidy(Abs())
      modifies this`links
      ensures Tidy(Abs()) && Abs() == Step(old(Abs()), Take(id))
    {
      StepTidy(Abs(), Take(id));
      if id in links && links[id].sender.Idle? && links[id].queue != [] {
        var link := links[id];
        var sender := if link.queue[0] == Stop then Finished else Sending(link.queue[0].event);
        links := links[id := link.(queue := link.queue[1..], sender := sender)];
      }
    }

    method SenderReturn(id: ClientId, ok: bool)
      requires Tidy(Abs())
      modifies this`links
      ensures Tidy(Abs()) && Abs() == Step(old(Abs()), if ok then Deliver(id) else Break(id))
    {
      StepTidy(Abs(), if ok then Deliver(id) else Break(id));
      if id in links && links[id].sender.Sending? {
        var link := links[id];
        links := links[id := if ok then link.(sender := Idle, sent := link.sent + [link.sender.event])
                             else link.(sender := Failed)];
      }
    }

    method BeginToClose()
      requires Tidy(Abs())
      modifies this`closed
      ensures Tidy(Abs()) && Abs() == Step(old(Abs()), BeginClose)
    {
      StepTidy(Abs(), BeginClose);
      closed := true;
    }

    method FinishClosing()
      requires Tidy(Abs()) && closed
      modifies this
      ensures Tidy(Abs()) && Abs() == Step(old(Abs()), EndClose)
    {
      StepTidy(Abs(), EndClose);
      var queues := clientQueues;
      clients, clientQueues, senderTasks := {}, {}, {};
      SignalAll(queues);
    }
  }

  // ---------------------------------------------------------------- whole runs

  function Exec(s: State, acts: seq<Act>): State {
    if acts == [] then s else Step(Exec(s, acts[..|acts| - 1]), acts[|acts| - 1])
  }

  lemma {:induction false} ExecTidy(s: State, acts: seq<Act>)
    requires Tidy(s)
    ensures Tidy(Exec(s, acts))
  {
    if acts != [] {
      ExecTidy(s, acts[..|acts| - 1]);
      StepTidy(Exec(s, acts[..|acts| - 1]), acts[|acts| - 1]);
    }
  }

  /** What a client is owed, read off the run alone: the replay at its registration, then every later event. */
  function Feed(s: State, acts: seq<Act>, id: ClientId): seq<Event> {
    if acts == [] then []
    else
      var init := acts[..|acts| - 1];
      var before := Exec(s, init);
      var owed := Feed(s, init, id);
      match acts[|acts| - 1]
      case Register(i, now) =>
        if i == id && id !in before.links && !before.closed then Snapshot(before.history, before.active, now) else owed
      case Occur(e, _) => if id in before.links then owed + [e] else owed
      case _ => owed
  }

  /** Sent, then the send in flight. */
  function Wire(l: Link): seq<Event> {
    l.sent + if l.sender.Sending? then [l.sender.event] else []
  }

  function Queued(q: seq<Item>): seq<Event> {
    if q == [] then []
    else if q[0].Stop? then Queued(q[1..])
    else [q[0].event] + Queued(q[1..])
  }

  ghost predicate Follows(l: Link, registered: bool, feed: seq<Event>) {
    && Wire(l) <= feed
    && (registered && !l.sender.Failed? ==> Wire(l) + Queued(l.queue) == feed)
  }

  lemma {:induction false} QueuedConcat(a: seq<Item>, b: seq<Item>)
    ensures Queued(a + b) == Queued(a) + Queued(b)
  {
    if a == [] {
      assert a + b == b;
    } else {
      assert (a + b)[1..] == a[1..] + b;
      QueuedConcat(a[1..], b);
    }
  }

  lemma {:induction false} QueuedPayloads(events: seq<Event>)
    ensures Queued(Payloads(events)) == events
  {
    if events != [] {
      assert Payloads(events)[1..] == Payloads(events[1..]);
      QueuedPayloads(events[1..]);
    }
  }

  lemma OfferFollows(l: Link, registered: bool, feed: seq<Event>, e: Event)
    requires TidyLink(l, registered) && Follows(l, registered, feed)
    ensures Follows(if registered then Offer(l, e) else l, registered && HasRoom(l), feed + [e])
  {
    if registered && HasRoom(l) {
      QueuedConcat(l.queue, [Payload(e)]);
      assert Queued([Payload(e)]) == [e];
      assert Wire(l) + (Queued(l.queue) + [e]) == (Wire(l) + Queued(l.queue)) + [e];
    }
  }

  lemma TakeFollows(s: State, id: ClientId, feed: seq<Event>)
    requires id in s.links && TidyLink(s.links[id], id in s.clients) && Follows(s.links[id], id in s.clients, feed)
    ensures Follows(TakeStep(s, id).links[id], id in s.clients, feed)
  {
    var l := s.links[id];
    if l.queue != [] && l.queue[0].Payload? {
      assert Wire(l) + Queued(l.queue) == (Wire(l) + [l.queue[0].event]) + Queued(l.queue[1..]);
    }
  }

  lemma ReturnFollows(s: State, id: ClientId, feed: seq<Event>)
    requires id in s.links && Follows(s.links[id], id in s.clients, feed)
    ensures Follows(DeliverStep(s, id).links[id], id in s.clients, feed)
    ensures Follows(BreakStep(s, id).links[id], id in s.clients, feed)
  {
    var l := s.links[id];
    if l.sender.Sending? {
      assert (l.sent + [l.sender.event]) + [] == Wire(l);
      assert l.sent + [] <= Wire(l);
    }
  }

  lemma StepFollows(s: State, a: Act, id: ClientId, feed: seq<Event>, feed': seq<Event>)
    requires Tidy(s) && id in s.links && Follows(s.links[id], id in s.clients, feed)
    requires feed' == if a.Occur? then feed + [a.event] else feed
    ensures id in Step(s, a).links && Follows(Step(s, a).links[id], id in Step(s, a).clients, feed')
  {
    var l := s.links[id];
    assert TidyLink(l, id in s.clients);
    match a
    case Occur(e, _) => OfferFollows(l, id in s.clients, feed, e);
    case Take(i) => TakeFollows(s, id, feed);
    case Deliver(i) => ReturnFollows(s, id, feed);
    case Break(i) => ReturnFollows(s, id, feed);
    case _ =>
  }

  /** In every reachable state, for every client: what went over its socket is a prefix of what it is owed, without
      gap or repetition; and as long as it is registered and its sender has not failed, sent, in flight and queued
      make up exactly what it is owed. */
  lemma {:induction false} FanOutExact(s: State, acts: seq<Act>, id: ClientId)
    requires Tidy(s) && s.links == map[]
    ensures var t := Exec(s, acts);
            id in t.links ==>
              && t.links[id].sent <= Wire(t.links[id]) <= Feed(s, acts, id)
              && (id in t.clients && !t.links[id].sender.Failed? ==>
                    Wire(t.links[id]) + Queued(t.links[id].queue) == Feed(s, acts, id))
  {
    if acts != [] {
      var init, a := acts[..|acts| - 1], acts[|acts| - 1];
      var before := Exec(s, init);
      FanOutExact(s, init, id);
      ExecTidy(s, init);
      if id in before.links {
        StepFollows(before, a, id, Feed(s, init, id), Feed(s, acts, id));
      } else if a.Register? && a.id == id && !before.closed {
        QueuedPayloads(Snapshot(before.history, before.active, a.now));
      }
    }
  }

  /** The length of the replay that a client was registered with, read off the run. */
  function ReplayLength(s: State, acts: seq<Act>, id: ClientId): nat {
    if acts == [] then 0
    else
      var init := acts[..|acts| - 1];
      var before := Exec(s, init);
      var a := acts[|acts| - 1];
      if a.Register? && a.id == id && id !in before.links && !before.closed
      then |Snapshot(before.history, before.active, a.now)|
      else ReplayLength(s, init, id)
  }

  lemma StepKeepsCap(s: State, a: Act, id: ClientId)
    ensures Step(s, a).maxsize == s.maxsize
    ensures id in s.links ==> id in Step(s, a).links && Step(s, a).links[id].cap == s.links[id].cap
    ensures id !in s.links && id in Step(s, a).links ==>
              && a.Register? && a.id == id && !s.closed
              && Step(s, a).links[id].cap == NewLink(Snapshot(s.history, s.active, a.now), s.maxsize).cap
  {
  }

  /** In every reachable state the three registries agree, and no queue is longer than the larger of the configured
      bound and the client's own replay with one slot to spare. */
  lemma {:induction false} QueuesBounded(s: State, acts: seq<Act>, id: ClientId)
    requires Tidy(s) && s.links == map[]
    ensures var t := Exec(s, acts);
            && t.clients == t.queues == t.senders && t.maxsize == s.maxsize
            && (id in t.links ==>
                  var n := ReplayLength(s, acts, id) + 1;
                  && t.links[id].cap == (if s.maxsize >= n then s.maxsize else n)
                  && |t.links[id].queue| <= t.links[id].cap)
  {
    ExecTidy(s, acts);
    if id in Exec(s, acts).links {
      assert TidyLink(Exec(s, acts).links[id], id in Exec(s, acts).clients);
    }
    if acts != [] {
      QueuesBounded(s, acts[..|acts| - 1], id);
      StepKeepsCap(Exec(s, acts[..|acts| - 1]), acts[|acts| - 1], id);
    }
  }

  /** A client leaves the registries for exactly four reasons: it is detached, its sender has failed, its queue is full
      when an event comes, or the bridge closes. */
  lemma WhyUnregistered(s: State, a: Act, id: ClientId)
    requires Tidy(s) && id in s.clients
    ensures id !in Step(s, a).clients <==>
              || a == Detach(id)
              || (a == SelfDetach(id) && s.links[id].sender.Failed?)
              || (a.Occur? && |s.links[id].queue| == s.links[id].cap)
              || (a == EndClose && s.closed)
  {
    assert TidyLink(s.links[id], true);
  }

  function EventsOf(acts: seq<Act>): seq<Event> {
    if acts == [] then []
    else EventsOf(acts[..|acts| - 1]) + if acts[|acts| - 1].Occur? then [acts[|acts| - 1].event] else []
  }

  lemma TailStep(all: seq<Event>, e: Event)
    ensures Append(LastN(all, MAX_HISTORY), e) == LastN(all + [e], MAX_HISTORY)
  {
  }

  lemma ReplayTail(all: seq<Event>, a: seq<SuperChat>, now: int)
    ensures var replay, tail := Snapshot(LastN(all, MAX_HISTORY), a, now), LastN(all, MAX_SNAPSHOT);
            |replay| >= |tail| && replay[|replay| - |tail|..] == tail
  {
    assert Recent(LastN(all, MAX_HISTORY)) == LastN(all, MAX_SNAPSHOT);
  }

  lemma StepHistory(s: State, a: Act)
    ensures Step(s, a).history == if a.Occur? then Append(s.history, a.event) else s.history
  {
  }

  /** The history is always the last 100 events, and a replay ends with the last 50 of all. */
  lemma {:induction false} HistoryIsTail(l: seq<SuperChat>, boot: int, maxsize: nat, acts: seq<Act>, now: int)
    ensures var t := Exec(Init(l, boot, maxsize), acts);
            var replay := Snapshot(t.history, t.active, now);
            var tail := LastN(EventsOf(acts), 50);
            && t.history == LastN(EventsOf(acts), 100)
            && |replay| >= |tail| && replay[|replay| - |tail|..] == tail
  {
    if acts != [] {
      var init, a := acts[..|acts| - 1], acts[|acts| - 1];
      HistoryIsTail(l, boot, maxsize, init, now);
      StepHistory(Exec(Init(l, boot, maxsize), init), a);
      if a.Occur? {
        TailStep(EventsOf(init), a.event);
      }
    }
    ReplayTail(EventsOf(acts), Exec(Init(l, boot, maxsize), acts).active, now);
  }

  lemma {:induction false} ActiveUnique(l: seq<SuperChat>, boot: int, maxsize: nat, acts: seq<Act>)
    ensures var a := Exec(Init(l, boot, maxsize), acts).active; Unique(a) && Lookup(a, "") == None
  {
    if acts == [] {
      NewStoreFaithful(l, boot);
    } else {
      var init, act := acts[..|acts| - 1], acts[|acts| - 1];
      var before := Exec(Init(l, boot, maxsize), init);
      ActiveUnique(l, boot, maxsize, init);
      match act {
        case Register(_, now) => PruneFacts(before.active, now);
        case Occur(e, now) => RememberFacts(before.active, e, now);
        case _ =>
      }
    }
  }

  /** Whenever an event or a registration comes, what is over is forgotten. */
  lemma ActiveFresh(l: seq<SuperChat>, boot: int, maxsize: nat, acts: seq<Act>, a: Act, r: SuperChat)
    requires a.Occur? || (a.Register? && !Exec(Init(l, boot, maxsize), acts).closed
                          && a.id !in Exec(Init(l, boot, maxsize), acts).links)
    requires r in Step(Exec(Init(l, boot, maxsize), acts), a).active
    ensures r.info.endTs > a.now
  {
    ActiveUnique(l, boot, maxsize, acts);
    var t := Exec(Init(l, boot, maxsize), acts);
    PruneFacts(t.active, a.now);
    var after := Step(t, a).active;
    if a.Occur? {
      RememberFacts(t.active, a.event, a.now);
    }
    var i :| 0 <= i < |after| && after[i] == r;
    MapAt(after, i);
    assert Lookup(after, r.key) == Some(r.info);
  }

  /** Over any run: what is queued for a new client is the last 50 of all events, each once and in their order, and in
      front of them exactly the active super chats that are not over and that those events do not have, each once and in
      the order in which the bridge keeps them. */
  lemma ReplayContents(l: seq<SuperChat>, boot: int, maxsize: nat, acts: seq<Act>, id: ClientId, now: int)
    returns (rows: seq<SuperChat>, at: seq<nat>)
    requires var t := Exec(Init(l, boot, maxsize), acts); id !in t.links && !t.closed
    ensures var t := Exec(Init(l, boot, maxsize), acts);
            var all := EventsOf(acts);
            var tail := all[if |all| <= 50 then 0 else |all| - 50..];
            && id in Step(t, Register(id, now)).links
            && Queued(Step(t, Register(id, now)).links[id].queue) == Cards(rows) + tail
            && InOrder(rows, t.active, at)
            && (forall r :: r in rows <==> r in t.active && r.info.endTs > now && !HasSc(tail, r.key))
            && Unique(rows)
  {
    var t := Exec(Init(l, boot, maxsize), acts);
    var all := EventsOf(acts);
    ActiveUnique(l, boot, maxsize, acts);
    HistoryIsTail(l, boot, maxsize, acts, now);
    MapKeys(t.active);
    rows, at := ReplayHolds(t.history, t.active, now);
    TailOfTail(all, t.history);
    QueuedPayloads(Snapshot(t.history, t.active, now));
    InOrderUnique(rows, t.active, at);
  }

  lemma TailOfTail(all: seq<Event>, h: seq<Event>)
    requires h == LastN(all, MAX_HISTORY)
    ensures h[if |h| <= 50 then 0 else |h| - 50..] == all[if |all| <= 50 then 0 else |all| - 50..]
  {
  }

  lemma InOrderUnique(rows: seq<SuperChat>, a: seq<SuperChat>, at: seq<nat>)
    requires Unique(a) && InOrder(rows, a, at)
    ensures Unique(rows)
  {
    forall i, j | 0 <= i < j < |rows| ensures rows[i].key != rows[j].key {
      assert at[i] < at[j] && a[at[i]] == rows[i] && a[at[j]] == rows[j];
    }
  }

  /** The registered client's sender, left alone, sends all that is queued, in order, and then waits. */
  function Rounds(id: ClientId, n: nat): seq<Act> {
    if n == 0 then [] else Rounds(id, n - 1) + [Take(id), Deliver(id)]
  }

  lemma ExecTwo(s: State, acts: seq<Act>, a: Act, b: Act)
    ensures Exec(s, acts + [a, b]) == Step(Step(Exec(s, acts), a), b)
  {
    assert (acts + [a, b])[..|acts| + 1] == acts + [a] && (acts + [a])[..|acts|] == acts;
  }

  lemma QueueSplit(q: seq<Item>, n: nat)
    requires 0 < n <= |q| && q[n - 1].Payload?
    ensures q[n - 1..][0] == q[n - 1] && q[n - 1..][1..] == q[n..]
    ensures Queued(q[..n]) == Queued(q[..n - 1]) + [q[n - 1].event]
  {
    assert q[..n] == q[..n - 1] + [q[n - 1]];
    QueuedConcat(q[..n - 1], [q[n - 1]]);
    assert [q[n - 1]][1..] == [];
  }

  lemma RoundOnce(t: State, id: ClientId)
    requires id in t.links && t.links[id].sender.Idle? && t.links[id].queue != [] && t.links[id].queue[0].Payload?
    ensures var u, l := Step(Step(t, Take(id)), Deliver(id)), t.links[id];
            && u.clients == t.clients && id in u.links
            && u.links[id] == l.(queue := l.queue[1..], sent := l.sent + [l.queue[0].event])
  {
  }

  lemma {:induction false} SenderDrains(s: State, id: ClientId, n: nat)
    requires Tidy(s) && id in s.clients && s.links[id].sender.Idle? && n <= |s.links[id].queue|
    ensures var t := Exec(s, Rounds(id, n));
            && id in t.links && id in t.clients && t.links[id].sender.Idle?
            && t.links[id].queue == s.links[id].queue[n..]
            && t.links[id].sent == s.links[id].sent + Queued(s.links[id].queue[..n])
    decreases n
  {
    var q := s.links[id].queue;
    if n == 0 {
      assert q[0..] == q && q[..0] == [];
    } else {
      SenderDrains(s, id, n - 1);
      ExecTwo(s, Rounds(id, n - 1), Take(id), Deliver(id));
      assert TidyLink(s.links[id], true);
      QueueSplit(q, n);
      RoundOnce(Exec(s, Rounds(id, n - 1)), id);
      FeedSnoc(s.links[id].sent, Queued(q[..n - 1]), [q[n - 1].event]);
    }
  }

  // -------- nobody depends on how anybody else's sender fares

  function Concerns(a: Act, id: ClientId): bool {
    match a
    case Take(i) => i == id
    case Deliver(i) => i == id
    case Break(i) => i == id
    case SelfDetach(i) => i == id
    case Detach(i) => i == id
    case _ => true
  }

  /** The same run, with every step of another client's sender and every other detachment left out. */
  function Only(acts: seq<Act>, id: ClientId): seq<Act> {
    if acts == [] then []
    else
      var init := Only(acts[..|acts| - 1], id);
      if Concerns(acts[|acts| - 1], id) then init + [acts[|acts| - 1]] else init
  }

  ghost predicate SameFor(s: State, t: State, id: ClientId) {
    && s.history == t.history && s.active == t.active && s.closed == t.closed && s.maxsize == t.maxsize
    && s.links.Keys == t.links.Keys
    && (id in s.clients <==> id in t.clients) && (id in s.queues <==> id in t.queues)
    && (id in s.senders <==> id in t.senders)
    && (id in s.links ==> s.links[id] == t.links[id])
  }

  lemma StepElsewhere(s: State, a: Act, id: ClientId)
    requires !Concerns(a, id)
    ensures SameFor(Step(s, a), s, id)
  {
  }

  lemma StepHere(s: State, t: State, a: Act, id: ClientId)
    requires SameFor(s, t, id) && Concerns(a, id)
    ensures SameFor(Step(s, a), Step(t, a), id)
  {
    match a
    case Register(_, _) =>
    case Occur(_, _) =>
    case _ =>
  }

  lemma StepSame(s: State, t: State, a: Act, id: ClientId)
    requires SameFor(s, t, id)
    ensures if Concerns(a, id) then SameFor(Step(s, a), Step(t, a), id) else SameFor(Step(s, a), t, id)
  {
    if Concerns(a, id) {
      StepHere(s, t, a, id);
    } else {
      StepElsewhere(s, a, id);
    }
  }

  /** What a client is sent, and when it is dropped, does not depend on the other clients' senders, failures or
      detachments: a slow or broken browser never holds up another. */
  lemma {:induction false} Isolation(s: State, acts: seq<Act>, id: ClientId)
    ensures SameFor(Exec(s, acts), Exec(s, Only(acts, id)), id)
  {
    if acts != [] {
      var init, a := acts[..|acts| - 1], acts[|acts| - 1];
      Isolation(s, init, id);
      StepSame(Exec(s, init), Exec(s, Only(init, id)), a, id);
      if Concerns(a, id) {
        assert Only(acts, id)[..|Only(acts, id)| - 1] == Only(init, id);
      }
    }
  }

  // -------- shutting down

  ghost predicate Ends(l: Link, m: Link) {
    && l.sent <= m.sent && Wire(m) <= Wire(l)
    && (m.queue == l.queue || m.queue == [])
  }

  /** Once unregistered, a sender sends at most what it has in flight, nothing is put into its queue any more,
      and the client never comes back, whatever happens afterwards. */
  lemma {:induction false} StoppedSender(s: State, acts: seq<Act>, id: ClientId)
    requires Tidy(s) && id in s.links && id !in s.clients
    ensures var t := Exec(s, acts);
            && id in t.links && id !in t.clients
            && s.links[id].sent <= t.links[id].sent <= Wire(s.links[id])
            && |t.links[id].sent| <= |s.links[id].sent| + 1
            && (t.links[id].queue == s.links[id].queue || t.links[id].queue == [])
  {
    StoppedSenderEnds(s, acts, id);
  }

  lemma StepEnds(l: Link, t: State, a: Act, id: ClientId)
    requires Tidy(t) && id in t.links && id !in t.clients && Ends(l, t.links[id])
    ensures var u := Step(t, a); id in u.links && id !in u.clients && Ends(l, u.links[id])
  {
    var m := t.links[id];
    assert TidyLink(m, false);
    match a
    case Take(i) =>
      assert m.sender.Idle? ==> m.queue == [Stop];
    case Deliver(i) =>
      assert m.sender.Sending? ==> (m.sent + [m.sender.event]) + [] == Wire(m);
    case Break(i) =>
      assert m.sender.Sending? ==> m.sent + [] <= Wire(m);
    case _ =>
  }

  lemma {:induction false} StoppedSenderEnds(s: State, acts: seq<Act>, id: ClientId)
    requires Tidy(s) && id in s.links && id !in s.clients
    ensures var t := Exec(s, acts); Tidy(t) && id in t.links && id !in t.clients && Ends(s.links[id], t.links[id])
  {
    ExecTidy(s, acts);
    if acts != [] {
      var init := acts[..|acts| - 1];
      StoppedSenderEnds(s, init, id);
      StepEnds(s.links[id], Exec(s, init), acts[|acts| - 1], id);
    }
  }

  /** After close has begun no client registers; after it has ended none is registered, and every sender that has not
      failed has ended or finds the sentinel as the one thing in its queue. */
  lemma {:induction false} ClosedForGood(s: State, acts: seq<Act>)
    requires Tidy(s) && s.closed
    ensures var t := Exec(s, acts);
            && t.closed && t.links.Keys == s.links.Keys && t.clients <= s.clients
            && (EndClose in acts ==> t.clients == t.queues == t.senders == {})
            && (EndClose in acts ==> forall id :: id in t.links && !t.links[id].sender.Failed? ==>
                  (if t.links[id].sender.Finished? then t.links[id].queue == [] else t.links[id].queue == [Stop]))
  {
    if acts != [] {
      var init, a := acts[..|acts| - 1], acts[|acts| - 1];
      ClosedForGood(s, init);
      assert acts == init + [a];
    }
    ExecTidy(s, acts);
    var t := Exec(s, acts);
    if EndClose in acts {
      assert t.clients == {};
      forall id | id in t.links && !t.links[id].sender.Failed?
        ensures if t.links[id].sender.Finished? then t.links[id].queue == [] else t.links[id].queue == [Stop]
      {
        assert TidyLink(t.links[id], id in t.clients);
      }
    }
  }

  // -------- what a new client is sent converges

  /** What one step does to the replay state. */
  function Effect(s: State, a: Act): seq<Happening> {
    match a
    case Occur(e, now) => [Arrives(e, now)]
    case Register(id, now) => if id in s.links || s.closed then [] else [Joins(now)]
    case _ => []
  }

  /** The events of a run, and its registrations that take effect. */
  function Happenings(s: State, acts: seq<Act>): seq<Happening> {
    if acts == [] then []
    else Happenings(s, acts[..|acts| - 1]) + Effect(Exec(s, acts[..|acts| - 1]), acts[|acts| - 1])
  }

  lemma AfterEffect(st: Store, h: seq<Happening>, s: State, a: Act)
    requires After(st, h).history == s.history && After(st, h).active == s.active
    ensures var u := After(st, h + Effect(s, a));
            u.history == Step(s, a).history && u.active == Step(s, a).active
  {
    if Effect(s, a) == [] {
      assert h + [] == h;
    } else {
      var x := Effect(s, a)[0];
      assert h + [x] == h + Effect(s, a) && (h + [x])[..|h|] == h;
      assert After(st, h + [x]) == Next(After(st, h), x);
    }
  }

  lemma {:induction false} ReplayState(l: seq<SuperChat>, boot: int, maxsize: nat, acts: seq<Act>)
    ensures var s := Init(l, boot, maxsize);
            var t, u := Exec(s, acts), After(NewStore(l, boot), Happenings(s, acts));
            t.history == u.history && t.active == u.active
  {
    if acts != [] {
      var s := Init(l, boot, maxsize);
      var init := acts[..|acts| - 1];
      ReplayState(l, boot, maxsize, init);
      AfterEffect(NewStore(l, boot), Happenings(s, init), Exec(s, init), acts[|acts| - 1]);
    }
  }

  /** On a clock that never goes back and with super chats that meet the guard, whoever registers at any point of any
      run is queued a replay from which its browser shows exactly the super chats that are not over. */
  lemma NewClientsConverge(l: seq<SuperChat>, boot: int, maxsize: nat, acts: seq<Act>, id: ClientId, now: int, ms: int)
    requires var s := Init(l, boot, maxsize);
             var run := Happenings(s, acts);
             && maxsize > 0
             && Monotone(boot, run) && AllCoherent(NewStore(l, boot), run)
             && now >= After(NewStore(l, boot), run).clock && ms >= 1000 * now
             && id !in Exec(s, acts).links && !Exec(s, acts).closed
    ensures var t := Exec(Init(l, boot, maxsize), acts);
            var link := Step(t, Register(id, now)).links[id];
            var cards := Fold(Queued(link.queue), ms);
            Unique(cards) && forall k :: Lookup(cards, k) == LiveAt(Lookup(t.active, k), ms)
  {
    var s := Init(l, boot, maxsize);
    var run := Happenings(s, acts);
    var t := Exec(s, acts);
    ReplayState(l, boot, maxsize, acts);
    LateJoinersConverge(l, boot, run);
    assert run[..|run|] == run && JoinersConvergeAt(NewStore(l, boot), run, |run|);
    var u := After(NewStore(l, boot), run);
    assert Converges(u.history, u.active, now, ms);
    QueuedPayloads(Snapshot(t.history, t.active, now));
  }

  lemma GrowSlices(h: seq<Happening>, more: seq<Happening>, i: nat)
    requires i <= |h|
    ensures (h + more)[..i] == h[..i] && (h + more)[i..] == h[i..] + more
  {
  }

  lemma ArrivedGrow(tail: seq<Happening>, s: State, a: Act)
    ensures Arrived(tail + Effect(s, a)) == Arrived(tail) + if a.Occur? then [a.event] else []
  {
    var effect := Effect(s, a);
    if effect == [] {
      assert tail + effect == tail;
    } else {
      assert (tail + effect)[..|tail|] == tail;
    }
  }

  lemma FeedSnoc(a: seq<Event>, b: seq<Event>, c: seq<Event>)
    ensures (a + b) + c == a + (b + c)
  {
  }

  /** The client joins with the i-th happening: it is owed the replay of that moment, and every later event. */
  ghost predicate JoinsAt(l: seq<SuperChat>, boot: int, feed: seq<Event>, run: seq<Happening>, i: nat) {
    && i < |run| && run[i].Joins?
    && var u := After(NewStore(l, boot), run[..i]);
       feed == Snapshot(u.history, u.active, run[i].now) + Arrived(run[i..])
  }

  lemma JoinedBefore(l: seq<SuperChat>, boot: int, feed: seq<Event>, run: seq<Happening>, i: nat, s: State, a: Act)
    requires JoinsAt(l, boot, feed, run, i)
    ensures JoinsAt(l, boot, feed + if a.Occur? then [a.event] else [], run + Effect(s, a), i)
  {
    var u := After(NewStore(l, boot), run[..i]);
    GrowSlices(run, Effect(s, a), i);
    ArrivedGrow(run[i..], s, a);
    FeedSnoc(Snapshot(u.history, u.active, run[i].now), Arrived(run[i..]), if a.Occur? then [a.event] else []);
  }

  lemma JoinedNow(l: seq<SuperChat>, boot: int, run: seq<Happening>, now: int)
    ensures var u := After(NewStore(l, boot), run);
            JoinsAt(l, boot, Snapshot(u.history, u.active, now), run + [Joins(now)], |run|)
  {
    var next := run + [Joins(now)];
    assert next[..|run|] == run && next[|run|..] == [Joins(now)] && [Joins(now)][..0] == [];
    var u := After(NewStore(l, boot), run);
    assert Snapshot(u.history, u.active, now) + [] == Snapshot(u.history, u.active, now);
  }

  /** Every client that was ever registered joined at some point of the run. */
  lemma {:induction false} JoinPoint(l: seq<SuperChat>, boot: int, maxsize: nat, acts: seq<Act>, id: ClientId)
    returns (i: nat)
    requires id in Exec(Init(l, boot, maxsize), acts).links
    ensures var s := Init(l, boot, maxsize); JoinsAt(l, boot, Feed(s, acts, id), Happenings(s, acts), i)
  {
    var s := Init(l, boot, maxsize);
    var init, a := acts[..|acts| - 1], acts[|acts| - 1];
    var before := Exec(s, init);
    if id in before.links {
      i := JoinPoint(l, boot, maxsize, init, id);
      JoinedBefore(l, boot, Feed(s, init, id), Happenings(s, init), i, before, a);
      FeedNext(s, acts, id);
    } else {
      i := |Happenings(s, init)|;
      StepKeepsCap(before, a, id);
      ReplayState(l, boot, maxsize, init);
      JoinedNow(l, boot, Happenings(s, init), a.now);
    }
  }

  lemma FeedNext(s: State, acts: seq<Act>, id: ClientId)
    requires acts != [] && id in Exec(s, acts[..|acts| - 1]).links
    ensures Feed(s, acts, id)
         == Feed(s, acts[..|acts| - 1], id) + if acts[|acts| - 1].Occur? then [acts[|acts| - 1].event] else []
  {
  }

  /** On a clock that never goes back and with super chats that meet the guard, the client is registered and was sent
      everything, and its browser has heard it all by `ms`, however late, with timers that went off in between. */
  ghost predicate CaughtUp(
    l: seq<SuperChat>, boot: int, maxsize: nat, acts: seq<Act>, id: ClientId, seen: seq<Seen>, ms: int)
  {
    var s := Init(l, boot, maxsize);
    var t, run := Exec(s, acts), Happenings(s, acts);
    && maxsize > 0
    && Monotone(boot, run) && AllCoherent(NewStore(l, boot), run) && Past(run, ms)
    && id in t.clients && id in t.links && t.links[id].sender.Idle? && t.links[id].queue == []
    && HeardOf(seen) == t.links[id].sent && SeenBy(seen, ms)
  }

  /** The replay that the client was registered with, and the later events, cover the cards that its browser had. */
  ghost predicate CoveredAt(
    l: seq<SuperChat>, boot: int, cards: seq<SuperChat>, run: seq<Happening>, i: nat, ms: int)
    requires i < |run|
  {
    var u := After(NewStore(l, boot), run[..i]);
    Covered(cards, u.history, u.active, Arrived(run[i..]), run[i].now, ms)
  }

  /** A browser that has caught up shows exactly the bridge's super chats that are not over, if and only if the cards
      that it had when it joined are covered; a browser that joined without any always does. */
  lemma ConnectedClientsConverge(l: seq<SuperChat>, boot: int, maxsize: nat, acts: seq<Act>, id: ClientId,
                                 cards: seq<SuperChat>, seen: seq<Seen>, ms: int) returns (i: nat)
    requires CaughtUp(l, boot, maxsize, acts, id, seen, ms) && Unique(cards)
    ensures var s := Init(l, boot, maxsize);
            var t, run := Exec(s, acts), Happenings(s, acts);
            && JoinsAt(l, boot, Feed(s, acts, id), run, i)
            && Unique(Watch(cards, seen))
            && (Agrees(Watch(cards, seen), t.active, ms) <==> CoveredAt(l, boot, cards, run, i, ms))
            && (cards == [] ==> Agrees(Watch(cards, seen), t.active, ms))
  {
    var s := Init(l, boot, maxsize);
    var t, run := Exec(s, acts), Happenings(s, acts);
    FanOutExact(s, acts, id);
    assert t.links[id].sent + [] + [] == t.links[id].sent;
    i := JoinPoint(l, boot, maxsize, acts, id);
    JoinerStaysInStep(l, boot, run, i, cards, seen, ms);
    ReplayState(l, boot, maxsize, acts);
  }

  /** With its cap of 20 such a browser never shows anything else, and it shows all of them if there were never more
      than 20. */
  lemma CappedClientsConverge(l: seq<SuperChat>, boot: int, maxsize: nat, acts: seq<Act>, id: ClientId,
                              cards: seq<SuperChat>, seen: seq<Seen>, ms: int) returns (i: nat)
    requires CaughtUp(l, boot, maxsize, acts, id, seen, ms) && Unique(cards) && |cards| <= ChatStore.SC_CAP
    ensures var s := Init(l, boot, maxsize);
            var run := Happenings(s, acts);
            var shown, active := ChatStore.WatchCapped(cards, seen), Exec(s, acts).active;
            && JoinsAt(l, boot, Feed(s, acts, id), run, i)
            && (cards == [] || CoveredAt(l, boot, cards, run, i, ms) ==>
                  && (forall k :: LiveAt(Lookup(shown, k), ms).Some? ==>
                        LiveAt(Lookup(shown, k), ms) == LiveAt(Lookup(active, k), ms))
                  && ((forall n :: 0 <= n <= |seen| ==> ChatStore.RoomUpTo(cards, seen, n)) ==>
                        Agrees(shown, active, ms)))
  {
    i := ConnectedClientsConverge(l, boot, maxsize, acts, id, cards, seen, ms);
    ChatStore.CapOnlyHides(cards, seen);
    if forall n :: 0 <= n <= |seen| ==> ChatStore.RoomUpTo(cards, seen, n) {
      ChatStore.CapUnnoticed(cards, seen);
      assert ChatStore.SameUpTo(cards, seen, |seen|) && seen[..|seen|] == seen;
    }
  }
}
