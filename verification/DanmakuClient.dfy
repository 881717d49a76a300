/** The live-socket client: its buffer counters and its reconnect loop. */
module DanmakuClient {
  import opened OrderedDict
  import opened MessageBuffer

  // ---------------------------------------------------------------- counters

  function Tally<K>(m: map<K, nat>, k: K): nat { if k in m then m[k] else 0 }

  datatype Metrics = Metrics(
    enqueued: nat, processed: nat, dropped: nat, queuePeak: nat,
    byPriority: map<Priority, nat>, byCommand: map<string, nat>)

  const NO_METRICS := Metrics(0, 0, 0, 0, map[], map[])

  /** The metrics after a drop. */
  function Dropped(c: Metrics, m: Message): Metrics {
    c.(dropped := c.dropped + 1,
       byPriority := c.byPriority[m.priority := Tally(c.byPriority, m.priority) + 1],
       byCommand := c.byCommand[CommandName(m.payload) := Tally(c.byCommand, CommandName(m.payload)) + 1])
  }

  /** The metrics that `_enqueue`, `_record_drop` and `_process_queue` keep, between start and stop. */
  class Client {
    const buffer: PriorityMessageBuffer
    var metrics: Metrics
    ghost var ops: seq<Op>  // every put and get since start

    ghost predicate Valid()
      reads this, buffer
    {
      && buffer.Valid()
      && Tracks(buffer.maxsize, ops, buffer.queues, metrics)
      && buffer.size <= metrics.queuePeak <= buffer.maxsize
    }

    constructor (maxsize: nat)
      requires maxsize > 0
      ensures Valid() && fresh(buffer) && ops == [] && metrics == NO_METRICS && buffer.maxsize == maxsize
    {
      buffer := new PriorityMessageBuffer(maxsize);
      metrics, ops := NO_METRICS, [];
    }

    method Enqueue(payload: Payload, time: real)
      requires Valid()
      modifies this, buffer
      ensures Valid() && ops == old(ops) + [Put(Message(payload, Classify(payload), time))]
      ensures metrics.queuePeak
           == if buffer.size > old(metrics.queuePeak) then buffer.size else old(metrics.queuePeak)
    {
      ghost var m := Message(payload, Classify(payload), time);
      TracksPut(buffer.maxsize, ops, buffer.queues, m, metrics);
      var result := buffer.PutNowait(payload, time);
      ops := ops + [Put(m)];
      if result.accepted {
        metrics := metrics.(enqueued := metrics.enqueued + 1);
      }
      if result.dropped.Some? {
        metrics := Dropped(metrics, result.dropped.value);
      }
      if result.accepted && metrics.queuePeak < buffer.size {
        ghost var before := metrics;
        metrics := metrics.(queuePeak := buffer.size);
        PeakUncounted(buffer.maxsize, ops, buffer.queues, before, buffer.size);
      }
    }

    /** One attempt of the consumer. */
    method ProcessOne() returns (item: Option<Message>)
      requires Valid()
      modifies this, buffer
      ensures Valid() && ops == old(ops) + [Get]
      ensures item == GetStep(old(buffer.queues)).1 && metrics.queuePeak == old(metrics.queuePeak)
    {
      TracksGet(buffer.maxsize, ops, buffer.queues, metrics);
      item := buffer.Get();
      ops := ops + [Get];
      if item.Some? {
        metrics := metrics.(processed := metrics.processed + 1);
      }
    }
  }

  function CountIf(fs: seq<Fate>, p: Fate -> bool): nat {
    if fs == [] then 0 else (if p(fs[0]) then 1 else 0) + CountIf(fs[1..], p)
  }

  const IsDelivered: Fate -> bool := (f: Fate) => f.Delivered?
  const IsEvicted: Fate -> bool := (f: Fate) => f.Evicted?
  const IsRejected: Fate -> bool := (f: Fate) => f.Rejected?
  const IsDrop: Fate -> bool := (f: Fate) => f.Evicted? || f.Rejected?

  function DropOf(p: Priority): Fate -> bool { (f: Fate) => IsDrop(f) && f.m.priority == p }

  function DropNamed(c: string): Fate -> bool { (f: Fate) => IsDrop(f) && CommandName(f.m.payload) == c }

  /** The buffer is what the puts and gets since start made of it, and the counters say what became of the messages:
      accepted, delivered, dropped, and dropped by priority and by command. */
  ghost predicate Tracks(max: nat, ops: seq<Op>, queues: Lanes, c: Metrics) {
    && (forall op :: op in ops ==> !op.Clear?)
    && Run(EMPTY, max, ops).lanes == queues
    && c.enqueued == |Accepted(EMPTY, max, ops)|
    && Counts(Run(EMPTY, max, ops).fates, c)
  }

  ghost predicate Counts(fates: seq<Fate>, c: Metrics) {
    && c.processed == CountIf(fates, IsDelivered)
    && c.dropped == CountIf(fates, IsDrop)
    && (forall p: Priority :: Tally(c.byPriority, p) == CountIf(fates, DropOf(p)))
    && (forall name :: Tally(c.byCommand, name) == CountIf(fates, DropNamed(name)))
  }

  /** What a put does to the counters. */
  function PutCounters(c: Metrics, r: PutResult): Metrics {
    var counted := if r.accepted then c.(enqueued := c.enqueued + 1) else c;
    if r.dropped.Some? then Dropped(counted, r.dropped.value) else counted
  }

  function PutFates(r: PutResult): seq<Fate> {
    if r.dropped.None? then [] else if r.accepted then [Evicted(r.dropped.value)] else [Rejected(r.dropped.value)]
  }

  lemma CountPut(fates: seq<Fate>, r: PutResult, c: Metrics)
    requires Counts(fates, c)
    ensures Counts(fates + PutFates(r), PutCounters(c, r))
  {
    var counted := if r.accepted then c.(enqueued := c.enqueued + 1) else c;
    assert Counts(fates, counted);
    if r.dropped.Some? {
      CountOne(fates, PutFates(r)[0], counted);
    } else {
      assert fates + [] == fates;
    }
  }

  lemma TracksPut(max: nat, ops: seq<Op>, queues: Lanes, m: Message, c: Metrics)
    requires Tracks(max, ops, queues, c)
    ensures Tracks(max, ops + [Put(m)], PutStep(queues, max, m).0, PutCounters(c, PutStep(queues, max, m).1))
  {
    var r := PutStep(queues, max, m).1;
    RunSnoc(EMPTY, max, ops, Put(m));
    CountPut(Run(EMPTY, max, ops).fates, r, c);
    assert Step(queues, max, Put(m)).fates == PutFates(r);
    assert |Entered(queues, max, Put(m))| == if r.accepted then 1 else 0;
  }

  lemma PeakUncounted(max: nat, ops: seq<Op>, queues: Lanes, c: Metrics, peak: nat)
    requires Tracks(max, ops, queues, c)
    ensures Tracks(max, ops, queues, c.(queuePeak := peak))
  {
  }

  lemma TracksGet(max: nat, ops: seq<Op>, queues: Lanes, c: Metrics)
    requires Tracks(max, ops, queues, c)
    ensures var (next, item) := GetStep(queues);
            Tracks(max, ops + [Get], next, if item.Some? then c.(processed := c.processed + 1) else c)
  {
    var fates := Run(EMPTY, max, ops).fates;
    var item := GetStep(queues).1;
    RunSnoc(EMPTY, max, ops, Get);
    if item.Some? {
      CountOne(fates, Delivered(item.value), c);
    } else {
      assert fates + [] == fates;
    }
  }

  lemma {:induction false} CountConcat(a: seq<Fate>, b: seq<Fate>, p: Fate -> bool)
    ensures CountIf(a + b, p) == CountIf(a, p) + CountIf(b, p)
  {
    if a == [] {
      assert a + b == b;
    } else {
      assert (a + b)[1..] == a[1..] + b;
      CountConcat(a[1..], b, p);
    }
  }

  lemma CountSnoc(a: seq<Fate>, f: Fate, p: Fate -> bool)
    ensures CountIf(a + [f], p) == CountIf(a, p) + if p(f) then 1 else 0
  {
    CountConcat(a, [f], p);
  }

  lemma CountOne(a: seq<Fate>, f: Fate, c: Metrics)
    requires Counts(a, c) && !f.Cleared?
    ensures Counts(a + [f], if f.Delivered? then c.(processed := c.processed + 1) else Dropped(c, f.m))
  {
    CountSnoc(a, f, IsDelivered);
    CountSnoc(a, f, IsDrop);
    forall p: Priority ensures
        CountIf(a + [f], DropOf(p)) == CountIf(a, DropOf(p)) + if IsDrop(f) && f.m.priority == p then 1 else 0 {
      CountSnoc(a, f, DropOf(p));
    }
    forall name ensures
        CountIf(a + [f], DropNamed(name))
        == CountIf(a, DropNamed(name)) + if IsDrop(f) && CommandName(f.m.payload) == name then 1 else 0 {
      CountSnoc(a, f, DropNamed(name));
    }
  }

  lemma {:induction false} RunSnoc(l: Lanes, max: nat, ops: seq<Op>, op: Op)
    ensures var before := Run(l, max, ops);
            var last := Step(before.lanes, max, op);
            && Run(l, max, ops + [op]) == Outcome(last.lanes, before.fates + last.fates)
            && Accepted(l, max, ops + [op]) == Accepted(l, max, ops) + Entered(before.lanes, max, op)
    decreases ops
  {
    if ops == [] {
      var last := Step(l, max, op);
      assert [op][1..] == [] && ([] + [op]) == [op];
      assert Run(last.lanes, max, []) == Outcome(last.lanes, []);
      assert last.fates + [] == last.fates && [] + last.fates == last.fates;
      assert Entered(l, max, op) + [] == Entered(l, max, op) && [] + Entered(l, max, op) == Entered(l, max, op);
    } else {
      var first := Step(l, max, ops[0]);
      assert (ops + [op])[1..] == ops[1..] + [op];
      RunSnoc(first.lanes, max, ops[1..], op);
      var rest := Run(first.lanes, max, ops[1..]);
      var last := Step(rest.lanes, max, op);
      assert (first.fates + rest.fates) + last.fates == first.fates + (rest.fates + last.fates);
      var a, b, c := Entered(l, max, ops[0]), Accepted(first.lanes, max, ops[1..]), Entered(rest.lanes, max, op);
      assert (a + b) + c == a + (b + c);
    }
  }

  /** As long as the buffer is not cleared: enqueued = processed + evicted + depth. */
  lemma {:induction false} CountersBalance(l: Lanes, max: nat, ops: seq<Op>)
    requires Fits(l, max) && forall op :: op in ops ==> !op.Clear?
    ensures Size(l) + |Accepted(l, max, ops)|
         == CountIf(Run(l, max, ops).fates, IsDelivered) + CountIf(Run(l, max, ops).fates, IsEvicted)
            + Size(Run(l, max, ops).lanes)
    decreases ops
  {
    if ops != [] {
      assert ops[0] in ops && forall op :: op in ops[1..] ==> op in ops;
      var first := Step(l, max, ops[0]);
      StepFits(l, max, ops[0]);
      CountersBalance(first.lanes, max, ops[1..]);
      CountConcat(first.fates, Run(first.lanes, max, ops[1..]).fates, IsDelivered);
      CountConcat(first.fates, Run(first.lanes, max, ops[1..]).fates, IsEvicted);
      StepBalance(l, max, ops[0]);
    }
  }

  /** The client's own counters: enqueued = processed + evicted + depth, and what was dropped was evicted or
      rejected. */
  lemma ClientBalance(c: Client)
    requires c.Valid()
    ensures var fates := Run(EMPTY, c.buffer.maxsize, c.ops).fates;
            && c.metrics.enqueued == c.metrics.processed + CountIf(fates, IsEvicted) + c.buffer.size
            && c.metrics.dropped == CountIf(fates, IsEvicted) + CountIf(fates, IsRejected)
  {
    CountersBalance(EMPTY, c.buffer.maxsize, c.ops);
    DropSplit(Run(EMPTY, c.buffer.maxsize, c.ops).fates);
  }

  lemma {:induction false} DropSplit(fs: seq<Fate>)
    ensures CountIf(fs, IsDrop) == CountIf(fs, IsEvicted) + CountIf(fs, IsRejected)
  {
    if fs != [] {
      DropSplit(fs[1..]);
    }
  }

  lemma StepBalance(l: Lanes, max: nat, op: Op)
    requires Fits(l, max) && !op.Clear?
    ensures var t := Step(l, max, op);
            Size(l) + |Entered(l, max, op)|
            == CountIf(t.fates, IsDelivered) + CountIf(t.fates, IsEvicted) + Size(t.lanes)
  {
    var t := Step(l, max, op);
    assert |t.fates| <= 1;
    if t.fates != [] {
      assert t.fates[1..] == [];
      assert CountIf(t.fates, IsDelivered) == if t.fates[0].Delivered? then 1 else 0;
      assert CountIf(t.fates, IsEvicted) == if t.fates[0].Evicted? then 1 else 0;
    }
  }

  // ---------------------------------------------------------------- the reconnect loop

  /** How one turn of the loop went. `alive` says whether the client is still running when it is over. */
  datatype Turn =
    | ConnectFailed(alive: bool)
    | AuthLost(alive: bool)
    | AuthRejected
    | Session(alive: bool)

  function IsAlive(t: Turn): bool { t.AuthRejected? || t.alive }

  function Sessions(turns: seq<Turn>): nat {
    if turns == [] then 0 else (if turns[|turns| - 1].Session? then 1 else 0) + Sessions(turns[..|turns| - 1])
  }

  /** The length of the trailing streak of turns since the last session, which counts as one. */
  function Attempts(turns: seq<Turn>): nat {
    if turns == [] then 0
    else if turns[|turns| - 1].Session? then 1
    else 1 + Attempts(turns[..|turns| - 1])
  }

  /** If no proper prefix has used up the attempts, the number of turns is bounded by the sessions among them. */
  lemma {:induction false} StreakBound(turns: seq<Turn>, max: nat)
    requires max > 0 && forall j :: 0 <= j < |turns| ==> Attempts(turns[..j]) < max
    ensures |turns| <= (max - 1) * Sessions(turns) + Attempts(turns)
    ensures Attempts(turns) <= max
  {
    if turns != [] {
      var init := turns[..|turns| - 1];
      forall j | 0 <= j < |init| ensures Attempts(init[..j]) < max {
        assert init[..j] == turns[..j];
      }
      StreakBound(init, max);
      if turns[|turns| - 1].Session? {
        assert (max - 1) * (Sessions(init) + 1) == (max - 1) * Sessions(init) + (max - 1);
      }
    }
  }

  /** Spelled out: the attempts are counted from the last session on, which is the first of them. */
  lemma {:induction false} AttemptsFrom(turns: seq<Turn>, i: nat)
    requires i < |turns| ==> turns[i].Session?
    requires i <= |turns| && forall j :: i < j < |turns| ==> !turns[j].Session?
    requires i == |turns| ==> forall j :: 0 <= j < |turns| ==> !turns[j].Session?
    ensures Attempts(turns) == if i < |turns| then |turns| - i else |turns|
  {
    if turns != [] && !turns[|turns| - 1].Session? {
      var init := turns[..|turns| - 1];
      AttemptsFrom(init, if i < |turns| then i else |init|);
    }
  }

  class Connector {
    const endpoints: nat
    const maxAttempts: nat
    const delays: seq<real>
    var running: bool
    var fatalError: bool
    var connectionAttempts: nat
    var connectedSessions: nat

    constructor (endpoints: nat, maxAttempts: nat, delays: seq<real>)
      ensures this.endpoints == endpoints && this.maxAttempts == maxAttempts && this.delays == delays
      ensures running && !fatalError && connectionAttempts == connectedSessions == 0
    {
      this.endpoints, this.maxAttempts, this.delays := endpoints, maxAttempts, delays;
      running, fatalError, connectionAttempts, connectedSessions := true, false, 0, 0;
    }

    /** The delay after so many attempts without a session; the last one is repeated. */
    function Delay(attempt: nat, alive: bool): Option<real>
    {
      if !alive || delays == [] || attempt == 0 then None
      else Some(delays[if attempt <= |delays| then attempt - 1 else |delays| - 1])
    }

    /** The delay slept for, if any; the index is in range because `attempt` counts from 1. */
    method BackoffSleep(attempt: nat) returns (slept: Option<real>)
      requires attempt >= 1
      ensures slept == if !running || delays == [] then None
                       else Some(delays[if attempt <= |delays| then attempt - 1 else |delays| - 1])
    {
      if !running || delays == [] {
        return None;
      }
      var idx := if attempt - 1 <= |delays| - 1 then attempt - 1 else |delays| - 1;
      slept := Some(delays[idx]);
    }

    /** One turn after the connection attempt was counted: the new streak, and whether the loop returns at once. */
    method OneTurn(turn: Turn, attempts: nat) returns (streak: nat, over: bool, pause: Option<real>)
      modifies this`running, this`fatalError, this`connectedSessions
      ensures running == if turn.AuthRejected? then old(running) else turn.alive
      ensures fatalError == (old(fatalError) || turn.AuthRejected?)
      ensures connectedSessions == old(connectedSessions) + if turn.Session? then 1 else 0
      ensures over == (turn.AuthRejected? || (turn.Session? && !turn.alive))
      ensures !over ==> streak == if turn.Session? then 1 else attempts + 1
      ensures pause == if over then None else Delay(streak, running)
    {
      streak, over, pause := attempts, false, None;
      match turn
      case AuthRejected =>
        fatalError := true;
        over := true;
      case Session(alive) =>
        streak := 0;
        connectedSessions := connectedSessions + 1;
        running := alive;
        if !running {
          over := true;
          return;
        }
        streak := streak + 1;
        pause := BackoffSleep(streak);
      case _ =>
        running := turn.alive;
        streak := streak + 1;
        pause := BackoffSleep(streak);
    }

    /** The pause after turn k. */
    function Pause(script: seq<Turn>, k: nat): Option<real>
      requires k < |script|
    {
      if script[k].AuthRejected? then None else Delay(Attempts(script[..k + 1]), script[k].alive)
    }

    /** The loop, against any finite stretch of outcomes. `used` names the endpoint of every attempt made. */
    method ConnectLoop(script: seq<Turn>) returns (used: seq<nat>, pauses: seq<Option<real>>)
      requires running && !fatalError && connectionAttempts == connectedSessions == 0
      modifies this
      ensures endpoints == 0 ==> fatalError && used == []
      ensures connectionAttempts == |used| <= |script|
      // the k-th attempt goes to endpoint k modulo their number
      ensures endpoints > 0 ==> forall k :: 0 <= k < |used| ==> used[k] == k % endpoints
      // never more than (M - 1) * s + M attempts with s sessions
      ensures connectedSessions == Sessions(script[..|used|])
      ensures maxAttempts > 0 ==> |used| <= (maxAttempts - 1) * connectedSessions + maxAttempts
      ensures maxAttempts == 0 ==> used == []
      // a rejected auth is the last thing that happens, and so is the end of the run
      ensures endpoints > 0 ==> (fatalError <==> |used| > 0 && script[|used| - 1].AuthRejected?)
      ensures forall k :: 0 <= k < |used| - 1 ==> !script[k].AuthRejected? && IsAlive(script[k])
      // and nothing else ends it early
      ensures endpoints > 0 && |used| < |script| && !fatalError && running ==> Attempts(script[..|used|]) >= maxAttempts
      // between two attempts there is the pause for the streak since the last session, and none once the client stops
      ensures |pauses| == |used|
      ensures forall k :: 0 <= k < |used| ==> pauses[k] == Pause(script, k)
    {
      used, pauses := [], [];
      if endpoints == 0 {
        fatalError := true;
        return;
      }
      var attempts, cursor, over := 0, 0, false;
      while !over && running && attempts < maxAttempts && |used| < |script|
        invariant cursor == |used| == connectionAttempts <= |script|
        invariant connectedSessions == Sessions(script[..|used|])
        invariant forall j :: 0 <= j < |used| ==> Attempts(script[..j]) < maxAttempts
        invariant !over ==> attempts == Attempts(script[..|used|])
        invariant forall k :: 0 <= k < |used| ==> used[k] == k % endpoints
        invariant |pauses| == |used| && forall k :: 0 <= k < |used| ==> pauses[k] == Pause(script, k)
        invariant forall k :: 0 <= k < |used| - 1 ==> !script[k].AuthRejected? && IsAlive(script[k])
        invariant used == [] ==> !fatalError && !over && running
        invariant used != [] ==>
          var last := script[|used| - 1];
          && running == IsAlive(last) && fatalError == last.AuthRejected?
          && (over <==> last.AuthRejected? || (last.Session? && !last.alive))
        decreases |script| - |used|
      {
        ghost var i := |used|;
        assert script[..i + 1][..i] == script[..i];
        var turn := script[|used|];
        used := used + [cursor % endpoints];
        cursor := cursor + 1;
        connectionAttempts := connectionAttempts + 1;
        var pause;
        attempts, over, pause := OneTurn(turn, attempts);
        pauses := pauses + [pause];
      }
      StopBound(script, |used|, maxAttempts);
    }
  }

  lemma StopBound(script: seq<Turn>, n: nat, max: nat)
    requires n <= |script| && forall j :: 0 <= j < n ==> Attempts(script[..j]) < max
    ensures max > 0 ==> n <= (max - 1) * Sessions(script[..n]) + max
    ensures max == 0 ==> n == 0
  {
    var turns := script[..n];
    if max > 0 {
      forall j | 0 <= j < n ensures Attempts(turns[..j]) < max {
        assert turns[..j] == script[..j];
      }
      StreakBound(turns, max);
    }
    if n > 0 {
      assert Attempts(script[..0]) < max;
    }
  }

  /** Any n consecutive attempts reach all n endpoints. */
  lemma EveryEndpointTried(used: seq<nat>, n: nat, from: nat, e: nat)
    requires n > 0 && e < n && from + n <= |used|
    requires forall k :: 0 <= k < |used| ==> used[k] == k % n
    ensures exists k :: from <= k < from + n && used[k] == e
  {
    var r := from % n;
    var k := if e >= r then from + (e - r) else from + (e + n - r);
    var q := from / n;
    assert from == q * n + r;
    if e >= r {
      ModUnique(k, q, n, e);
    } else {
      assert k == (q + 1) * n + e;
      ModUnique(k, q + 1, n, e);
    }
    assert used[k] == e;
  }

  lemma DivisionGap(a: nat, b: nat, n: nat, x: nat, y: nat)
    requires a * n + x == b * n + y && x < n && y < n
    ensures a >= b
  {
    assert a < b ==> b * n >= (a + 1) * n;
  }

  lemma ModUnique(k: nat, q: nat, n: nat, e: nat)
    requires e < n && k == q * n + e
    ensures k % n == e
  {
    var q', r' := k / n, k % n;
    assert k == q' * n + r';
    DivisionGap(q, q', n, e, r');
    DivisionGap(q', q, n, r', e);
  }
}
