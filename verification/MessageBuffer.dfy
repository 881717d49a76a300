/** The bounded three-lane buffer between the live socket and the message handler. */
module MessageBuffer {
  import opened OrderedDict

  type Priority = p: nat | p <= 2

  const CRITICAL: Priority := 0
  const NORMAL: Priority := 1
  const LOW: Priority := 2

  const CRITICAL_COMMANDS: set<string> := {
    "DANMU_MSG", "SUPER_CHAT_MESSAGE", "SUPER_CHAT_MESSAGE_JPN", "SUPER_CHAT_MESSAGE_DELETE",
    "ROOM_BLOCK_MSG", "WARNING", "CUT_OFF"
  }

  const NORMAL_COMMANDS: set<string> := {
    "GUARD_BUY", "SEND_GIFT", "ROOM_ADMIN_ENTRANCE", "ROOM_ADMINS", "LIVE", "PREPARING"
  }

  /** A decoded message; `cmd` is None when the field is missing or is not text. */
  datatype Payload = Payload(cmd: Option<string>, body: int)

  datatype Message = Message(payload: Payload, priority: Priority, enqueuedAt: real)

  datatype PutResult = PutResult(accepted: bool, dropped: Option<Message>)

  /** The text before the first colon: `value.partition(":")[0]`. */
  function BeforeColon(s: string): (r: string)
    ensures ':' !in r
    ensures r == s || r + ":" <= s
  {
    if s == "" || s[0] == ':' then "" else [s[0]] + BeforeColon(s[1..])
  }

  function CommandName(m: Payload): string {
    if m.cmd.Some? then BeforeColon(m.cmd.value) else "<unknown>"
  }

  function Classify(m: Payload): Priority {
    var command := CommandName(m);
    if command in CRITICAL_COMMANDS then CRITICAL
    else if command in NORMAL_COMMANDS then NORMAL
    else LOW
  }

  lemma {:induction false} BeforeColonOf(name: string, suffix: string)
    requires ':' !in name
    ensures BeforeColon(name) == name && BeforeColon(name + ":" + suffix) == name
  {
    if name != "" {
      assert (name + ":" + suffix)[1..] == name[1..] + ":" + suffix;
      BeforeColonOf(name[1..], suffix);
    }
  }

  /** A protocol variant after a colon never changes how a command is treated. */
  lemma VariantSuffix(name: string, suffix: string, body: int)
    requires ':' !in name
    ensures Classify(Payload(Some(name + ":" + suffix), body)) == Classify(Payload(Some(name), body))
  {
    BeforeColonOf(name, suffix);
  }

  // ---------------------------------------------------------------- specification

  type Lanes = l: seq<seq<Message>> | |l| == 3 witness [[], [], []]

  const EMPTY: Lanes := [[], [], []]

  /** How many messages lanes 0..q hold. */
  function UpTo(l: Lanes, q: Priority): nat {
    |l[0]| + (if q >= 1 then |l[1]| else 0) + (if q >= 2 then |l[2]| else 0)
  }

  function Size(l: Lanes): nat { UpTo(l, LOW) }

  ghost predicate Home(l: Lanes) {
    forall p: Priority, m :: m in l[p] ==> m.priority == p
  }

  ghost predicate Fits(l: Lanes, max: nat) {
    Home(l) && Size(l) <= max
  }

  /** The least important non-empty lane among p+1..v, or p when there is none. */
  function Victim(l: Lanes, v: Priority, p: Priority): (r: Priority)
    requires p <= v
    ensures p <= r <= v
    ensures r > p ==> l[r] != []
    ensures forall w: Priority :: r < w <= v ==> l[w] == []
  {
    if v == p || l[v] != [] then v else Victim(l, v - 1, p)
  }

  function PutStep(l: Lanes, max: nat, m: Message): (Lanes, PutResult) {
    var v := Victim(l, LOW, m.priority);
    if Size(l) < max then (l[m.priority := l[m.priority] + [m]], PutResult(true, None))
    else if v == m.priority then (l, PutResult(false, Some(m)))
    else (l[v := l[v][1..]][m.priority := l[m.priority] + [m]], PutResult(true, Some(l[v][0])))
  }

  function GetStep(l: Lanes): (Lanes, Option<Message>) {
    if l[0] != [] then (l[0 := l[0][1..]], Some(l[0][0]))
    else if l[1] != [] then (l[1 := l[1][1..]], Some(l[1][0]))
    else if l[2] != [] then (l[2 := l[2][1..]], Some(l[2][0]))
    else (l, None)
  }

  // ---------------------------------------------------------------- the buffer

  class PriorityMessageBuffer {
    const maxsize: nat
    var queues: Lanes
    var size: nat
    var notEmpty: bool

    ghost predicate Valid()
      reads this
    {
      && maxsize > 0
      && Fits(queues, maxsize)
      && size == Size(queues)
      && (notEmpty <==> size > 0)
    }

    constructor (maxsize: nat)
      requires maxsize > 0
      ensures Valid() && queues == EMPTY && this.maxsize == maxsize
    {
      this.maxsize := maxsize;
      queues, size, notEmpty := EMPTY, 0, false;
    }

    /** A maximum of zero or less is refused. */
    static method Create(maxsize: int) returns (r: Option<PriorityMessageBuffer>)
      ensures r.None? <==> maxsize <= 0
      ensures r.Some? ==> fresh(r.value) && r.value.Valid() && r.value.maxsize == maxsize && r.value.queues == EMPTY
    {
      if maxsize <= 0 {
        return None;
      }
      var b := new PriorityMessageBuffer(maxsize);
      return Some(b);
    }

    method PutNowait(payload: Payload, enqueuedAt: real) returns (r: PutResult)
      requires Valid()
      modifies this
      ensures Valid()
      ensures (queues, r) == PutStep(old(queues), maxsize, Message(payload, Classify(payload), enqueuedAt))
    {
      var priority := Classify(payload);
      var incoming := Message(payload, priority, enqueuedAt);
      var dropped: Option<Message> := None;
      if size >= maxsize {
        var v: int := LOW;
        while v > priority
          invariant priority <= v <= LOW
          invariant Victim(queues, LOW, priority) == Victim(queues, v, priority)
          invariant dropped == None && queues == old(queues) && size == old(size)
        {
          if queues[v] != [] {
            break;
          }
          v := v - 1;
        }
        if v == priority {
          return PutResult(false, Some(incoming));
        }
        dropped := Some(queues[v][0]);
        queues := queues[v := queues[v][1..]];
        size := size - 1;
      }
      queues := queues[priority := queues[priority] + [incoming]];
      size := size + 1;
      notEmpty := true;
      r := PutResult(true, dropped);
    }

    /** One attempt of the consumer: None means that it parks on the cleared event. */
    method Get() returns (item: Option<Message>)
      requires Valid()
      modifies this
      ensures Valid()
      ensures (queues, item) == GetStep(old(queues))
      ensures item.None? <==> old(size) == 0
    {
      if size == 0 {
        notEmpty := false;
        return None;
      }
      for lane := 0 to 3
        invariant queues == old(queues) && size == old(size) > 0
        invariant forall k :: 0 <= k < lane ==> queues[k] == []
      {
        if queues[lane] != [] {
          item := Some(queues[lane][0]);
          queues := queues[lane := queues[lane][1..]];
          size := size - 1;
          if size == 0 {
            notEmpty := false;
          }
          return;
        }
      }
      assert false;  // the "buffer size invariant violated" error cannot be reached
    }

    method Clear()
      requires Valid()
      modifies this
      ensures Valid() && queues == EMPTY && size == 0 && !notEmpty
    {
      queues, size, notEmpty := EMPTY, 0, false;
    }
  }

  // ---------------------------------------------------------------- whole runs

  datatype Op = Put(m: Message) | Get | Clear

  datatype Fate = Delivered(m: Message) | Evicted(m: Message) | Rejected(m: Message) | Cleared(m: Message)

  datatype Outcome = Outcome(lanes: Lanes, fates: seq<Fate>)

  function ClearedAll(ms: seq<Message>): seq<Fate> {
    if ms == [] then [] else [Cleared(ms[0])] + ClearedAll(ms[1..])
  }

  function Step(l: Lanes, max: nat, op: Op): Outcome {
    match op
    case Put(m) =>
      var (l', r) := PutStep(l, max, m);
      Outcome(l', if r.dropped.None? then []
                  else if r.accepted then [Evicted(r.dropped.value)] else [Rejected(r.dropped.value)])
    case Get =>
      var (l', item) := GetStep(l);
      Outcome(l', if item.Some? then [Delivered(item.value)] else [])
    case Clear =>
      Outcome(EMPTY, ClearedAll(l[0]) + ClearedAll(l[1]) + ClearedAll(l[2]))
  }

  function Run(l: Lanes, max: nat, ops: seq<Op>): Outcome
    decreases ops
  {
    if ops == [] then Outcome(l, [])
    else
      var first := Step(l, max, ops[0]);
      var rest := Run(first.lanes, max, ops[1..]);
      Outcome(rest.lanes, first.fates + rest.fates)
  }

  lemma StepFits(l: Lanes, max: nat, op: Op)
    requires Fits(l, max)
    ensures Fits(Step(l, max, op).lanes, max)
  {
    var l' := Step(l, max, op).lanes;
    assert forall p: Priority, m :: m in l[p] ==> m.priority == p;
    if op.Put? {
      var v := Victim(l, LOW, op.m.priority);
      assert l[v] != [] ==> forall m :: m in l[v][1..] ==> m in l[v];
    }
  }

  // -------- less important traffic never interferes

  /** The lanes 0..q alone. */
  function Project(l: Lanes, q: Priority): Lanes {
    [l[0], if q >= 1 then l[1] else [], if q >= 2 then l[2] else []]
  }

  /** The same run with every put less important than q erased. */
  function Erase(ops: seq<Op>, q: Priority): seq<Op> {
    if ops == [] then []
    else if ops[0].Put? && ops[0].m.priority > q then Erase(ops[1..], q)
    else [ops[0]] + Erase(ops[1..], q)
  }

  function KeepFates(fs: seq<Fate>, q: Priority): seq<Fate> {
    if fs == [] then []
    else if fs[0].m.priority > q then KeepFates(fs[1..], q)
    else [fs[0]] + KeepFates(fs[1..], q)
  }

  lemma {:induction false} KeepConcat(a: seq<Fate>, b: seq<Fate>, q: Priority)
    ensures KeepFates(a + b, q) == KeepFates(a, q) + KeepFates(b, q)
  {
    if a == [] {
      assert a + b == b;
    } else {
      assert (a + b)[1..] == a[1..] + b;
      KeepConcat(a[1..], b, q);
    }
  }

  lemma {:induction false} KeepCleared(ms: seq<Message>, p: Priority, q: Priority)
    requires forall m :: m in ms ==> m.priority == p
    ensures KeepFates(ClearedAll(ms), q) == if p <= q then ClearedAll(ms) else []
  {
    if ms != [] {
      KeepCleared(ms[1..], p, q);
      assert ms[0] in ms;
    }
  }

  lemma ProjectCleared(l: Lanes, q: Priority)
    requires Home(l)
    ensures KeepFates(Step(l, 0, Clear).fates, q) == Step(Project(l, q), 0, Clear).fates
  {
    KeepConcat(ClearedAll(l[0]) + ClearedAll(l[1]), ClearedAll(l[2]), q);
    KeepConcat(ClearedAll(l[0]), ClearedAll(l[1]), q);
    forall p: Priority ensures KeepFates(ClearedAll(l[p]), q) == if p <= q then ClearedAll(l[p]) else [] {
      KeepCleared(l[p], p, q);
    }
    KeepCleared(l[0], 0, q);
    KeepCleared(l[1], 1, q);
    KeepCleared(l[2], 2, q);
  }

  lemma PutProject(l: Lanes, max: nat, m: Message, q: Priority)
    requires Fits(l, max)
    ensures var t, u := Step(l, max, Put(m)), Step(Project(l, q), max, Put(m));
            if m.priority > q then Project(t.lanes, q) == Project(l, q) && KeepFates(t.fates, q) == []
            else u.lanes == Project(t.lanes, q) && u.fates == KeepFates(t.fates, q)
  {
    var v := Victim(l, LOW, m.priority);
    assert forall p: Priority :: l[p] != [] ==> l[p][0] in l[p];
  }

  lemma GetProject(l: Lanes, max: nat, q: Priority)
    requires Fits(l, max)
    ensures var t, u := Step(l, max, Get), Step(Project(l, q), max, Get);
            u.lanes == Project(t.lanes, q) && u.fates == KeepFates(t.fates, q)
  {
    assert forall p: Priority :: l[p] != [] ==> l[p][0] in l[p];
  }

  lemma StepProject(l: Lanes, max: nat, op: Op, q: Priority)
    requires Fits(l, max)
    ensures op.Put? && op.m.priority > q ==>
              Project(Step(l, max, op).lanes, q) == Project(l, q) && KeepFates(Step(l, max, op).fates, q) == []
    ensures !(op.Put? && op.m.priority > q) ==>
              && Step(Project(l, q), max, op).lanes == Project(Step(l, max, op).lanes, q)
              && Step(Project(l, q), max, op).fates == KeepFates(Step(l, max, op).fates, q)
  {
    match op
    case Put(m) => PutProject(l, max, m, q);
    case Get => GetProject(l, max, q);
    case Clear => ProjectCleared(l, q);
  }

  /** For every interleaving and every priority q: the lanes 0..q, and the messages of priority 0..q delivered or
      dropped, in order, are those of the run from which all less important puts are erased. */
  lemma {:induction false} NonInterference(l: Lanes, max: nat, ops: seq<Op>, q: Priority)
    requires Fits(l, max)
    ensures Run(Project(l, q), max, Erase(ops, q)).lanes == Project(Run(l, max, ops).lanes, q)
    ensures Run(Project(l, q), max, Erase(ops, q)).fates == KeepFates(Run(l, max, ops).fates, q)
    decreases ops
  {
    if ops != [] {
      var first := Step(l, max, ops[0]);
      StepFits(l, max, ops[0]);
      StepProject(l, max, ops[0], q);
      NonInterference(first.lanes, max, ops[1..], q);
      KeepConcat(first.fates, Run(first.lanes, max, ops[1..]).fates, q);
      if !(ops[0].Put? && ops[0].m.priority > q) {
        var e := Erase(ops, q);
        assert e[0] == ops[0] && e[1..] == Erase(ops[1..], q);
      }
    }
  }

  // -------- every message is accounted for, and each lane is first in, first out

  /** What one step adds to the buffer. */
  function Entered(l: Lanes, max: nat, op: Op): seq<Message> {
    if op.Put? && PutStep(l, max, op.m).1.accepted then [op.m] else []
  }

  /** The messages that the buffer accepted, in order. */
  function Accepted(l: Lanes, max: nat, ops: seq<Op>): seq<Message>
    decreases ops
  {
    if ops == [] then []
    else Entered(l, max, ops[0]) + Accepted(Step(l, max, ops[0]).lanes, max, ops[1..])
  }

  function OfPriority(ms: seq<Message>, p: Priority): seq<Message> {
    if ms == [] then []
    else (if ms[0].priority == p then [ms[0]] else []) + OfPriority(ms[1..], p)
  }

  /** The messages of priority p that left the buffer after having been accepted, in order. */
  function Departed(fs: seq<Fate>, p: Priority): seq<Message> {
    if fs == [] then []
    else (if fs[0].m.priority == p && !fs[0].Rejected? then [fs[0].m] else []) + Departed(fs[1..], p)
  }

  lemma {:induction false} DepartedConcat(a: seq<Fate>, b: seq<Fate>, p: Priority)
    ensures Departed(a + b, p) == Departed(a, p) + Departed(b, p)
  {
    if a == [] {
      assert a + b == b;
    } else {
      assert (a + b)[1..] == a[1..] + b;
      DepartedConcat(a[1..], b, p);
      var head := if a[0].m.priority == p && !a[0].Rejected? then [a[0].m] else [];
      assert head + (Departed(a[1..], p) + Departed(b, p)) == (head + Departed(a[1..], p)) + Departed(b, p);
    }
  }

  lemma {:induction false} DepartedCleared(ms: seq<Message>, lane: Priority, p: Priority)
    requires forall m :: m in ms ==> m.priority == lane
    ensures Departed(ClearedAll(ms), p) == if lane == p then ms else []
  {
    if ms != [] {
      var rest := ms[1..];
      assert ms[0] in ms && ms == [ms[0]] + rest;
      assert forall m :: m in rest ==> m in ms;
      DepartedCleared(rest, lane, p);
      DepartedOne(Cleared(ms[0]), p);
      DepartedConcat([Cleared(ms[0])], ClearedAll(rest), p);
    }
  }

  lemma DepartedOne(f: Fate, p: Priority)
    ensures Departed([f], p) == if f.m.priority == p && !f.Rejected? then [f.m] else []
  {
  }

  lemma EvictFifo(l: Lanes, max: nat, m: Message, p: Priority)
    requires Fits(l, max) && Size(l) >= max && Victim(l, LOW, m.priority) > m.priority
    ensures l[p] + OfPriority([m], p)
         == Departed(Step(l, max, Put(m)).fates, p) + Step(l, max, Put(m)).lanes[p]
  {
    var v := Victim(l, LOW, m.priority);
    var first := l[v][0];
    var next := l[v := l[v][1..]][m.priority := l[m.priority] + [m]];
    assert first in l[v] && first.priority == v;
    assert Step(l, max, Put(m)) == Outcome(next, [Evicted(first)]);
    DepartedOne(Evicted(first), p);
    OfPriorityOne(m, p);
    if p == v {
      assert next[p] == l[v][1..] && l[v] == [first] + l[v][1..];
    } else if p == m.priority {
      assert next[p] == l[p] + [m];
    } else {
      assert next[p] == l[p];
    }
  }

  lemma OfPriorityOne(m: Message, p: Priority)
    ensures OfPriority([m], p) == if m.priority == p then [m] else []
  {
    assert [m][1..] == [];
  }

  lemma PutFifo(l: Lanes, max: nat, m: Message, p: Priority)
    requires Fits(l, max)
    ensures l[p] + OfPriority(Entered(l, max, Put(m)), p)
         == Departed(Step(l, max, Put(m)).fates, p) + Step(l, max, Put(m)).lanes[p]
  {
    if Size(l) >= max {
      if Victim(l, LOW, m.priority) == m.priority {
        DepartedOne(Rejected(m), p);
      } else {
        EvictFifo(l, max, m, p);
      }
    }
  }

  lemma PopFifo(l: Lanes, w: Priority, p: Priority)
    requires Home(l) && l[w] != []
    ensures l[p] == Departed([Delivered(l[w][0])], p) + l[w := l[w][1..]][p]
  {
    DepartedOne(Delivered(l[w][0]), p);
    assert l[w][0] in l[w] && l[w] == [l[w][0]] + l[w][1..];
  }

  lemma GetFifo(l: Lanes, max: nat, p: Priority)
    requires Fits(l, max)
    ensures l[p] == Departed(Step(l, max, Get).fates, p) + Step(l, max, Get).lanes[p]
  {
    if l[0] != [] {
      PopFifo(l, 0, p);
    } else if l[1] != [] {
      PopFifo(l, 1, p);
    } else if l[2] != [] {
      PopFifo(l, 2, p);
    }
  }

  lemma DepartedThree(a: seq<Fate>, b: seq<Fate>, c: seq<Fate>, p: Priority)
    ensures Departed(a + b + c, p) == Departed(a, p) + Departed(b, p) + Departed(c, p)
  {
    DepartedConcat(a + b, c, p);
    DepartedConcat(a, b, p);
  }

  lemma ClearFifo(l: Lanes, max: nat, p: Priority)
    requires Fits(l, max)
    ensures l[p] == Departed(Step(l, max, Clear).fates, p)
  {
    DepartedThree(ClearedAll(l[0]), ClearedAll(l[1]), ClearedAll(l[2]), p);
    DepartedCleared(l[0], 0, p);
    DepartedCleared(l[1], 1, p);
    DepartedCleared(l[2], 2, p);
  }

  lemma StepFifo(l: Lanes, max: nat, op: Op, p: Priority)
    requires Fits(l, max)
    ensures l[p] + OfPriority(Entered(l, max, op), p)
         == Departed(Step(l, max, op).fates, p) + Step(l, max, op).lanes[p]
  {
    match op
    case Put(m) => PutFifo(l, max, m, p);
    case Get => GetFifo(l, max, p);
    case Clear => ClearFifo(l, max, p);
  }

  lemma {:induction false} OfPriorityConcat(a: seq<Message>, b: seq<Message>, p: Priority)
    ensures OfPriority(a + b, p) == OfPriority(a, p) + OfPriority(b, p)
  {
    if a == [] {
      assert a + b == b;
    } else {
      assert (a + b)[1..] == a[1..] + b;
      OfPriorityConcat(a[1..], b, p);
      var head := if a[0].priority == p then [a[0]] else [];
      assert head + (OfPriority(a[1..], p) + OfPriority(b, p)) == (head + OfPriority(a[1..], p)) + OfPriority(b, p);
    }
  }

  /** Two balances in a row. */
  lemma Chain<T>(a: seq<T>, b: seq<T>, c: seq<T>, d: seq<T>, e: seq<T>, f: seq<T>, g: seq<T>)
    requires a + b == c + d && d + e == f + g
    ensures a + (b + e) == (c + f) + g
  {
    assert a + (b + e) == (a + b) + e;
    assert (c + d) + e == c + (d + e);
    assert c + (f + g) == (c + f) + g;
  }

  /** Lane by lane, what was there followed by what was accepted is what left followed by what remains. */
  lemma {:induction false} Fifo(l: Lanes, max: nat, ops: seq<Op>, p: Priority)
    requires Fits(l, max)
    ensures l[p] + OfPriority(Accepted(l, max, ops), p)
         == Departed(Run(l, max, ops).fates, p) + Run(l, max, ops).lanes[p]
    decreases ops
  {
    if ops != [] {
      var first := Step(l, max, ops[0]);
      var later := Accepted(first.lanes, max, ops[1..]);
      var rest := Run(first.lanes, max, ops[1..]);
      StepFits(l, max, ops[0]);
      StepFifo(l, max, ops[0], p);
      Fifo(first.lanes, max, ops[1..], p);
      DepartedConcat(first.fates, rest.fates, p);
      OfPriorityConcat(Entered(l, max, ops[0]), later, p);
      Chain(l[p], OfPriority(Entered(l, max, ops[0]), p), Departed(first.fates, p), first.lanes[p],
            OfPriority(later, p), Departed(rest.fates, p), rest.lanes[p]);
    }
  }

  function Offered(ops: seq<Op>): seq<Message> {
    if ops == [] then [] else (if ops[0].Put? then [ops[0].m] else []) + Offered(ops[1..])
  }

  function Messages(fs: seq<Fate>): seq<Message> {
    if fs == [] then [] else [fs[0].m] + Messages(fs[1..])
  }

  lemma {:induction false} MessagesConcat(a: seq<Fate>, b: seq<Fate>)
    ensures Messages(a + b) == Messages(a) + Messages(b)
  {
    if a == [] {
      assert a + b == b;
    } else {
      assert (a + b)[1..] == a[1..] + b;
      MessagesConcat(a[1..], b);
    }
  }

  lemma {:induction false} MessagesCleared(ms: seq<Message>)
    ensures Messages(ClearedAll(ms)) == ms
  {
    if ms != [] {
      MessagesCleared(ms[1..]);
    }
  }

  /** How many times m occurs. */
  function Times(ms: seq<Message>, m: Message): nat {
    if ms == [] then 0 else (if ms[0] == m then 1 else 0) + Times(ms[1..], m)
  }

  function Held(l: Lanes, m: Message): nat {
    Times(l[0], m) + Times(l[1], m) + Times(l[2], m)
  }

  lemma {:induction false} TimesConcat(a: seq<Message>, b: seq<Message>, m: Message)
    ensures Times(a + b, m) == Times(a, m) + Times(b, m)
  {
    if a == [] {
      assert a + b == b;
    } else {
      assert (a + b)[1..] == a[1..] + b;
      TimesConcat(a[1..], b, m);
    }
  }

  lemma HeldPop(l: Lanes, w: Priority, m: Message)
    requires l[w] != []
    ensures Held(l, m) == Times([l[w][0]], m) + Held(l[w := l[w][1..]], m)
  {
  }

  lemma HeldPush(l: Lanes, w: Priority, x: Message, m: Message)
    ensures Held(l[w := l[w] + [x]], m) == Held(l, m) + Times([x], m)
  {
    TimesConcat(l[w], [x], m);
  }

  lemma StepConserves(l: Lanes, max: nat, op: Op, m: Message)
    ensures Held(l, m) + Times(Offered([op]), m)
         == Times(Messages(Step(l, max, op).fates), m) + Held(Step(l, max, op).lanes, m)
  {
    match op
    case Put(x) =>
      var v := Victim(l, LOW, x.priority);
      assert Offered([op]) == [x];
      HeldPush(l, x.priority, x, m);
      if v > x.priority {
        HeldPop(l, v, m);
        HeldPush(l[v := l[v][1..]], x.priority, x, m);
        assert Messages([Evicted(l[v][0])]) == [l[v][0]];
      }
      assert Messages([Rejected(x)]) == [x];
    case Get =>
      assert Offered([op]) == [];
      if w: Priority :| l[w] != [] && forall u: Priority :: u < w ==> l[u] == [] {
        HeldPop(l, w, m);
        assert Messages([Delivered(l[w][0])]) == [l[w][0]];
      }
    case Clear =>
      MessagesConcat(ClearedAll(l[0]) + ClearedAll(l[1]), ClearedAll(l[2]));
      MessagesConcat(ClearedAll(l[0]), ClearedAll(l[1]));
      MessagesCleared(l[0]);
      MessagesCleared(l[1]);
      MessagesCleared(l[2]);
      TimesConcat(l[0] + l[1], l[2], m);
      TimesConcat(l[0], l[1], m);
  }

  /** Every offered message is exactly one of delivered, evicted, rejected, cleared or still queued:
      each message occurs as often on one side as on the other. */
  lemma {:induction false} Conservation(l: Lanes, max: nat, ops: seq<Op>, m: Message)
    requires Fits(l, max)
    ensures Held(l, m) + Times(Offered(ops), m)
         == Times(Messages(Run(l, max, ops).fates), m) + Held(Run(l, max, ops).lanes, m)
    ensures Fits(Run(l, max, ops).lanes, max)
    decreases ops
  {
    if ops != [] {
      var first := Step(l, max, ops[0]);
      var rest := Run(first.lanes, max, ops[1..]);
      StepFits(l, max, ops[0]);
      StepConserves(l, max, ops[0], m);
      Conservation(first.lanes, max, ops[1..], m);
      TimesOfRun(first.fates, rest.fates, m);
      TimesOffered(ops, m);
    }
  }

  lemma TimesOfRun(a: seq<Fate>, b: seq<Fate>, m: Message)
    ensures Times(Messages(a + b), m) == Times(Messages(a), m) + Times(Messages(b), m)
  {
    MessagesConcat(a, b);
    TimesConcat(Messages(a), Messages(b), m);
  }

  lemma TimesOffered(ops: seq<Op>, m: Message)
    requires ops != []
    ensures Times(Offered(ops), m) == Times(Offered([ops[0]]), m) + Times(Offered(ops[1..]), m)
  {
    assert Offered(ops) == Offered([ops[0]]) + Offered(ops[1..]);
    TimesConcat(Offered([ops[0]]), Offered(ops[1..]), m);
  }

  // -------- shedding is optimal

  ghost predicate OnlyPuts(ops: seq<Op>) {
    forall op :: op in ops ==> op.Put?
  }

  function OfferedUpTo(ops: seq<Op>, q: Priority): nat {
    if ops == [] then 0 else (if ops[0].Put? && ops[0].m.priority <= q then 1 else 0) + OfferedUpTo(ops[1..], q)
  }

  function Min(a: nat, b: nat): nat { if a <= b then a else b }

  lemma PutCounts(l: Lanes, max: nat, m: Message, q: Priority)
    requires Fits(l, max)
    ensures UpTo(PutStep(l, max, m).0, q) == if m.priority <= q then Min(max, UpTo(l, q) + 1) else UpTo(l, q)
    ensures UpTo(l, q) <= max
  {
  }

  /** After puts alone, the number kept of priority q or better is the most that can be kept, for every q at once. */
  lemma {:induction false} OptimalShedding(l: Lanes, max: nat, ops: seq<Op>, q: Priority)
    requires Fits(l, max) && OnlyPuts(ops)
    ensures UpTo(Run(l, max, ops).lanes, q) == Min(max, UpTo(l, q) + OfferedUpTo(ops, q))
    decreases ops
  {
    PutCounts(l, max, Message(Payload(None, 0), LOW, 0.0), q);
    if ops != [] {
      assert ops[0] in ops && forall op :: op in ops[1..] ==> op in ops;
      StepFits(l, max, ops[0]);
      PutCounts(l, max, ops[0].m, q);
      OptimalShedding(Step(l, max, ops[0]).lanes, max, ops[1..], q);
    }
  }

  lemma PutCritical(l: Lanes, max: nat, m: Message)
    requires Fits(l, max)
    ensures PutStep(l, max, m).0[0] == if m.priority == 0 && |l[0]| < max then l[0] + [m] else l[0]
  {
  }

  function Take(s: seq<Message>, n: nat): seq<Message> { s[..Min(n, |s|)] }

  lemma TakeNext(base: seq<Message>, one: seq<Message>, later: seq<Message>, max: nat)
    requires |base| <= max && |one| <= 1
    ensures Take(base + (one + later), max) == Take((if |base| < max then base + one else base) + later, max)
  {
    if |base| < max {
      assert base + (one + later) == (base + one) + later;
    }
  }

  /** The critical lane is filled first come, first served. */
  lemma {:induction false} CriticalLane(l: Lanes, max: nat, ops: seq<Op>)
    requires Fits(l, max) && OnlyPuts(ops)
    ensures Run(l, max, ops).lanes[0] == Take(l[0] + OfPriority(Offered(ops), CRITICAL), max)
    decreases ops
  {
    assert |l[0]| <= max;
    if ops == [] {
      assert l[0] + [] == l[0];
    } else {
      assert ops[0] in ops && forall op :: op in ops[1..] ==> op in ops;
      var one := OfPriority([ops[0].m], CRITICAL);
      StepFits(l, max, ops[0]);
      PutCritical(l, max, ops[0].m);
      CriticalLane(Step(l, max, ops[0]).lanes, max, ops[1..]);
      OfPriorityConcat([ops[0].m], Offered(ops[1..]), CRITICAL);
      TakeNext(l[0], one, OfPriority(Offered(ops[1..]), CRITICAL), max);
      assert one == if ops[0].m.priority == 0 then [ops[0].m] else [];
    }
  }

  // -------- the order of shedding, on the text of the commands

  /** The command is this one, or a protocol variant of it. */
  predicate Named(p: Payload, name: string) {
    p.cmd.Some? && (p.cmd.value == name || name + ":" <= p.cmd.value)
  }

  predicate IsCritical(p: Payload) {
    || Named(p, "DANMU_MSG") || Named(p, "SUPER_CHAT_MESSAGE") || Named(p, "SUPER_CHAT_MESSAGE_JPN")
    || Named(p, "SUPER_CHAT_MESSAGE_DELETE") || Named(p, "ROOM_BLOCK_MSG") || Named(p, "WARNING") || Named(p, "CUT_OFF")
  }

  predicate IsNormal(p: Payload) {
    || Named(p, "GUARD_BUY") || Named(p, "SEND_GIFT") || Named(p, "ROOM_ADMIN_ENTRANCE") || Named(p, "ROOM_ADMINS")
    || Named(p, "LIVE") || Named(p, "PREPARING")
  }

  /** Anything else, and a message without a command. */
  predicate IsTelemetry(p: Payload) { !IsCritical(p) && !IsNormal(p) }

  lemma {:induction false} BeforeColonIs(s: string, name: string)
    requires ':' !in name
    ensures BeforeColon(s) == name <==> s == name || name + ":" <= s
    decreases s
  {
    if s == "" {
    } else if s[0] == ':' {
      assert name != "" ==> (name + ":")[0] == name[0];
      assert name == "" ==> name + ":" == [s[0]] == s[..1];
    } else if name != "" && s[0] == name[0] {
      BeforeColonIs(s[1..], name[1..]);
      assert name == [name[0]] + name[1..] && s == [s[0]] + s[1..];
      assert (name + ":")[1..] == name[1..] + ":";
      assert name[1..] + ":" <= s[1..] <==> name + ":" <= s by {
        PrefixTail(name + ":", s);
      }
      assert BeforeColon(s) == [s[0]] + BeforeColon(s[1..]);
    } else {
      assert BeforeColon(s)[0] == s[0];
    }
  }

  lemma PrefixTail(a: string, b: string)
    requires a != "" && b != "" && a[0] == b[0]
    ensures a[1..] <= b[1..] <==> a <= b
  {
    if a[1..] <= b[1..] {
      assert a == [a[0]] + a[1..] && b == [b[0]] + b[1..];
    }
  }

  lemma CommandIs(p: Payload, name: string)
    requires ':' !in name && name != "<unknown>"
    ensures CommandName(p) == name <==> Named(p, name)
  {
    if p.cmd.Some? {
      BeforeColonIs(p.cmd.value, name);
    }
  }

  lemma CriticalText(p: Payload)
    ensures CommandName(p) in CRITICAL_COMMANDS <==> IsCritical(p)
  {
    CommandIs(p, "DANMU_MSG");
    CommandIs(p, "SUPER_CHAT_MESSAGE");
    CommandIs(p, "SUPER_CHAT_MESSAGE_JPN");
    CommandIs(p, "SUPER_CHAT_MESSAGE_DELETE");
    CommandIs(p, "ROOM_BLOCK_MSG");
    CommandIs(p, "WARNING");
    CommandIs(p, "CUT_OFF");
  }

  lemma NormalText(p: Payload)
    ensures CommandName(p) in NORMAL_COMMANDS <==> IsNormal(p)
  {
    CommandIs(p, "GUARD_BUY");
    CommandIs(p, "SEND_GIFT");
    CommandIs(p, "ROOM_ADMIN_ENTRANCE");
    CommandIs(p, "ROOM_ADMINS");
    CommandIs(p, "LIVE");
    CommandIs(p, "PREPARING");
  }

  /** A message without a command is counted as "<unknown>". */
  lemma UnknownName(p: Payload)
    ensures p.cmd.None? ==> CommandName(p) == "<unknown>"
  {
  }

  lemma ClassifiedByText(p: Payload)
    ensures Classify(p) == 0 <==> IsCritical(p)
    ensures Classify(p) == 2 <==> IsTelemetry(p)
    ensures IsCritical(p) ==> !IsNormal(p)
  {
    CriticalText(p);
    NormalText(p);
    CommandsApart(CommandName(p));
  }

  lemma CommandsApart(name: string)
    ensures !(name in CRITICAL_COMMANDS && name in NORMAL_COMMANDS)
  {
  }

  /** What goes on at the buffer: a payload comes in, the consumer takes one, or the buffer is cleared. */
  datatype Traffic = Comes(payload: Payload, at: real) | Takes | Clears

  function OpOf(t: Traffic): Op {
    match t
    case Comes(p, at) => Put(Message(p, Classify(p), at))
    case Takes => Get
    case Clears => Clear
  }

  function OpsOf(ts: seq<Traffic>): seq<Op> {
    if ts == [] then [] else [OpOf(ts[0])] + OpsOf(ts[1..])
  }

  /** The messages that are waiting. */
  function Waiting(l: Lanes): seq<Message> { l[0] + l[1] + l[2] }

  /** Every message is where its text says. */
  ghost predicate Sorted(l: Lanes) {
    forall p: Priority, m :: m in l[p] ==> m.priority == p == Classify(m.payload)
  }

  lemma {:induction false} RunSorted(l: Lanes, max: nat, ts: seq<Traffic>)
    requires Sorted(l)
    ensures Sorted(Run(l, max, OpsOf(ts)).lanes)
    decreases ts
  {
    if ts != [] {
      StepSorted(l, max, ts[0]);
      RunSorted(Step(l, max, OpOf(ts[0])).lanes, max, ts[1..]);
      assert OpsOf(ts)[1..] == OpsOf(ts[1..]);
    }
  }

  lemma StepSorted(l: Lanes, max: nat, t: Traffic)
    requires Sorted(l)
    ensures Sorted(Step(l, max, OpOf(t)).lanes)
  {
    if t.Comes? {
      var m := OpOf(t).m;
      var v := Victim(l, LOW, m.priority);
      assert l[v] != [] ==> forall x :: x in l[v][1..] ==> x in l[v];
    }
  }

  lemma WaitingLanes(l: Lanes, m: Message)
    ensures m in Waiting(l) <==> m in l[0] || m in l[1] || m in l[2]
  {
  }

  /** A put drops nothing as long as there is room. Otherwise it drops a waiting message that is less important than the
      new one, or else the new one; never one while a less important one is `waiting`. */
  ghost predicate ShedsRight(l: Lanes, max: nat, m: Message, r: PutResult, waiting: Message) {
    && (|Waiting(l)| < max ==> r.accepted && r.dropped.None?)
    && (|Waiting(l)| >= max ==> r.dropped.Some?)
    && (!r.accepted ==> r.dropped == Some(m))
    && (r.accepted && r.dropped.Some? ==>
          var shed := r.dropped.value;
          && shed in Waiting(l) && !IsCritical(shed.payload)
          && (IsNormal(shed.payload) ==> IsCritical(m.payload)) && !IsTelemetry(m.payload))
    && (r.dropped.Some? && waiting in Waiting(l) ==>
          && (IsTelemetry(waiting.payload) ==> IsTelemetry(r.dropped.value.payload))
          && (IsNormal(waiting.payload) ==> !IsCritical(r.dropped.value.payload)))
  }

  /** That is how every payload is put, after any traffic. */
  lemma ShedsTheLeast(max: nat, ts: seq<Traffic>, p: Payload, at: real, waiting: Message)
    requires max > 0
    ensures var l, m := Run(EMPTY, max, OpsOf(ts)).lanes, Message(p, Classify(p), at);
            ShedsRight(l, max, m, PutStep(l, max, m).1, waiting)
  {
    RunSorted(EMPTY, max, ts);
    PutByText(Run(EMPTY, max, OpsOf(ts)).lanes, max, p, at, waiting);
  }

  lemma PutByText(l: Lanes, max: nat, p: Payload, at: real, waiting: Message)
    requires Sorted(l) && max > 0
    ensures var m := Message(p, Classify(p), at); ShedsRight(l, max, m, PutStep(l, max, m).1, waiting)
  {
    var v := Victim(l, LOW, Classify(p));
    ClassifiedByText(p);
    ClassifiedByText(waiting.payload);
    WaitingLanes(l, waiting);
    if v > Classify(p) {
      assert l[v][0] in l[v];
      ClassifiedByText(l[v][0].payload);
      WaitingLanes(l, l[v][0]);
    }
  }

  /** Over any traffic: no chat message, super chat, deletion, block, warning or cut-off is ever evicted. */
  lemma {:induction false} CriticalNeverEvicted(l: Lanes, max: nat, ts: seq<Traffic>, f: Fate)
    requires Sorted(l) && f in Run(l, max, OpsOf(ts)).fates && f.Evicted?
    ensures !IsCritical(f.m.payload)
    decreases ts
  {
    assert ts != [];
    assert OpsOf(ts)[1..] == OpsOf(ts[1..]);
    var first := Step(l, max, OpOf(ts[0]));
    StepSorted(l, max, ts[0]);
    if f in first.fates {
      EvictedByText(l, max, ts[0], f);
    } else {
      CriticalNeverEvicted(first.lanes, max, ts[1..], f);
    }
  }

  lemma {:induction false} ClearedOnly(ms: seq<Message>)
    ensures forall f :: f in ClearedAll(ms) ==> f.Cleared?
  {
    if ms != [] {
      ClearedOnly(ms[1..]);
    }
  }

  lemma EvictedByText(l: Lanes, max: nat, t: Traffic, f: Fate)
    requires Sorted(l) && f in Step(l, max, OpOf(t)).fates && f.Evicted?
    ensures !IsCritical(f.m.payload)
  {
    match t
    case Comes(p, at) =>
      var v := Victim(l, LOW, Classify(p));
      assert v > Classify(p) && l[v][0] in l[v] && f.m == l[v][0];
      ClassifiedByText(l[v][0].payload);
    case Takes =>
      assert false;
    case Clears =>
      ClearedOnly(l[0]);
      ClearedOnly(l[1]);
      ClearedOnly(l[2]);
      assert false;
  }

  /** The consumer is handed the first of all that wait, and nothing that is `waiting` is more important. */
  ghost predicate TakesRight(l: Lanes, item: Option<Message>, waiting: Message) {
    && (item.None? <==> Waiting(l) == [])
    && (item.Some? ==> item.value == Waiting(l)[0])
    && (item.Some? && waiting in Waiting(l) ==>
          && (IsCritical(waiting.payload) ==> IsCritical(item.value.payload))
          && (IsNormal(waiting.payload) ==> !IsTelemetry(item.value.payload)))
  }

  /** That is what it is handed, after any traffic. */
  lemma TakesTheMost(max: nat, ts: seq<Traffic>, waiting: Message)
    ensures var l := Run(EMPTY, max, OpsOf(ts)).lanes; TakesRight(l, GetStep(l).1, waiting)
  {
    RunSorted(EMPTY, max, ts);
    TakenByText(Run(EMPTY, max, OpsOf(ts)).lanes, waiting);
  }

  lemma TakenByText(l: Lanes, waiting: Message)
    requires Sorted(l)
    ensures TakesRight(l, GetStep(l).1, waiting)
  {
    var item := GetStep(l).1;
    ClassifiedByText(waiting.payload);
    WaitingLanes(l, waiting);
    if item.Some? {
      ClassifiedByText(item.value.payload);
      assert forall p: Priority :: l[p] != [] ==> l[p][0] in l[p];
    }
  }
}
