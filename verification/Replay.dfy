/** What a browser that joins late is sent, and what it shows from it. */
module Replay {
  import opened OrderedDict

  const MAX_HISTORY := 100
  const MAX_SNAPSHOT := 50

  /** Everything about a super chat except its id, which is the key of its row. */
  datatype ScInfo = ScInfo(endTs: int, body: int)

  type SuperChat = Row<string, ScInfo>

  datatype Event =
    | Danmaku(body: int)
    | Sc(sc: SuperChat)
    | ScDelete(ids: seq<string>)
    | RoomStatus(status: string)

  function LastN<T>(s: seq<T>, n: nat): seq<T> {
    if |s| <= n then s else s[|s| - n..]
  }

  // ---------------------------------------------------------------- the bridge

  /** The super chats that end after `now`. */
  function Prune(a: seq<SuperChat>, now: int): seq<SuperChat> {
    if a == [] then []
    else if a[0].info.endTs <= now then Prune(a[1..], now)
    else [a[0]] + Prune(a[1..], now)
  }

  /** The active super chats after an event. */
  function Remember(a: seq<SuperChat>, e: Event, now: int): seq<SuperChat> {
    var live := Prune(a, now);
    match e
    case Sc(sc) => if sc.key != "" && sc.info.endTs > now then Put(live, sc) else live
    case ScDelete(ids) => RemoveAll(live, ids)
    case _ => live
  }

  function RemoveAll(a: seq<SuperChat>, ids: seq<string>): seq<SuperChat>
    decreases ids
  {
    if ids == [] then a else RemoveAll(Remove(a, ids[0]), ids[1..])
  }

  function Append(h: seq<Event>, e: Event): seq<Event> { LastN(h + [e], MAX_HISTORY) }

  function Recent(h: seq<Event>): seq<Event> { LastN(h, MAX_SNAPSHOT) }

  function ScIds(h: seq<Event>): set<string> {
    set e | e in h && e.Sc? && e.sc.key != "" :: e.sc.key
  }

  /** The rows whose id is not among `ids`, as events. */
  function Pinned(a: seq<SuperChat>, ids: set<string>): seq<Event> {
    if a == [] then []
    else if a[0].key in ids then Pinned(a[1..], ids)
    else [Sc(a[0])] + Pinned(a[1..], ids)
  }

  /** What a client registering at `now` is sent first. */
  function Snapshot(h: seq<Event>, a: seq<SuperChat>, now: int): seq<Event> {
    Pinned(Prune(a, now), ScIds(Recent(h))) + Recent(h)
  }

  function Bootable(l: seq<SuperChat>, now: int): seq<SuperChat> {
    if l == [] then []
    else if l[0].key != "" && l[0].info.endTs > now then [l[0]] + Bootable(l[1..], now)
    else Bootable(l[1..], now)
  }

  /** The active super chats of a new bridge. */
  function InitialActive(l: seq<SuperChat>, now: int): seq<SuperChat> {
    PutAll([], Bootable(l, now))
  }

  // ---------------------------------------------------------------- the browser, without its cap of 20 cards

  function AddSc(cards: seq<SuperChat>, sc: SuperChat, ms: int): seq<SuperChat> {
    var others := Remove(cards, sc.key);
    if sc.info.endTs * 1000 - ms <= 0 then others else [sc] + others
  }

  function Show(cards: seq<SuperChat>, e: Event, ms: int): seq<SuperChat> {
    match e
    case Sc(sc) => AddSc(cards, sc, ms)
    case ScDelete(ids) => RemoveAll(cards, ids)
    case _ => cards
  }

  /** The cards after a burst of events at browser time `ms`. */
  function Fold(events: seq<Event>, ms: int): seq<SuperChat> {
    if events == [] then [] else Show(Fold(events[..|events| - 1], ms), events[|events| - 1], ms)
  }

  // ---------------------------------------------------------------- lookups

  function Lookup(a: seq<SuperChat>, k: string): Option<ScInfo> {
    if k in AsMap(a) then Some(AsMap(a)[k]) else None
  }

  /** The same card, unless its time is over. */
  function LiveAt(o: Option<ScInfo>, ms: int): Option<ScInfo> {
    if o.Some? && o.value.endTs * 1000 > ms then o else None
  }

  predicate Mentions(e: Event, k: string) {
    (e.Sc? && e.sc.key == k) || (e.ScDelete? && k in e.ids)
  }

  /** The last thing the events say about k: nothing, a card, or its deletion. */
  function LastMention(h: seq<Event>, k: string): Option<Option<ScInfo>> {
    if h == [] then None
    else
      var e := h[|h| - 1];
      if Mentions(e, k) then Some(if e.Sc? then Some(e.sc.info) else None)
      else LastMention(h[..|h| - 1], k)
  }

  lemma {:induction false} MentionConcat(a: seq<Event>, b: seq<Event>, k: string)
    ensures LastMention(a + b, k) == if LastMention(b, k).Some? then LastMention(b, k) else LastMention(a, k)
    decreases b
  {
    if b == [] {
      assert a + b == a;
    } else {
      assert (a + b)[..|a + b| - 1] == a + b[..|b| - 1];
      MentionConcat(a, b[..|b| - 1], k);
    }
  }

  lemma MentionLastN(h: seq<Event>, n: nat, k: string)
    ensures LastMention(LastN(h, n), k).Some? ==> LastMention(LastN(h, n), k) == LastMention(h, k)
  {
    if |h| > n {
      assert h == h[..|h| - n] + LastN(h, n);
      MentionConcat(h[..|h| - n], LastN(h, n), k);
    }
  }

  lemma {:induction false} PruneFacts(a: seq<SuperChat>, now: int)
    requires Unique(a)
    ensures Unique(Prune(a, now)) && (forall r :: r in Prune(a, now) ==> r in a)
    ensures forall k :: Lookup(Prune(a, now), k)
                     == (if Lookup(a, k).Some? && Lookup(a, k).value.endTs > now then Lookup(a, k) else None)
  {
    if a != [] {
      UniqueTail(a);
      PruneFacts(a[1..], now);
      MapKeys(a[1..]);
      var rest := Prune(a[1..], now);
      if a[0].info.endTs > now {
        UniqueCons(a[0], rest);
        assert ([a[0]] + rest)[1..] == rest;
      }
      forall k ensures Lookup(Prune(a, now), k)
                    == (if Lookup(a, k).Some? && Lookup(a, k).value.endTs > now then Lookup(a, k) else None) {
        assert Lookup(a, k) == if k == a[0].key then Some(a[0].info) else Lookup(a[1..], k);
      }
    }
  }

  lemma {:induction false} RemoveAllFacts(a: seq<SuperChat>, ids: seq<string>)
    requires Unique(a)
    ensures Unique(RemoveAll(a, ids)) && Keys(RemoveAll(a, ids)) <= Keys(a)
    ensures forall k :: Lookup(RemoveAll(a, ids), k) == if k in ids then None else Lookup(a, k)
    decreases ids
  {
    if ids != [] {
      RemoveFacts(a, ids[0]);
      RemoveAllFacts(Remove(a, ids[0]), ids[1..]);
      assert ids == [ids[0]] + ids[1..];
    }
  }

  lemma ShowFacts(cards: seq<SuperChat>, e: Event, ms: int)
    requires Unique(cards)
    ensures Unique(Show(cards, e, ms))
    ensures forall k :: Lookup(Show(cards, e, ms), k)
                     == if Mentions(e, k) then LiveAt(if e.Sc? then Some(e.sc.info) else None, ms) else Lookup(cards, k)
  {
    match e
    case Sc(sc) =>
      RemoveFacts(cards, sc.key);
      UniqueCons(sc, Remove(cards, sc.key));
      assert ([sc] + Remove(cards, sc.key))[1..] == Remove(cards, sc.key);
    case ScDelete(ids) =>
      RemoveAllFacts(cards, ids);
    case _ =>
  }

  /** The burst shows exactly the last word on every id. */
  lemma {:induction false} FoldFacts(events: seq<Event>, ms: int, k: string)
    ensures Unique(Fold(events, ms))
    ensures Lookup(Fold(events, ms), k)
         == if LastMention(events, k).Some? then LiveAt(LastMention(events, k).value, ms) else None
  {
    if events != [] {
      var init := events[..|events| - 1];
      FoldFacts(init, ms, k);
      ShowFacts(Fold(init, ms), events[|events| - 1], ms);
    }
  }

  lemma {:induction false} PinnedMention(a: seq<SuperChat>, ids: set<string>, k: string)
    requires Unique(a)
    ensures LastMention(Pinned(a, ids), k)
         == if k !in ids && Lookup(a, k).Some? then Some(Lookup(a, k)) else None
  {
    if a != [] {
      UniqueTail(a);
      PinnedMention(a[1..], ids, k);
      MapKeys(a[1..]);
      if a[0].key !in ids {
        MentionConcat([Sc(a[0])], Pinned(a[1..], ids), k);
        assert [Sc(a[0])][..0] == [];
        assert LastMention([Sc(a[0])], k) == if a[0].key == k then Some(Some(a[0].info)) else None;
      }
    }
  }

  // ---------------------------------------------------------------- what a replay holds

  function Cards(rows: seq<SuperChat>): seq<Event> {
    seq(|rows|, i requires 0 <= i < |rows| => Sc(rows[i]))
  }

  /** The rows stand in `a` at these places, in the same order. */
  ghost predicate InOrder(rows: seq<SuperChat>, a: seq<SuperChat>, at: seq<nat>) {
    && |at| == |rows|
    && (forall i :: 0 <= i < |at| ==> at[i] < |a| && a[at[i]] == rows[i])
    && (forall i, j :: 0 <= i < j < |at| ==> at[i] < at[j])
  }

  /** A super chat with this id is among the events. */
  ghost predicate HasSc(events: seq<Event>, k: string) {
    exists i :: 0 <= i < |events| && events[i].Sc? && events[i].sc.key == k
  }

  lemma PinnedCons(a: seq<SuperChat>, now: int, ids: set<string>)
    requires a != []
    ensures Pinned(Prune(a, now), ids)
         == (if a[0].info.endTs > now && a[0].key !in ids then [Sc(a[0])] else []) + Pinned(Prune(a[1..], now), ids)
  {
    assert ([a[0]] + Prune(a[1..], now))[1..] == Prune(a[1..], now);
  }

  function Shifted(at: seq<nat>): seq<nat> {
    seq(|at|, i requires 0 <= i < |at| => at[i] + 1)
  }

  lemma InOrderCons(rows: seq<SuperChat>, a: seq<SuperChat>, at: seq<nat>)
    requires a != [] && InOrder(rows, a[1..], at)
    ensures InOrder(rows, a, Shifted(at)) && InOrder([a[0]] + rows, a, [0] + Shifted(at))
  {
    forall i | 0 <= i < |at| ensures Shifted(at)[i] < |a| && a[Shifted(at)[i]] == rows[i] {
      assert a[1..][at[i]] == rows[i];
    }
  }

  lemma CardsCons(r: SuperChat, rows: seq<SuperChat>)
    ensures Cards([r] + rows) == [Sc(r)] + Cards(rows)
  {
  }

  lemma {:induction false} PinnedRows(a: seq<SuperChat>, now: int, ids: set<string>)
    returns (rows: seq<SuperChat>, at: seq<nat>)
    ensures Pinned(Prune(a, now), ids) == Cards(rows) && InOrder(rows, a, at)
    ensures forall r :: r in rows <==> r in a && r.info.endTs > now && r.key !in ids
  {
    if a == [] {
      rows, at := [], [];
    } else {
      var rest, places := PinnedRows(a[1..], now, ids);
      assert a == [a[0]] + a[1..];
      PinnedCons(a, now, ids);
      InOrderCons(rest, a, places);
      if a[0].info.endTs > now && a[0].key !in ids {
        rows, at := [a[0]] + rest, [0] + Shifted(places);
        CardsCons(a[0], rest);
      } else {
        rows, at := rest, Shifted(places);
        assert [] + Cards(rest) == Cards(rest);
      }
    }
  }

  /** A replay is the last 50 events of the history, and in front of them the active super chats that are not over and
      that those events do not have, each once and in the bridge's order. */
  lemma ReplayHolds(h: seq<Event>, a: seq<SuperChat>, now: int) returns (rows: seq<SuperChat>, at: seq<nat>)
    requires Unique(a) && "" !in Keys(a)
    ensures var n := if |h| <= 50 then |h| else 50;
            && Snapshot(h, a, now) == Cards(rows) + h[|h| - n..]
            && InOrder(rows, a, at)
            && (forall r :: r in rows <==> r in a && r.info.endTs > now && !HasSc(h[|h| - n..], r.key))
  {
    var tail := Recent(h);
    rows, at := PinnedRows(a, now, ScIds(tail));
    forall r | r in a ensures r.key in ScIds(tail) <==> HasSc(tail, r.key) {
      assert r.key in Keys(a);
      if r.key in ScIds(tail) {
        var e :| e in tail && e.Sc? && e.sc.key == r.key;
        var i :| 0 <= i < |tail| && tail[i] == e;
      }
    }
  }

  // ---------------------------------------------------------------- late joiners

  /** A browser that folds the snapshot taken at `now` at its own time `ms` shows exactly the bridge's super chats
      that are not over, each once. */
  ghost predicate Converges(h: seq<Event>, a: seq<SuperChat>, now: int, ms: int) {
    && Unique(Fold(Snapshot(h, a, now), ms))
    && forall k :: Lookup(Fold(Snapshot(h, a, now), ms), k) == LiveAt(Lookup(a, k), ms)
  }

  /** The history never contradicts the active super chats from `clock` on. */
  ghost predicate Faithful(h: seq<Event>, a: seq<SuperChat>, clock: int) {
    && Unique(a)
    && Lookup(a, "") == None
    && forall k, ms :: ms >= 1000 * clock && LastMention(h, k).Some?
                       ==> LiveAt(LastMention(h, k).value, ms) == LiveAt(Lookup(a, k), ms)
  }

  /** The guard that every arriving super chat has to meet: it has an id and is not over, or it is over and its id
      is not shown. */
  predicate Coherent(e: Event, a: seq<SuperChat>, now: int) {
    e.Sc? ==>
      if e.sc.info.endTs > now then e.sc.key != ""
      else Lookup(Prune(a, now), e.sc.key) == None
  }

  lemma SnapshotLookup(h: seq<Event>, a: seq<SuperChat>, now: int, ms: int, k: string)
    requires Unique(a) && Lookup(a, "") == None && ms >= 1000 * now
    ensures Unique(Fold(Snapshot(h, a, now), ms))
    ensures Lookup(Fold(Snapshot(h, a, now), ms), k)
         == if LastMention(Recent(h), k).Some? then LiveAt(LastMention(Recent(h), k).value, ms)
            else LiveAt(Lookup(a, k), ms)
  {
    var ids := ScIds(Recent(h));
    FoldFacts(Snapshot(h, a, now), ms, k);
    MentionConcat(Pinned(Prune(a, now), ids), Recent(h), k);
    PruneFacts(a, now);
    PinnedMention(Prune(a, now), ids, k);
    if LastMention(Recent(h), k).None? && k in ids {
      MentionedIds(Recent(h), k);
      assert false;
    }
  }

  lemma {:induction false} MentionedIds(h: seq<Event>, k: string)
    requires k in ScIds(h)
    ensures LastMention(h, k).Some?
  {
    var e :| e in h && e.Sc? && e.sc.key == k;
    if e != h[|h| - 1] {
      assert h == h[..|h| - 1] + [h[|h| - 1]];
      assert e in h[..|h| - 1];
      assert k in ScIds(h[..|h| - 1]) by {
        assert k != "";
      }
      MentionedIds(h[..|h| - 1], k);
    }
  }

  lemma FaithfulConverges(h: seq<Event>, a: seq<SuperChat>, now: int, ms: int)
    requires Faithful(h, a, now) && ms >= 1000 * now
    ensures Converges(h, a, now, ms)
  {
    forall k ensures Lookup(Fold(Snapshot(h, a, now), ms), k) == LiveAt(Lookup(a, k), ms) {
      SnapshotLookup(h, a, now, ms, k);
      MentionLastN(h, MAX_SNAPSHOT, k);
    }
    SnapshotLookup(h, a, now, ms, "");
  }

  lemma RememberFacts(a: seq<SuperChat>, e: Event, now: int)
    requires Unique(a) && Lookup(a, "") == None
    ensures Unique(Remember(a, e, now)) && Lookup(Remember(a, e, now), "") == None
    ensures forall k :: Lookup(Remember(a, e, now), k)
                     == if e.Sc? && e.sc.key == k && k != "" && e.sc.info.endTs > now then Some(e.sc.info)
                        else if e.ScDelete? && k in e.ids then None
                        else Lookup(Prune(a, now), k)
  {
    PruneFacts(a, now);
    match e
    case Sc(sc) => PutFacts(Prune(a, now), sc);
    case ScDelete(ids) => RemoveAllFacts(Prune(a, now), ids);
    case _ =>
  }

  lemma AppendMention(h: seq<Event>, e: Event, k: string)
    ensures LastMention(Append(h, e), k).Some? ==>
              LastMention(Append(h, e), k)
              == if Mentions(e, k) then Some(if e.Sc? then Some(e.sc.info) else None) else LastMention(h, k)
    ensures Mentions(e, k) ==> LastMention(Recent(Append(h, e)), k) == Some(if e.Sc? then Some(e.sc.info) else None)
  {
    MentionLastN(h + [e], MAX_HISTORY, k);
    assert (h + [e])[..|h|] == h;
  }

  lemma EventFaithful(h: seq<Event>, a: seq<SuperChat>, clock: int, e: Event, now: int)
    requires Faithful(h, a, clock) && clock <= now && Coherent(e, a, now)
    ensures Faithful(Append(h, e), Remember(a, e, now), now)
  {
    var h', a' := Append(h, e), Remember(a, e, now);
    RememberFacts(a, e, now);
    PruneFacts(a, now);
    forall k, ms | ms >= 1000 * now && LastMention(h', k).Some?
      ensures LiveAt(LastMention(h', k).value, ms) == LiveAt(Lookup(a', k), ms)
    {
      AppendMention(h, e, k);
      if !Mentions(e, k) {
        assert LiveAt(Lookup(a', k), ms) == LiveAt(Lookup(a, k), ms);
      }
    }
  }

  lemma JoinFaithful(h: seq<Event>, a: seq<SuperChat>, clock: int, now: int)
    requires Faithful(h, a, clock) && clock <= now
    ensures Faithful(h, Prune(a, now), now)
  {
    PruneFacts(a, now);
    forall k, ms | ms >= 1000 * now && LastMention(h, k).Some?
      ensures LiveAt(LastMention(h, k).value, ms) == LiveAt(Lookup(Prune(a, now), k), ms)
    {
      assert LiveAt(Lookup(Prune(a, now), k), ms) == LiveAt(Lookup(a, k), ms);
    }
  }

  /** Where the guard fails, the very next joiner already shows something else. */
  lemma IncoherentDiverges(h: seq<Event>, a: seq<SuperChat>, clock: int, e: Event, now: int)
    requires Faithful(h, a, clock) && !Coherent(e, a, now)
    ensures !Converges(Append(h, e), Remember(a, e, now), now, 1000 * now)
  {
    var k := e.sc.key;
    RememberFacts(a, e, now);
    PruneFacts(a, now);
    AppendMention(h, e, k);
    SnapshotLookup(Append(h, e), Remember(a, e, now), now, 1000 * now, k);
  }

  // ---------------------------------------------------------------- whole runs

  /** What touches the store: an event, or a registration, which drops what is over. */
  datatype Happening = Arrives(event: Event, now: int) | Joins(now: int)

  datatype Store = Store(history: seq<Event>, active: seq<SuperChat>, clock: int)

  function After(s: Store, run: seq<Happening>): Store {
    if run == [] then s
    else
      Next(After(s, run[..|run| - 1]), run[|run| - 1])
  }

  function Next(t: Store, x: Happening): Store {
    match x
    case Arrives(e, now) => Store(Append(t.history, e), Remember(t.active, e, now), now)
    case Joins(now) => Store(t.history, Prune(t.active, now), now)
  }

  predicate Meets(x: Happening, a: seq<SuperChat>) {
    x.Arrives? ==> Coherent(x.event, a, x.now)
  }

  function NewStore(l: seq<SuperChat>, now: int): Store {
    Store([], InitialActive(l, now), now)
  }

  ghost predicate Monotone(clock: int, run: seq<Happening>) {
    && (forall i :: 0 <= i < |run| ==> clock <= run[i].now)
    && (forall i, j :: 0 <= i < j < |run| ==> run[i].now <= run[j].now)
  }

  predicate MeetsAt(s: Store, run: seq<Happening>, i: nat)
    requires i < |run|
  {
    Meets(run[i], After(s, run[..i]).active)
  }

  ghost predicate AllCoherent(s: Store, run: seq<Happening>) {
    forall i :: 0 <= i < |run| ==> MeetsAt(s, run, i)
  }

  /** Whoever joins after the first i happenings, at any later time, converges. */
  ghost predicate JoinersConvergeAt(s: Store, run: seq<Happening>, i: nat)
    requires i <= |run|
  {
    var t := After(s, run[..i]);
    forall now, ms :: now >= t.clock && ms >= 1000 * now ==> Converges(t.history, t.active, now, ms)
  }

  ghost predicate JoinersConverge(s: Store, run: seq<Happening>) {
    forall i :: 0 <= i <= |run| ==> JoinersConvergeAt(s, run, i)
  }

  lemma {:induction false} BootableNamed(l: seq<SuperChat>, now: int)
    ensures "" !in Keys(Bootable(l, now))
  {
    if l != [] {
      BootableNamed(l[1..], now);
    }
  }

  /** Of the listed super chats, the last with this id that is not over. */
  function LastLive(l: seq<SuperChat>, now: int, k: string): Option<ScInfo> {
    if l == [] then None
    else if l[|l| - 1].key == k && l[|l| - 1].info.endTs > now then Some(l[|l| - 1].info)
    else LastLive(l[..|l| - 1], now, k)
  }

  lemma {:induction false} BootableSnoc(l: seq<SuperChat>, r: SuperChat, now: int)
    ensures Bootable(l + [r], now) == Bootable(l, now) + if r.key != "" && r.info.endTs > now then [r] else []
  {
    if l == [] {
      assert [r][1..] == [] && [] + [r] == [r] && [r] + [] == [r];
    } else {
      assert (l + [r])[1..] == l[1..] + [r];
      BootableSnoc(l[1..], r, now);
    }
  }

  /** A new bridge keeps, under every id, the last of the listed super chats that is not over. */
  lemma {:induction false} InitialLookup(l: seq<SuperChat>, now: int, k: string)
    ensures Lookup(InitialActive(l, now), k) == if k == "" then None else LastLive(l, now, k)
  {
    if l != [] {
      var init, r := l[..|l| - 1], l[|l| - 1];
      assert l == init + [r];
      InitialLookup(init, now, k);
      BootableSnoc(init, r, now);
      if r.key != "" && r.info.endTs > now {
        PutAllSnoc([], Bootable(init, now), r);
        PutMap(InitialActive(init, now), r);
      } else {
        assert Bootable(init, now) + [] == Bootable(init, now);
      }
    }
  }

  lemma NewStoreFaithful(l: seq<SuperChat>, now: int)
    ensures Faithful([], InitialActive(l, now), now)
  {
    PutAllFacts([], Bootable(l, now));
    BootableNamed(l, now);
    MapKeys(InitialActive(l, now));
  }

  lemma {:induction false} RunFaithful(s: Store, run: seq<Happening>)
    requires Faithful(s.history, s.active, s.clock) && Monotone(s.clock, run) && AllCoherent(s, run)
    ensures var t := After(s, run); Faithful(t.history, t.active, t.clock)
    ensures After(s, run).clock == if run == [] then s.clock else run[|run| - 1].now
  {
    if run != [] {
      var n := |run| - 1;
      var init := run[..n];
      forall i | 0 <= i < n ensures MeetsAt(s, init, i) {
        assert init[..i] == run[..i] && MeetsAt(s, run, i);
      }
      RunFaithful(s, init);
      var t := After(s, init);
      assert MeetsAt(s, run, n);
      match run[n] {
        case Arrives(e, now) => EventFaithful(t.history, t.active, t.clock, e, now);
        case Joins(now) => JoinFaithful(t.history, t.active, t.clock, now);
      }
    }
  }

  lemma FaithfulLater(h: seq<Event>, a: seq<SuperChat>, clock: int, now: int)
    requires Faithful(h, a, clock) && clock <= now
    ensures Faithful(h, a, now)
  {
  }

  lemma CoherentRunConverges(s: Store, run: seq<Happening>)
    requires Faithful(s.history, s.active, s.clock) && Monotone(s.clock, run) && AllCoherent(s, run)
    ensures JoinersConverge(s, run)
  {
    forall i | 0 <= i <= |run| ensures JoinersConvergeAt(s, run, i) {
      PrefixCoherent(s, run, i);
      RunFaithful(s, run[..i]);
      var t := After(s, run[..i]);
      forall now, ms | now >= t.clock && ms >= 1000 * now ensures Converges(t.history, t.active, now, ms) {
        FaithfulLater(t.history, t.active, t.clock, now);
        FaithfulConverges(t.history, t.active, now, ms);
      }
    }
  }

  lemma PrefixCoherent(s: Store, run: seq<Happening>, n: nat)
    requires n <= |run| && Monotone(s.clock, run)
    requires forall i :: 0 <= i < n ==> MeetsAt(s, run, i)
    ensures Monotone(s.clock, run[..n]) && AllCoherent(s, run[..n])
  {
    forall i | 0 <= i < n ensures MeetsAt(s, run[..n], i) {
      assert run[..n][..i] == run[..i] && MeetsAt(s, run, i);
    }
  }

  lemma ConvergesAfter(s: Store, run: seq<Happening>, n: nat)
    requires n < |run| && run[n].Arrives? && JoinersConvergeAt(s, run, n + 1)
    ensures var t, x := After(s, run[..n]), run[n];
            Converges(Append(t.history, x.event), Remember(t.active, x.event, x.now), x.now, 1000 * x.now)
  {
    var r := run[..n + 1];
    assert r[..n] == run[..n] && r[n] == run[n];
    var u := After(s, r);
    assert Converges(u.history, u.active, run[n].now, 1000 * run[n].now);
  }

  lemma NextMeets(s: Store, run: seq<Happening>, n: nat)
    requires n < |run| && JoinersConvergeAt(s, run, n + 1)
    requires Faithful(After(s, run[..n]).history, After(s, run[..n]).active, After(s, run[..n]).clock)
    ensures MeetsAt(s, run, n)
  {
    if run[n].Arrives? {
      var t, x := After(s, run[..n]), run[n];
      ConvergesAfter(s, run, n);
      if !Coherent(x.event, t.active, x.now) {
        IncoherentDiverges(t.history, t.active, t.clock, x.event, x.now);
      }
    }
  }

  lemma {:induction false} ConvergentRunCoherent(s: Store, run: seq<Happening>, n: nat)
    requires n <= |run|
    requires Faithful(s.history, s.active, s.clock) && Monotone(s.clock, run) && JoinersConverge(s, run)
    ensures forall i :: 0 <= i < n ==> MeetsAt(s, run, i)
    decreases n
  {
    if n > 0 {
      ConvergentRunCoherent(s, run, n - 1);
      PrefixCoherent(s, run, n - 1);
      RunFaithful(s, run[..n - 1]);
      NextMeets(s, run, n - 1);
    }
  }

  /** On a clock that never goes back, late joiners always converge if and only if every super chat met the guard
      when it arrived: also long after its event has left the history. */
  lemma LateJoinersConverge(l: seq<SuperChat>, boot: int, run: seq<Happening>)
    requires Monotone(boot, run)
    ensures JoinersConverge(NewStore(l, boot), run) <==> AllCoherent(NewStore(l, boot), run)
  {
    var s := NewStore(l, boot);
    NewStoreFaithful(l, boot);
    if AllCoherent(s, run) {
      CoherentRunConverges(s, run);
    }
    if JoinersConverge(s, run) {
      ConvergentRunCoherent(s, run, |run|);
    }
  }

  // -------- the guard holds when every id keeps one end time

  ghost predicate OneEndTime(ends: string -> int, a: seq<SuperChat>) {
    forall k :: Lookup(a, k).Some? ==> Lookup(a, k).value.endTs == ends(k)
  }

  lemma NextOneEndTime(t: Store, x: Happening, ends: string -> int)
    requires Unique(t.active) && Lookup(t.active, "") == None && OneEndTime(ends, t.active)
    requires x.Arrives? && x.event.Sc? ==> x.event.sc.key != "" && x.event.sc.info.endTs == ends(x.event.sc.key)
    ensures Meets(x, t.active)
    ensures var a := Next(t, x).active; Unique(a) && Lookup(a, "") == None && OneEndTime(ends, a)
  {
    PruneFacts(t.active, x.now);
    if x.Arrives? {
      RememberFacts(t.active, x.event, x.now);
    }
  }

  lemma {:induction false} OneEndTimeCoherent(s: Store, run: seq<Happening>, ends: string -> int)
    requires Unique(s.active) && Lookup(s.active, "") == None && OneEndTime(ends, s.active)
    requires forall i :: 0 <= i < |run| && run[i].Arrives? && run[i].event.Sc? ==>
               run[i].event.sc.key != "" && run[i].event.sc.info.endTs == ends(run[i].event.sc.key)
    ensures AllCoherent(s, run)
    ensures var a := After(s, run).active; Unique(a) && Lookup(a, "") == None && OneEndTime(ends, a)
  {
    if run != [] {
      var n := |run| - 1;
      var init := run[..n];
      OneEndTimeCoherent(s, init, ends);
      NextOneEndTime(After(s, init), run[n], ends);
      assert MeetsAt(s, run, n);
      forall i | 0 <= i < n ensures MeetsAt(s, run, i) {
        assert run[..i] == init[..i] && init[i] == run[i] && MeetsAt(s, init, i);
      }
    }
  }

  // -------- a browser that stays connected keeps up with the bridge too

  /** What moves a browser's cards: an event that it hears, or the timer of a card, at any time after the card is
      over. */
  datatype Seen = Hears(event: Event, ms: int) | Fires(id: string, ms: int)

  function See(cards: seq<SuperChat>, x: Seen): seq<SuperChat> {
    match x
    case Hears(e, ms) => Show(cards, e, ms)
    case Fires(id, ms) =>
      if Lookup(cards, id).Some? && Lookup(cards, id).value.endTs * 1000 <= ms then Remove(cards, id) else cards
  }

  function Watch(cards: seq<SuperChat>, seen: seq<Seen>): seq<SuperChat> {
    if seen == [] then cards else See(Watch(cards, seen[..|seen| - 1]), seen[|seen| - 1])
  }

  function HeardOf(seen: seq<Seen>): seq<Event> {
    if seen == [] then []
    else HeardOf(seen[..|seen| - 1]) + if seen[|seen| - 1].Hears? then [seen[|seen| - 1].event] else []
  }

  ghost predicate SeenBy(seen: seq<Seen>, ms: int) {
    forall i :: 0 <= i < |seen| ==> seen[i].ms <= ms
  }

  function Arrived(run: seq<Happening>): seq<Event> {
    if run == [] then []
    else Arrived(run[..|run| - 1]) + if run[|run| - 1].Arrives? then [run[|run| - 1].event] else []
  }

  /** The last word of the events on k, or what was the case before them. */
  function Said(events: seq<Event>, k: string, before: Option<ScInfo>): Option<ScInfo> {
    if LastMention(events, k).Some? then LastMention(events, k).value else before
  }

  lemma SaidSnoc(events: seq<Event>, e: Event, k: string, before: Option<ScInfo>)
    ensures Said(events + [e], k, before)
         == if Mentions(e, k) then (if e.Sc? then Some(e.sc.info) else None) else Said(events, k, before)
  {
    assert (events + [e])[..|events|] == events;
  }

  ghost predicate Agrees(cards: seq<SuperChat>, a: seq<SuperChat>, ms: int) {
    forall k :: LiveAt(Lookup(cards, k), ms) == LiveAt(Lookup(a, k), ms)
  }

  /** Whenever the browser hears the events, and whenever its timers fire: of the cards that are not over it shows
      exactly the last word on every id. */
  lemma {:induction false} WatchFacts(cards: seq<SuperChat>, seen: seq<Seen>, ms: int, k: string)
    requires Unique(cards) && SeenBy(seen, ms)
    ensures Unique(Watch(cards, seen))
    ensures LiveAt(Lookup(Watch(cards, seen), k), ms) == LiveAt(Said(HeardOf(seen), k, Lookup(cards, k)), ms)
  {
    if seen != [] {
      var init, x := seen[..|seen| - 1], seen[|seen| - 1];
      WatchFacts(cards, init, ms, k);
      match x {
        case Hears(e, t) =>
          ShowFacts(Watch(cards, init), e, t);
          SaidSnoc(HeardOf(init), e, k, Lookup(cards, k));
        case Fires(id, t) =>
          RemoveFacts(Watch(cards, init), id);
          assert HeardOf(seen) == HeardOf(init);
      }
    }
  }

  ghost predicate Past(run: seq<Happening>, ms: int) {
    forall i :: 0 <= i < |run| ==> 1000 * run[i].now <= ms
  }

  /** So do the bridge's active super chats, if the super chats meet the guard. */
  lemma {:induction false} RunSays(s: Store, run: seq<Happening>, ms: int, k: string)
    requires Unique(s.active) && Lookup(s.active, "") == None && AllCoherent(s, run) && Past(run, ms)
    ensures Unique(After(s, run).active) && Lookup(After(s, run).active, "") == None
    ensures LiveAt(Lookup(After(s, run).active, k), ms) == LiveAt(Said(Arrived(run), k, Lookup(s.active, k)), ms)
  {
    if run != [] {
      var n := |run| - 1;
      var init, x := run[..n], run[n];
      forall i | 0 <= i < n ensures MeetsAt(s, init, i) {
        assert init[..i] == run[..i] && MeetsAt(s, run, i);
      }
      RunSays(s, init, ms, k);
      assert MeetsAt(s, run, n);
      NextSays(After(s, init), x, Arrived(init), ms, k, Lookup(s.active, k));
    }
  }

  lemma NextSays(t: Store, x: Happening, told: seq<Event>, ms: int, k: string, before: Option<ScInfo>)
    requires Unique(t.active) && Lookup(t.active, "") == None && Meets(x, t.active) && 1000 * x.now <= ms
    requires LiveAt(Lookup(t.active, k), ms) == LiveAt(Said(told, k, before), ms)
    ensures var a := Next(t, x).active;
            && Unique(a) && Lookup(a, "") == None
            && LiveAt(Lookup(a, k), ms)
               == LiveAt(Said(told + if x.Arrives? then [x.event] else [], k, before), ms)
  {
    PruneFacts(t.active, x.now);
    match x
    case Arrives(e, now) =>
      RememberFacts(t.active, e, now);
      SaidSnoc(told, e, k, before);
    case Joins(_) =>
      assert told + [] == told;
  }

  /** A browser that agrees with the bridge, and then hears every event, however late, still agrees with it at any time
      when all of that is over, if the super chats meet the guard. */
  lemma StaysInStep(cards: seq<SuperChat>, s: Store, run: seq<Happening>, seen: seq<Seen>, start: int, ms: int)
    requires Unique(cards) && Unique(s.active) && Lookup(s.active, "") == None
    requires Agrees(cards, s.active, start) && start <= ms
    requires AllCoherent(s, run) && HeardOf(seen) == Arrived(run)
    requires SeenBy(seen, ms) && Past(run, ms)
    ensures Unique(Watch(cards, seen)) && Agrees(Watch(cards, seen), After(s, run).active, ms)
  {
    WatchFacts(cards, seen, ms, "");
    forall k ensures LiveAt(Lookup(Watch(cards, seen), k), ms) == LiveAt(Lookup(After(s, run).active, k), ms) {
      WatchFacts(cards, seen, ms, k);
      RunSays(s, run, ms, k);
      assert LiveAt(Lookup(cards, k), start) == LiveAt(Lookup(s.active, k), start);
    }
  }

  lemma {:induction false} AfterConcat(s: Store, a: seq<Happening>, b: seq<Happening>)
    ensures After(s, a + b) == After(After(s, a), b)
    decreases b
  {
    if b == [] {
      assert a + b == a;
    } else {
      assert (a + b)[..|a + b| - 1] == a + b[..|b| - 1];
      AfterConcat(s, a, b[..|b| - 1]);
    }
  }

  lemma JoinSlices<T>(s: seq<T>, n: nat, i: nat)
    requires n + i <= |s|
    ensures s[..n] + s[n..][..i] == s[..n + i]
    ensures n + i < |s| ==> s[n..][i] == s[n + i]
  {
    assert s[n..][..i] == s[n..n + i];
    assert s[..n + i] == s[..n] + s[n..n + i];
  }

  lemma SuffixCoherent(s: Store, run: seq<Happening>, n: nat)
    requires n <= |run| && AllCoherent(s, run)
    ensures AllCoherent(After(s, run[..n]), run[n..])
  {
    forall i | 0 <= i < |run| - n ensures MeetsAt(After(s, run[..n]), run[n..], i) {
      AfterConcat(s, run[..n], run[n..][..i]);
      JoinSlices(run, n, i);
      assert MeetsAt(s, run, n + i);
    }
  }

  lemma AfterSplit(s: Store, run: seq<Happening>, n: nat)
    requires n <= |run|
    ensures After(s, run) == After(After(s, run[..n]), run[n..])
  {
    AfterConcat(s, run[..n], run[n..]);
    assert run == run[..n] + run[n..];
  }

  lemma FaithfulAt(l: seq<SuperChat>, boot: int, run: seq<Happening>, i: nat)
    requires Monotone(boot, run) && AllCoherent(NewStore(l, boot), run) && i < |run|
    ensures var u := After(NewStore(l, boot), run[..i]); Faithful(u.history, u.active, run[i].now)
  {
    var s := NewStore(l, boot);
    NewStoreFaithful(l, boot);
    PrefixCoherent(s, run, i);
    RunFaithful(s, run[..i]);
    var u := After(s, run[..i]);
    FaithfulLater(u.history, u.active, u.clock, run[i].now);
  }

  // -------- a browser that joins again keeps the cards that it has

  /** Every card that the browser still shows, and the bridge no longer has, is spoken of in the last 50 events before
      the browser joins, or in those that come `later`. */
  ghost predicate Covered(
    cards: seq<SuperChat>, h: seq<Event>, a: seq<SuperChat>, later: seq<Event>, now: int, ms: int)
  {
    forall k :: LiveAt(Lookup(cards, k), ms).Some? && Lookup(Prune(a, now), k).None? ==> Mentioned(Recent(h) + later, k)
  }

  predicate Mentioned(events: seq<Event>, k: string) { LastMention(events, k).Some? }

  /** What a replay says about k, to a browser that shows `shown` for it. */
  lemma ReplaySays(h: seq<Event>, a: seq<SuperChat>, now: int, ms: int, k: string, shown: Option<ScInfo>)
    requires Faithful(h, a, now) && ms >= 1000 * now
    ensures LiveAt(Said(Snapshot(h, a, now), k, shown), ms) == LiveAt(Lookup(a, k), ms)
       <==> (LiveAt(shown, ms).Some? && Lookup(Prune(a, now), k).None? ==> Mentioned(Recent(h), k))
  {
    var ids := ScIds(Recent(h));
    MentionConcat(Pinned(Prune(a, now), ids), Recent(h), k);
    MentionLastN(h, MAX_SNAPSHOT, k);
    PruneFacts(a, now);
    PinnedMention(Prune(a, now), ids, k);
    if k in ids {
      MentionedIds(Recent(h), k);
    }
  }

  /** From the moment of joining: u is the bridge's store, and `rest` is what happens from then on. */
  lemma JoinedAgrees(u: Store, rest: seq<Happening>, now: int, cards: seq<SuperChat>, seen: seq<Seen>, ms: int)
    requires Unique(cards) && Faithful(u.history, u.active, now) && ms >= 1000 * now
    requires AllCoherent(u, rest) && Past(rest, ms)
    requires HeardOf(seen) == Snapshot(u.history, u.active, now) + Arrived(rest) && SeenBy(seen, ms)
    ensures Unique(Watch(cards, seen))
    ensures Agrees(Watch(cards, seen), After(u, rest).active, ms)
       <==> Covered(cards, u.history, u.active, Arrived(rest), now, ms)
  {
    WatchFacts(cards, seen, ms, "");
    forall k ensures LiveAt(Lookup(Watch(cards, seen), k), ms) == LiveAt(Lookup(After(u, rest).active, k), ms)
                <==> (LiveAt(Lookup(cards, k), ms).Some? && Lookup(Prune(u.active, now), k).None? ==>
                        Mentioned(Recent(u.history) + Arrived(rest), k))
    {
      WatchFacts(cards, seen, ms, k);
      RunSays(u, rest, ms, k);
      ReplaySays(u.history, u.active, now, ms, k, Lookup(cards, k));
      MentionConcat(Snapshot(u.history, u.active, now), Arrived(rest), k);
      MentionConcat(Recent(u.history), Arrived(rest), k);
    }
  }

  /** A browser joins a run, with the cards that it already has, and hears its replay and every later event. At the end
      it agrees with the bridge if and only if the replay and the later events cover those cards; without any it always
      does. */
  lemma JoinerStaysInStep(
    l: seq<SuperChat>, boot: int, run: seq<Happening>, i: nat, cards: seq<SuperChat>, seen: seq<Seen>, ms: int)
    requires Monotone(boot, run) && AllCoherent(NewStore(l, boot), run)
    requires i < |run| && run[i].Joins? && Unique(cards)
    requires var u := After(NewStore(l, boot), run[..i]);
             HeardOf(seen) == Snapshot(u.history, u.active, run[i].now) + Arrived(run[i..])
    requires SeenBy(seen, ms) && Past(run, ms)
    ensures Unique(Watch(cards, seen))
    ensures var u := After(NewStore(l, boot), run[..i]);
            Agrees(Watch(cards, seen), After(NewStore(l, boot), run).active, ms)
            <==> Covered(cards, u.history, u.active, Arrived(run[i..]), run[i].now, ms)
    ensures cards == [] ==> Agrees(Watch(cards, seen), After(NewStore(l, boot), run).active, ms)
  {
    var u := After(NewStore(l, boot), run[..i]);
    FaithfulAt(l, boot, run, i);
    SuffixCoherent(NewStore(l, boot), run, i);
    AfterSplit(NewStore(l, boot), run, i);
    JoinedAgrees(u, run[i..], run[i].now, cards, seen, ms);
  }

  // -------- a short gap is covered, a longer one need not be

  /** The last 50 events after a run. */
  lemma {:induction false} RecentGrows(s: Store, run: seq<Happening>)
    ensures Recent(After(s, run).history) == LastN(s.history + Arrived(run), MAX_SNAPSHOT)
  {
    if run == [] {
      assert s.history + [] == s.history;
    } else {
      var init, x := run[..|run| - 1], run[|run| - 1];
      RecentGrows(s, init);
      if x.Arrives? {
        RecentNext(After(s, init).history, s.history + Arrived(init), x.event);
        assert s.history + (Arrived(init) + [x.event]) == (s.history + Arrived(init)) + [x.event];
      } else {
        assert Arrived(run) == Arrived(init);
      }
    }
  }

  lemma LastNext(s: seq<Event>, e: Event, n: nat, m: nat)
    requires 0 < n <= m
    ensures LastN(LastN(s, m) + [e], n) == LastN(s + [e], n)
  {
  }

  lemma RecentNext(h: seq<Event>, all: seq<Event>, e: Event)
    requires Recent(h) == LastN(all, MAX_SNAPSHOT)
    ensures Recent(Append(h, e)) == LastN(all + [e], MAX_SNAPSHOT)
  {
    LastLast(h + [e]);
    LastNext(h, e, MAX_SNAPSHOT, MAX_SNAPSHOT);
    LastNext(all, e, MAX_SNAPSHOT, MAX_SNAPSHOT);
  }

  lemma LastLast(s: seq<Event>)
    ensures LastN(LastN(s, MAX_HISTORY), MAX_SNAPSHOT) == LastN(s, MAX_SNAPSHOT)
  {
  }

  lemma TailMentions(before: seq<Event>, missed: seq<Event>, k: string)
    requires |missed| <= MAX_SNAPSHOT
    ensures Mentioned(missed, k) ==> Mentioned(LastN(before + missed, MAX_SNAPSHOT), k)
  {
    var all := before + missed;
    var last := LastN(all, MAX_SNAPSHOT);
    var front := last[..|last| - |missed|];
    assert last == front + missed;
    MentionConcat(front, missed, k);
  }

  /** A browser that agreed when it was cut off, and missed at most 50 events, is covered when it joins again, whatever
      they were. */
  lemma ShortGapCovered(
    cards: seq<SuperChat>, s: Store, gap: seq<Happening>, later: seq<Event>, now: int, start: int, ms: int)
    requires Unique(s.active) && Lookup(s.active, "") == None && Agrees(cards, s.active, start) && start <= ms
    requires AllCoherent(s, gap) && Past(gap, ms) && 1000 * now <= ms
    requires |Arrived(gap)| <= MAX_SNAPSHOT
    ensures var u := After(s, gap); Covered(cards, u.history, u.active, later, now, ms)
  {
    var u := After(s, gap);
    RecentGrows(s, gap);
    forall k | LiveAt(Lookup(cards, k), ms).Some? && Lookup(Prune(u.active, now), k).None?
      ensures Mentioned(Recent(u.history) + later, k)
    {
      RunSays(s, gap, ms, k);
      PruneFacts(u.active, now);
      assert LiveAt(Lookup(cards, k), start) == LiveAt(Lookup(s.active, k), start);
      assert LiveAt(Lookup(u.active, k), ms) == None;
      TailMentions(s.history, Arrived(gap), k);
      MentionConcat(Recent(u.history), later, k);
    }
  }

  /** So a browser that agreed with the bridge after j happenings, and joins again before more than 50 events have
      passed, agrees again. */
  lemma ShortGapConverges(l: seq<SuperChat>, boot: int, run: seq<Happening>, j: nat, i: nat, cards: seq<SuperChat>,
                          start: int, seen: seq<Seen>, ms: int)
    requires Monotone(boot, run) && AllCoherent(NewStore(l, boot), run)
    requires j <= i < |run| && run[i].Joins? && |Arrived(run[j..i])| <= MAX_SNAPSHOT
    requires Unique(cards) && Agrees(cards, After(NewStore(l, boot), run[..j]).active, start) && start <= ms
    requires var u := After(NewStore(l, boot), run[..i]);
             HeardOf(seen) == Snapshot(u.history, u.active, run[i].now) + Arrived(run[i..])
    requires SeenBy(seen, ms) && Past(run, ms)
    ensures Agrees(Watch(cards, seen), After(NewStore(l, boot), run).active, ms)
  {
    var s := NewStore(l, boot);
    GapCoherent(s, run, j, i);
    FaithfulAt(l, boot, run, j);
    ShortGapCovered(cards, After(s, run[..j]), run[j..i], Arrived(run[i..]), run[i].now, start, ms);
    JoinerStaysInStep(l, boot, run, i, cards, seen, ms);
  }

  lemma GapCoherent(s: Store, run: seq<Happening>, j: nat, i: nat)
    requires j <= i <= |run| && AllCoherent(s, run)
    ensures AllCoherent(After(s, run[..j]), run[j..i]) && After(s, run[..i]) == After(After(s, run[..j]), run[j..i])
  {
    forall m | 0 <= m < i ensures MeetsAt(s, run[..i], m) {
      assert run[..i][..m] == run[..m] && MeetsAt(s, run, m);
    }
    assert run[..i][..j] == run[..j] && run[..i][j..] == run[j..i];
    SuffixCoherent(s, run[..i], j);
    AfterSplit(s, run[..i], j);
  }

  /** A card whose deletion is followed by 50 events that do not mention it is not covered: a browser that shows it, is
      cut off before the deletion and joins again after those events goes on showing it. */
  lemma LongGapDiverges(cards: seq<SuperChat>, s: Store, gap: seq<Happening>, before: seq<Event>, after: seq<Event>,
                        k: string, now: int, seen: seq<Seen>, ms: int)
    requires Unique(cards) && LiveAt(Lookup(cards, k), ms).Some?
    requires Faithful(s.history, s.active, s.clock) && Monotone(s.clock, gap) && AllCoherent(s, gap)
    requires Past(gap, 1000 * now) && s.clock <= now && 1000 * now <= ms
    requires Arrived(gap) == before + after && LastMention(before, k) == Some(None)
    requires |after| >= MAX_SNAPSHOT && !Mentioned(after, k)
    requires var u := After(s, gap); HeardOf(seen) == Snapshot(u.history, u.active, now) && SeenBy(seen, ms)
    ensures var u := After(s, gap);
            && !Covered(cards, u.history, u.active, [], now, ms)
            && LiveAt(Lookup(u.active, k), ms) == None
            && LiveAt(Lookup(Watch(cards, seen), k), ms) == LiveAt(Lookup(cards, k), ms)
  {
    var u := After(s, gap);
    RunFaithful(s, gap);
    FaithfulLater(u.history, u.active, u.clock, now);
    RunSays(s, gap, 1000 * now, k);
    MentionConcat(before, after, k);
    PruneFacts(u.active, now);
    RecentGrows(s, gap);
    LastOfTwo(s.history, before, after);
    MentionLastN(after, MAX_SNAPSHOT, k);
    WatchFacts(cards, seen, ms, k);
    NotPinned(u.history, u.active, now, k);
    assert Recent(u.history) + [] == Recent(u.history);
    assert LiveAt(Lookup(cards, k), ms).Some? && Lookup(Prune(u.active, now), k).None?;
  }

  lemma LastOfTwo(h: seq<Event>, before: seq<Event>, after: seq<Event>)
    requires |after| >= MAX_SNAPSHOT
    ensures LastN(h + (before + after), MAX_SNAPSHOT) == LastN(after, MAX_SNAPSHOT)
  {
  }

  lemma NotPinned(h: seq<Event>, a: seq<SuperChat>, now: int, k: string)
    requires Unique(a) && Lookup(Prune(a, now), k).None? && !Mentioned(Recent(h), k)
    ensures !Mentioned(Snapshot(h, a, now), k)
  {
    PruneFacts(a, now);
    PinnedMention(Prune(a, now), ScIds(Recent(h)), k);
    MentionConcat(Pinned(Prune(a, now), ScIds(Recent(h))), Recent(h), k);
  }

  lemma ArrivedSnoc(run: seq<Happening>, x: Happening)
    ensures Arrived(run + [x]) == Arrived(run) + if x.Arrives? then [x.event] else []
  {
    assert (run + [x])[..|run|] == run;
  }

  const CARD: SuperChat := Row("7", ScInfo(100, 1))

  function Chats(n: nat): seq<Happening> {
    if n == 0 then [] else Chats(n - 1) + [Arrives(Danmaku(0), 1)]
  }

  lemma {:induction false} ChatsFacts(n: nat)
    ensures |Arrived(Chats(n))| == n && !Mentioned(Arrived(Chats(n)), "7")
    ensures forall x :: x in Chats(n) ==> x == Arrives(Danmaku(0), 1)
    decreases n
  {
    if n > 0 {
      var init := Chats(n - 1);
      ChatsFacts(n - 1);
      ArrivedSnoc(init, Arrives(Danmaku(0), 1));
      MentionConcat(Arrived(init), [Danmaku(0)], "7");
      assert [Danmaku(0)][..0] == [];
    }
  }

  lemma {:induction false} ArrivedConcat(a: seq<Happening>, b: seq<Happening>)
    ensures Arrived(a + b) == Arrived(a) + Arrived(b)
    decreases b
  {
    if b == [] {
      assert a + b == a && Arrived(a) + [] == Arrived(a);
    } else {
      assert (a + b)[..|a + b| - 1] == a + b[..|b| - 1];
      ArrivedConcat(a, b[..|b| - 1]);
    }
  }

  /** Card 7 is deleted, and then there is talk. */
  function Missed(talk: nat): seq<Happening> {
    [Arrives(ScDelete(["7"]), 1)] + Chats(talk)
  }

  lemma CardBoots()
    ensures NewStore([CARD], 0).active == [CARD]
  {
    var none: seq<SuperChat> := [];
    assert [CARD][1..] == none && Bootable(none, 0) == none && Bootable([CARD], 0) == [CARD] + none == [CARD];
    assert Put(none, CARD) == [CARD] && PutAll([CARD], none) == [CARD];
  }

  lemma MissedArrive(talk: nat)
    ensures Arrived(Missed(talk)) == [ScDelete(["7"])] + Arrived(Chats(talk))
    ensures LastMention([ScDelete(["7"])], "7") == Some(None)
  {
    var deletion := Arrives(ScDelete(["7"]), 1);
    ArrivedConcat([deletion], Chats(talk));
    ArrivedSnoc([], deletion);
    assert [] + [deletion] == [deletion];
    assert [ScDelete(["7"])][..0] == [];
  }

  /** Without super chats there is nothing to guard. */
  lemma QuietCoherent(s: Store, run: seq<Happening>)
    requires forall x :: x in run && x.Arrives? ==> !x.event.Sc?
    ensures AllCoherent(s, run)
  {
    forall i | 0 <= i < |run| ensures MeetsAt(s, run, i) {
      assert run[i] in run;
    }
  }

  lemma MissedQuiet(s: Store, talk: nat)
    ensures Monotone(0, Missed(talk)) && Past(Missed(talk), 1000) && AllCoherent(s, Missed(talk))
  {
    var gap := Missed(talk);
    ChatsFacts(talk);
    forall i | 0 <= i < |gap| ensures gap[i].now == 1 {
      assert i > 0 ==> gap[i] in Chats(talk);
    }
    QuietCoherent(s, gap);
  }

  /** On concrete input: the card that was deleted goes on being shown, if there was enough talk. */
  lemma MissedDeletionStays(talk: nat, seen: seq<Seen>)
    requires talk >= MAX_SNAPSHOT
    requires var u := After(NewStore([CARD], 0), Missed(talk));
             HeardOf(seen) == Snapshot(u.history, u.active, 1) && SeenBy(seen, 1000)
    ensures NewStore([CARD], 0).active == [CARD]
    ensures LiveAt(Lookup(After(NewStore([CARD], 0), Missed(talk)).active, "7"), 1000) == None
    ensures LiveAt(Lookup(Watch([CARD], seen), "7"), 1000) == Some(CARD.info)
  {
    CardBoots();
    MissedArrive(talk);
    MissedQuiet(NewStore([CARD], 0), talk);
    ChatsFacts(talk);
    NewStoreFaithful([CARD], 0);
    assert Lookup([CARD], "7") == Some(CARD.info);
    LongGapDiverges([CARD], NewStore([CARD], 0), Missed(talk), [ScDelete(["7"])], Arrived(Chats(talk)), "7", 1, seen,
                    1000);
  }

  // -------- the two ways to break the guard, on concrete input

  /** An id that comes again with an end that is over. */
  lemma ChangedEndTimeDiverges()
    ensures var s := NewStore([], 0);
            var run := [Arrives(Sc(Row("7", ScInfo(100, 1))), 10), Arrives(Sc(Row("7", ScInfo(50, 2))), 60)];
            && Lookup(After(s, run).active, "7") == Some(ScInfo(100, 1))
            && Lookup(Fold(Snapshot(After(s, run).history, After(s, run).active, 60), 60_000), "7") == None
  {
    var s := NewStore([], 0);
    var first := Arrives(Sc(Row("7", ScInfo(100, 1))), 10);
    var second := Arrives(Sc(Row("7", ScInfo(50, 2))), 60);
    var run := [first, second];
    var t := After(s, [first]);
    NewStoreFaithful([], 0);
    assert [first][..0] == [] && run[..1] == [first] && After(s, []) == s;
    assert s.active == [] && s.history == [];
    RememberFacts([], first.event, 10);
    PruneFacts([], 10);
    assert Lookup(t.active, "7") == Some(ScInfo(100, 1));
    RememberFacts(t.active, second.event, 60);
    PruneFacts(t.active, 60);
    AppendMention(t.history, second.event, "7");
    SnapshotLookup(After(s, run).history, After(s, run).active, 60, 60_000, "7");
  }

  /** What the bridge's own test for an id is there for; the session gives every super chat an id. */
  lemma EmptyIdDiverges()
    ensures var s := NewStore([], 0);
            var run := [Arrives(Sc(Row("", ScInfo(100, 1))), 10)];
            && Lookup(After(s, run).active, "") == None
            && Lookup(Fold(Snapshot(After(s, run).history, After(s, run).active, 10), 10_000), "")
               == Some(ScInfo(100, 1))
  {
    var s := NewStore([], 0);
    var x := Arrives(Sc(Row("", ScInfo(100, 1))), 10);
    assert [x][..0] == [] && After(s, []) == s;
    RememberFacts([], x.event, 10);
    AppendMention([], x.event, "");
    SnapshotLookup(After(s, [x]).history, After(s, [x]).active, 10, 10_000, "");
  }
}
