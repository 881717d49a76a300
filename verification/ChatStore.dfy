/** The browser's chat store: the last messages, the pinned super chats, and one expiry timer per pinned card. */
module ChatStore {
  import opened OrderedDict
  import opened Replay

  const DANMAKU_CAP := 1000
  const SC_CAP := 20

  type Handle = nat

  /** A pending `setTimeout`: it will take this card off at this time. */
  datatype Timer = Timer(id: string, due: int)

  /** The timers that can still fire are exactly one for each card shown, set for the end of that very card. */
  ghost predicate Armed(
    cards: map<string, ScInfo>, timers: map<string, Handle>, pending: map<Handle, Timer>, next: Handle)
  {
    && timers.Keys == cards.Keys
    && (forall k :: k in timers ==> timers[k] in pending && pending[timers[k]] == Timer(k, cards[k].endTs * 1000))
    && (forall h :: h in pending ==> h < next && pending[h].id in timers && timers[pending[h].id] == h)
  }

  /** At any time the cards that a due timer is about to take off are exactly the cards that are over. */
  lemma DueTimers(cards: map<string, ScInfo>, timers: map<string, Handle>, pending: map<Handle, Timer>, next: Handle,
                  ms: int)
    requires Armed(cards, timers, pending, next)
    ensures (set h | h in pending && pending[h].due <= ms :: pending[h].id)
         == (set k | k in cards && cards[k].endTs * 1000 <= ms)
  {
    forall k | k in cards && cards[k].endTs * 1000 <= ms
      ensures k in (set h | h in pending && pending[h].due <= ms :: pending[h].id)
    {
      assert timers[k] in pending && pending[timers[k]].id == k;
    }
  }

  /** The timers left when those of `gone` are cleared. */
  ghost function Kept(pending: map<Handle, Timer>, gone: set<string>): map<Handle, Timer> {
    map h | h in pending && pending[h].id !in gone :: pending[h]
  }

  ghost function Among(cards: map<string, ScInfo>, keep: set<string>): map<string, ScInfo> {
    map k | k in cards && k in keep :: cards[k]
  }

  /** The cards that are retained, and those of `todo`. */
  ghost predicate Between(
    left: map<string, ScInfo>, cards: map<string, ScInfo>, retained: set<string>, todo: set<string>)
  {
    && todo !! retained
    && left == Among(cards, retained + todo)
  }

  lemma BetweenNext(
    left: map<string, ScInfo>, cards: map<string, ScInfo>, retained: set<string>, todo: set<string>, k: string)
    requires Between(left, cards, retained, todo) && k in todo
    ensures Between(left - {k}, cards, retained, todo - {k})
  {
  }

  lemma Disarm(cards: map<string, ScInfo>, timers: map<string, Handle>, pending: map<Handle, Timer>, next: Handle,
               gone: set<string>)
    requires Armed(cards, timers, pending, next)
    ensures Armed(cards - gone, timers - gone, Kept(pending, gone), next)
  {
  }

  lemma Arm(cards: map<string, ScInfo>, timers: map<string, Handle>, pending: map<Handle, Timer>, next: Handle,
            k: string, info: ScInfo)
    requires Armed(cards, timers, pending, next) && k !in cards
    ensures Armed(cards[k := info], timers[k := next], pending[next := Timer(k, info.endTs * 1000)], next + 1)
  {
  }

  lemma ClearOne(cards: map<string, ScInfo>, timers: map<string, Handle>, pending: map<Handle, Timer>, next: Handle,
                 k: string)
    requires Armed(cards, timers, pending, next)
    ensures Kept(pending, {k}) == if k in timers then pending - {timers[k]} else pending
  {
  }

  /** Spelled out: the list is what was added, up to the last 1000. */
  lemma LastThousand(added: seq<Event>)
    ensures LastN(added, DANMAKU_CAP) == if |added| <= 1000 then added else added[|added| - 1000..]
  {
  }

  class Store {
    var list: seq<Event>
    var scList: seq<SuperChat>
    var scExpiryTimers: map<string, Handle>
    var pending: map<Handle, Timer>   // the browser's own table of timers
    var nextHandle: Handle
    ghost var added: seq<Event>       // every chat message added since the last clear

    /** Card ids are unique, at most 20 cards are shown, the list is the last 1000 messages, and every card shown has
        its one timer. */
    ghost predicate Valid()
      reads this
    {
      && list == LastN(added, DANMAKU_CAP)
      && Unique(scList) && |scList| <= SC_CAP
      && Armed(AsMap(scList), scExpiryTimers, pending, nextHandle)
    }

    constructor ()
      ensures Valid() && added == [] && scList == []
    {
      list, scList, scExpiryTimers, pending, nextHandle, added := [], [], map[], map[], 0, [];
    }

    method AddDanmaku(e: Event)
      requires Valid()
      modifies this`list, this`added
      ensures Valid() && added == old(added) + [e]
    {
      list := list + [e];
      if |list| > DANMAKU_CAP {
        list := list[|list| - DANMAKU_CAP..];
      }
      added := added + [e];
    }

    /** The card takes the place of one with the same id; it comes first, and the 21st is dropped; a card whose time
        is over is not shown at all. */
    method AddSc(sc: SuperChat, nowMs: int)
      requires Valid()
      modifies this`scList, this`scExpiryTimers, this`pending, this`nextHandle
      ensures Valid()
      ensures scList == FirstN(Replay.AddSc(old(scList), sc, nowMs), SC_CAP)
      ensures scList == if sc.info.endTs * 1000 <= nowMs then Remove(old(scList), sc.key)
                        else [sc] + FirstN(Remove(old(scList), sc.key), 19)
    {
      RemoveOne(sc.key);
      var remainingMs := sc.info.endTs * 1000 - nowMs;
      if remainingMs <= 0 {
        return;
      }
      ghost var others := AsMap(scList);
      var shown := FirstN([sc] + scList, SC_CAP);
      RetainedFacts(sc, scList);
      DropTimers(Keys(shown), others);
      scList := shown;
      SetTimer(sc, nowMs + remainingMs, Among(others, Keys(shown)));
    }

    method SetTimer(sc: SuperChat, due: int, ghost others: map<string, ScInfo>)
      requires Armed(others, scExpiryTimers, pending, nextHandle)
      requires sc.key !in others && due == sc.info.endTs * 1000
      modifies this`scExpiryTimers, this`pending, this`nextHandle
      ensures Armed(others[sc.key := sc.info], scExpiryTimers, pending, nextHandle)
    {
      Arm(others, scExpiryTimers, pending, nextHandle, sc.key, sc.info);
      scExpiryTimers := scExpiryTimers[sc.key := nextHandle];
      pending := pending[nextHandle := Timer(sc.key, due)];
      nextHandle := nextHandle + 1;
    }

    /** Clear the timer of one id and forget it. */
    method ClearTimer(k: string, ghost cards: map<string, ScInfo>)
      requires Armed(cards, scExpiryTimers, pending, nextHandle) && k in scExpiryTimers
      modifies this`scExpiryTimers, this`pending
      ensures Armed(cards - {k}, scExpiryTimers, pending, nextHandle)
      ensures scExpiryTimers == old(scExpiryTimers) - {k} && pending == Kept(old(pending), {k})
    {
      ClearOne(cards, scExpiryTimers, pending, nextHandle, k);
      Disarm(cards, scExpiryTimers, pending, nextHandle, {k});
      pending := pending - {scExpiryTimers[k]};
      scExpiryTimers := scExpiryTimers - {k};
    }

    /** Clear every timer whose card is not retained. */
    method DropTimers(retained: set<string>, ghost cards: map<string, ScInfo>)
      requires Armed(cards, scExpiryTimers, pending, nextHandle)
      modifies this`scExpiryTimers, this`pending
      ensures Armed(Among(cards, retained), scExpiryTimers, pending, nextHandle)
    {
      var todo := scExpiryTimers.Keys - retained;
      ghost var left := cards;
      while todo != {}
        invariant todo <= scExpiryTimers.Keys && Between(left, cards, retained, todo)
        invariant Armed(left, scExpiryTimers, pending, nextHandle)
        decreases |todo|
      {
        var k :| k in todo;
        BetweenNext(left, cards, retained, todo, k);
        todo := todo - {k};
        ClearTimer(k, left);
        left := left - {k};
      }
      assert left == Among(cards, retained);
    }

    method RemoveOne(id: string)
      requires Valid()
      modifies this`scList, this`scExpiryTimers, this`pending
      ensures Valid() && scList == Remove(old(scList), id) && pending == Kept(old(pending), {id})
      ensures id !in AsMap(scList)
    {
      RemoveFacts(scList, id);
      RemoveShrinks(scList, id);
      ghost var cards := AsMap(scList);
      scList := Remove(scList, id);
      if id in scExpiryTimers {
        ClearTimer(id, cards);
      } else {
        ClearOne(cards, scExpiryTimers, pending, nextHandle, id);
        assert cards - {id} == cards;
      }
    }

    method RemoveSc(ids: seq<string>)
      requires Valid()
      modifies this`scList, this`scExpiryTimers, this`pending
      ensures Valid() && scList == RemoveAll(old(scList), ids)
    {
      assert ids[0..] == ids;
      for i := 0 to |ids|
        invariant Valid() && RemoveAll(old(scList), ids) == RemoveAll(scList, ids[i..])
      {
        assert ids[i..][1..] == ids[i + 1..];
        RemoveOne(ids[i]);
      }
    }

    /** A timer goes off: it takes off the card it was set for, whose end has come, and no other. */
    method Fire(handle: Handle)
      requires Valid() && handle in pending
      modifies this`scList, this`scExpiryTimers, this`pending
      ensures Valid() && handle !in pending
      ensures var t := old(pending)[handle];
              && scList == Remove(old(scList), t.id)
              && t.id in AsMap(old(scList)) && AsMap(old(scList))[t.id].endTs * 1000 == t.due
              && forall h :: h in old(pending) && h != handle ==> h in pending && pending[h] == old(pending)[h]
    {
      RemoveOne(pending[handle].id);
    }

    method Clear()
      requires Valid()
      modifies this
      ensures Valid() && list == [] && scList == [] && added == [] && pending == map[]
    {
      list, scList, scExpiryTimers, pending, added := [], [], map[], map[], [];
    }
  }

  function FirstN<T>(s: seq<T>, n: nat): seq<T> {
    if |s| <= n then s else s[..n]
  }

  lemma PrefixFacts(d: seq<SuperChat>, n: nat)
    requires Unique(d) && n <= |d|
    ensures Unique(d[..n]) && Keys(d[..n]) <= Keys(d)
    ensures AsMap(d[..n]) == Among(AsMap(d), Keys(d[..n]))
  {
    MapKeys(d);
    MapKeys(d[..n]);
    forall k | k in Keys(d[..n]) ensures k in Keys(d) && AsMap(d[..n])[k] == AsMap(d)[k] {
      var r :| r in d[..n] && r.key == k;
      var i :| 0 <= i < n && d[..n][i] == r;
      assert d[i] == r && r in d;
      MapAt(d, i);
      MapAt(d[..n], i);
    }
  }

  lemma FrontMap(sc: SuperChat, prefix: seq<SuperChat>)
    ensures AsMap([sc] + prefix) == AsMap(prefix)[sc.key := sc.info]
  {
    assert ([sc] + prefix)[1..] == prefix;
  }

  lemma AmongMore(cards: map<string, ScInfo>, keep: set<string>, k: string)
    requires k !in cards
    ensures Among(cards, {k} + keep) == Among(cards, keep)
  {
  }

  /** Putting a card in front of cards with other ids and cutting off after the 20th. */
  lemma RetainedFacts(sc: SuperChat, others: seq<SuperChat>)
    requires Unique(others) && sc.key !in AsMap(others)
    ensures var shown := FirstN([sc] + others, SC_CAP);
            && Unique(shown) && |shown| <= SC_CAP
            && AsMap(shown) == Among(AsMap(others), Keys(shown))[sc.key := sc.info]
  {
    var n := if |others| < SC_CAP then |others| else SC_CAP - 1;
    var prefix := others[..n];
    assert FirstN([sc] + others, SC_CAP) == [sc] + prefix;
    MapKeys(others);
    PrefixFacts(others, n);
    UniqueCons(sc, prefix);
    KeysCons(sc, prefix);
    FrontMap(sc, prefix);
    AmongMore(AsMap(others), Keys(prefix), sc.key);
  }

  lemma {:induction false} RemoveShrinks(d: seq<SuperChat>, k: string)
    ensures |Remove(d, k)| <= |d|
  {
    if d != [] {
      RemoveShrinks(d[1..], k);
    }
  }

  // -------- the cap

  /** A browser with its cap, moved by the same events and timers as one without. */
  function SeeCapped(cards: seq<SuperChat>, x: Seen): seq<SuperChat> {
    FirstN(See(cards, x), SC_CAP)
  }

  function WatchCapped(cards: seq<SuperChat>, seen: seq<Seen>): seq<SuperChat> {
    if seen == [] then cards else SeeCapped(WatchCapped(cards, seen[..|seen| - 1]), seen[|seen| - 1])
  }

  /** The store does exactly that. */
  method Follow(store: Store, seen: seq<Seen>)
    requires store.Valid()
    modifies store
    ensures store.Valid() && store.scList == WatchCapped(old(store.scList), seen)
  {
    for i := 0 to |seen|
      invariant store.Valid() && store.scList == WatchCapped(old(store.scList), seen[..i])
    {
      assert seen[..i + 1][..i] == seen[..i];
      FollowOne(store, seen[i]);
    }
    assert seen[..|seen|] == seen;
  }

  method FollowOne(store: Store, x: Seen)
    requires store.Valid()
    modifies store
    ensures store.Valid() && store.scList == SeeCapped(old(store.scList), x)
  {
    match x
    case Hears(e, ms) =>
      match e {
        case Danmaku(_) => store.AddDanmaku(e);
        case Sc(sc) => store.AddSc(sc, ms);
        case ScDelete(ids) => store.RemoveSc(ids);
        case RoomStatus(_) =>
      }
    case Fires(id, ms) =>
      if id in store.scExpiryTimers && store.pending[store.scExpiryTimers[id]].due <= ms {
        store.Fire(store.scExpiryTimers[id]);
      }
  }

  ghost predicate SameUpTo(cards: seq<SuperChat>, seen: seq<Seen>, n: nat)
    requires n <= |seen|
  {
    WatchCapped(cards, seen[..n]) == Watch(cards, seen[..n])
  }

  ghost predicate RoomUpTo(cards: seq<SuperChat>, seen: seq<Seen>, n: nat)
    requires n <= |seen|
  {
    |Watch(cards, seen[..n])| <= SC_CAP
  }

  lemma {:induction false} RoomSame(cards: seq<SuperChat>, seen: seq<Seen>, n: nat)
    requires n <= |seen| && forall m :: 0 <= m <= n ==> RoomUpTo(cards, seen, m)
    ensures SameUpTo(cards, seen, n)
    decreases n
  {
    if n > 0 {
      RoomSame(cards, seen, n - 1);
      assert seen[..n][..n - 1] == seen[..n - 1] && RoomUpTo(cards, seen, n);
    }
  }

  /** The cap is never noticed if and only if never more than 20 cards would be shown without it. */
  lemma CapUnnoticed(cards: seq<SuperChat>, seen: seq<Seen>)
    requires |cards| <= SC_CAP
    ensures (forall n :: 0 <= n <= |seen| ==> SameUpTo(cards, seen, n))
       <==> (forall n :: 0 <= n <= |seen| ==> RoomUpTo(cards, seen, n))
  {
    if forall n :: 0 <= n <= |seen| ==> RoomUpTo(cards, seen, n) {
      forall n | 0 <= n <= |seen| ensures SameUpTo(cards, seen, n) {
        RoomSame(cards, seen, n);
      }
    }
    if forall n :: 0 <= n <= |seen| ==> SameUpTo(cards, seen, n) {
      forall n | 0 <= n <= |seen| ensures RoomUpTo(cards, seen, n) {
        assert SameUpTo(cards, seen, n);
      }
    }
  }

  /** Every card of `some` is one of `all`. */
  ghost predicate Within(some: seq<SuperChat>, all: seq<SuperChat>) {
    forall k :: Lookup(some, k).Some? ==> Lookup(some, k) == Lookup(all, k)
  }

  lemma FiredLookup(cards: seq<SuperChat>, id: string, ms: int)
    requires Unique(cards)
    ensures Unique(See(cards, Fires(id, ms)))
    ensures forall k :: Lookup(See(cards, Fires(id, ms)), k)
                     == if k == id then LiveAt(Lookup(cards, id), ms) else Lookup(cards, k)
  {
    RemoveFacts(cards, id);
  }

  lemma SeeWithin(some: seq<SuperChat>, all: seq<SuperChat>, x: Seen)
    requires Unique(some) && Unique(all) && Within(some, all)
    ensures Unique(See(some, x)) && Unique(See(all, x)) && Within(See(some, x), See(all, x))
  {
    match x
    case Hears(e, ms) =>
      ShowFacts(some, e, ms);
      ShowFacts(all, e, ms);
    case Fires(id, ms) =>
      FiredLookup(some, id, ms);
      FiredLookup(all, id, ms);
      assert Lookup(some, id).Some? ==> Lookup(some, id) == Lookup(all, id);
  }

  /** Even where the cap is noticed, it only hides cards: what is shown is shown without it too, unchanged. */
  lemma {:induction false} CapOnlyHides(cards: seq<SuperChat>, seen: seq<Seen>)
    requires Unique(cards)
    ensures Unique(WatchCapped(cards, seen)) && Unique(Watch(cards, seen))
    ensures Within(WatchCapped(cards, seen), Watch(cards, seen))
  {
    if seen != [] {
      var init, x := seen[..|seen| - 1], seen[|seen| - 1];
      CapOnlyHides(cards, init);
      SeeWithin(WatchCapped(cards, init), Watch(cards, init), x);
      var shown := See(WatchCapped(cards, init), x);
      if |shown| > SC_CAP {
        PrefixFacts(shown, SC_CAP);
      }
    }
  }
}
