/** The ban-list manager: one cached dictionary of bans, and a socket to every subscribed browser. */
module BanList {
  import opened OrderedDict
  import opened BanEntry
  import opened BanStore

  type SubId = nat

  /** `sent` is what went to each subscriber's callback, ever; a browser's store is the fold of it. */
  datatype State = State(
    bans: seq<Ban>, room: Option<int>, task: bool, subscribers: seq<SubId>, sent: map<SubId, seq<Msg>>)

  datatype Act =
    | Start(room: int, fetched: Option<seq<Ban>>)    // None: the fetch raised
    | StopAll
    | Subscribe(id: SubId)
    | Unsubscribe(id: SubId)
    | OnBan(uid: int, entry: Option<Ban>)            // the normalized entry
    | OnUnban(uid: int)
    | Refresh(fetched: Option<seq<Ban>>)
    | Reconcile(fetched: Option<seq<Ban>>)           // one turn of the reconcile loop

  // ---------------------------------------------------------------- specification of the operations

  function SentTo(sent: map<SubId, seq<Msg>>, id: SubId): seq<Msg> { if id in sent then sent[id] else [] }

  function Send(sent: map<SubId, seq<Msg>>, id: SubId, m: Msg): map<SubId, seq<Msg>> {
    sent[id := SentTo(sent, id) + [m]]
  }

  /** The message to every subscriber in turn. */
  function Broadcast(sent: map<SubId, seq<Msg>>, ids: seq<SubId>, m: Msg): map<SubId, seq<Msg>>
    decreases ids
  {
    if ids == [] then sent else Broadcast(Send(sent, ids[0], m), ids[1..], m)
  }

  function PendingOnly(bans: seq<Ban>, except: set<int>): seq<Ban> {
    if bans == [] then []
    else (if bans[0].info.pending && bans[0].key !in except then [bans[0]] else []) + PendingOnly(bans[1..], except)
  }

  lemma {:induction false} PendingOnlySnoc(bans: seq<Ban>, b: Ban, except: set<int>)
    ensures PendingOnly(bans + [b], except)
         == PendingOnly(bans, except) + if b.info.pending && b.key !in except then [b] else []
  {
    if bans == [] {
      assert [b][1..] == [] && [] + [b] == [b];
    } else {
      assert (bans + [b])[1..] == bans[1..] + [b];
      PendingOnlySnoc(bans[1..], b, except);
    }
  }

  /** The fetched rows, and after them the cached pending rows that the fetch does not know. */
  function Refreshed(bans: seq<Ban>, rows: seq<Ban>, preserve: bool): seq<Ban> {
    PutAll([], rows) + if preserve then PendingOnly(bans, Keys(rows)) else []
  }

  function Tell(s: State, m: Msg): State { s.(sent := Broadcast(s.sent, s.subscribers, m)) }

  /** Without a room the fetch is not made and yields nothing. */
  function Fetch(s: State, fetched: Option<seq<Ban>>): Option<seq<Ban>> {
    if s.room.None? then Some([]) else fetched
  }

  function RefreshStep(s: State, fetched: Option<seq<Ban>>, preserve: bool): State {
    var rows := Fetch(s, fetched);
    if rows.None? then s
    else
      var next := Refreshed(s.bans, rows.value, preserve);
      Tell(s.(bans := next), SnapshotMsg(FullAll(next)))
  }

  function StopStep(s: State): State { s.(bans := [], room := None, task := false, subscribers := []) }

  function StartStep(s: State, room: int, fetched: Option<seq<Ban>>): State {
    var ready := (if s.task then StopStep(s) else s).(room := Some(room));
    var t := RefreshStep(ready, fetched, false);
    if fetched.None? then t else t.(task := true)
  }

  function Without(ids: seq<SubId>, id: SubId): seq<SubId> {
    if ids == [] then [] else if ids[0] == id then ids[1..] else [ids[0]] + Without(ids[1..], id)
  }

  /** One fetched row: broadcast when its uid is new, written silently otherwise. */
  function ApplyRow(s: State, row: Ban, added: set<int>): State {
    var t := s.(bans := Put(s.bans, row));
    if row.key in added then Tell(t, Added(Full(row))) else t
  }

  function ApplyRows(s: State, rows: seq<Ban>, added: set<int>): State
    decreases rows
  {
    if rows == [] then s else ApplyRows(ApplyRow(s, rows[0], added), rows[1..], added)
  }

  function DropRow(s: State, uid: int): State {
    Tell(s.(bans := Remove(s.bans, uid)), Removed(uid))
  }

  function DropRows(s: State, uids: seq<int>): State
    decreases uids
  {
    if uids == [] then s else DropRows(DropRow(s, uids[0]), uids[1..])
  }

  /** The confirmed uids that the fetch no longer has. */
  function Stale(bans: seq<Ban>, listed: set<int>): seq<int> {
    if bans == [] then []
    else (if bans[0].key !in listed && !bans[0].info.pending then [bans[0].key] else []) + Stale(bans[1..], listed)
  }

  function ReconcileStep(s: State, fetched: Option<seq<Ban>>): State {
    if !s.task || s.room.None? || fetched.None? then s
    else
      var rows := fetched.value;
      DropRows(ApplyRows(s, rows, Keys(rows) - Keys(s.bans)), Stale(s.bans, Keys(rows)))
  }

  function Step(s: State, a: Act): State {
    match a
    case Start(room, fetched) => StartStep(s, room, fetched)
    case StopAll => StopStep(s)
    case Subscribe(id) =>
      s.(subscribers := s.subscribers + [id], sent := Send(s.sent, id, SnapshotMsg(FullAll(s.bans))))
    case Unsubscribe(id) => s.(subscribers := Without(s.subscribers, id))
    case OnBan(uid, entry) =>
      if entry.None? || entry.value.key != uid then s
      else Tell(s.(bans := Put(s.bans, entry.value)), Added(Full(entry.value)))
    case OnUnban(uid) => DropRow(s, uid)
    case Refresh(fetched) => RefreshStep(s, fetched, true)
    case Reconcile(fetched) => ReconcileStep(s, fetched)
  }

  const INITIAL := State([], None, false, [], map[])

  // ---------------------------------------------------------------- the manager

  class BanListManager {
    var bans: seq<Ban>
    var room: Option<int>
    var task: bool
    var subscribers: seq<SubId>
    var sent: map<SubId, seq<Msg>>

    ghost function Abs(): State
      reads this
    {
      State(bans, room, task, subscribers, sent)
    }

    constructor ()
      ensures Abs() == INITIAL
    {
      bans, room, task, subscribers, sent := [], None, false, [], map[];
    }

    method SendAll(m: Msg)
      modifies this`sent
      ensures sent == Broadcast(old(sent), subscribers, m)
    {
      assert subscribers[0..] == subscribers;
      for i := 0 to |subscribers|
        invariant Broadcast(old(sent), subscribers, m) == Broadcast(sent, subscribers[i..], m)
      {
        assert subscribers[i..][1..] == subscribers[i + 1..];
        sent := Send(sent, subscribers[i], m);
      }
    }

    method KeepPending(fetched: set<int>) returns (kept: seq<Ban>)
      ensures kept == PendingOnly(bans, fetched)
    {
      kept := [];
      assert bans[..|bans|] == bans;
      for i := 0 to |bans|
        invariant kept == PendingOnly(bans[..i], fetched)
      {
        assert bans[..i + 1] == bans[..i] + [bans[i]];
        PendingOnlySnoc(bans[..i], bans[i], fetched);
        if bans[i].info.pending && bans[i].key !in fetched {
          kept := kept + [bans[i]];
        }
      }
    }

    method DoRefresh(fetched: Option<seq<Ban>>, preservePending: bool) returns (ok: bool)
      modifies this`bans, this`sent
      ensures Abs() == RefreshStep(old(Abs()), fetched, preservePending)
      ensures ok <==> Fetch(old(Abs()), fetched).Some?
    {
      if room.Some? && fetched.None? {
        return false;
      }
      var entries := if room.None? then [] else fetched.value;
      var next := PutAll([], entries);
      if preservePending {
        var kept := KeepPending(Keys(entries));
        next := next + kept;
      } else {
        assert next + [] == next;
      }
      bans := next;
      SendAll(SnapshotMsg(FullAll(next)));
      ok := true;
    }

    method Start(newRoom: int, fetched: Option<seq<Ban>>)
      modifies this
      ensures Abs() == Step(old(Abs()), Act.Start(newRoom, fetched))
    {
      if task {
        Stop();
      }
      room := Some(newRoom);
      var ok := DoRefresh(fetched, false);
      if ok {
        task := true;
      }
    }

    method Stop()
      modifies this
      ensures Abs() == Step(old(Abs()), StopAll)
    {
      task, room, bans, subscribers := false, None, [], [];
    }

    method Subscribe(id: SubId)
      modifies this`subscribers, this`sent
      ensures Abs() == Step(old(Abs()), Act.Subscribe(id))
    {
      subscribers := subscribers + [id];
      sent := Send(sent, id, SnapshotMsg(FullAll(bans)));
    }

    method Unsubscribe(id: SubId)
      modifies this`subscribers
      ensures Abs() == Step(old(Abs()), Act.Unsubscribe(id))
    {
      subscribers := Without(subscribers, id);
    }

    /** An entry that does not normalize, or is about somebody else, is refused. */
    method OnBan(ops: TextOps, uid: int, raw: Raw) returns (ok: bool)
      modifies this`bans, this`sent
      ensures var entry := Normalize(ops, raw, Get(raw, "pending") == Flag(true));
              && Abs() == Step(old(Abs()), Act.OnBan(uid, entry))
              && (ok <==> entry.Some? && entry.value.key == uid)
    {
      var entry := Normalize(ops, raw, Get(raw, "pending") == Flag(true));
      if entry.None? || entry.value.key != uid {
        return false;
      }
      bans := Put(bans, entry.value);
      SendAll(Added(Full(entry.value)));
      ok := true;
    }

    method OnUnban(uid: int)
      modifies this`bans, this`sent
      ensures Abs() == Step(old(Abs()), Act.OnUnban(uid))
    {
      bans := Remove(bans, uid);
      SendAll(Removed(uid));
    }

    /** The new snapshot; None where the fetch raised, and then nothing has changed. */
    method Refresh(fetched: Option<seq<Ban>>) returns (snapshot: Option<seq<Ban>>)
      modifies this`bans, this`sent
      ensures Abs() == Step(old(Abs()), Act.Refresh(fetched))
      ensures snapshot == if old(room).Some? && fetched.None? then None else Some(bans)
    {
      var ok := DoRefresh(fetched, true);
      snapshot := if ok then Some(bans) else None;
    }

    /** One turn of the loop; the removed uids are visited in dictionary order. */
    method ReconcileOnce(fetched: Option<seq<Ban>>)
      modifies this`bans, this`sent
      ensures Abs() == Step(old(Abs()), Act.Reconcile(fetched))
    {
      if !task || room.None? || fetched.None? {
        return;
      }
      var rows := fetched.value;
      var added := Keys(rows) - Keys(bans);
      var removed := Stale(bans, Keys(rows));
      ghost var s := Abs();
      assert rows[0..] == rows;
      for i := 0 to |rows|
        invariant ApplyRows(s, rows, added) == ApplyRows(Abs(), rows[i..], added)
      {
        assert rows[i..][1..] == rows[i + 1..];
        bans := Put(bans, rows[i]);
        if rows[i].key in added {
          SendAll(Added(Full(rows[i])));
        }
      }
      ghost var t := Abs();
      assert removed[0..] == removed;
      for j := 0 to |removed|
        invariant DropRows(t, removed) == DropRows(Abs(), removed[j..])
      {
        assert removed[j..][1..] == removed[j + 1..];
        bans := Remove(bans, removed[j]);
        SendAll(Removed(removed[j]));
      }
    }
  }

  // ---------------------------------------------------------------- replicas agree on who is banned

  function View(s: State, id: SubId): seq<Ban> { Fold(SentTo(s.sent, id)) }

  /** The dictionary has one row per uid, and every subscribed browser shows exactly its uids, each once. */
  ghost predicate Agree(s: State) {
    && Unique(s.bans)
    && forall id :: id in s.subscribers ==> Unique(View(s, id)) && Keys(View(s, id)) == Keys(s.bans)
  }

  lemma {:induction false} BroadcastUids(sent: map<SubId, seq<Msg>>, ids: seq<SubId>, m: Msg, id: SubId)
    ensures var before, after := Fold(SentTo(sent, id)), Fold(SentTo(Broadcast(sent, ids, m), id));
            Keys(after) == if id in ids then UidsAfter(Keys(before), m) else Keys(before)
    ensures id !in ids ==> SentTo(Broadcast(sent, ids, m), id) == SentTo(sent, id)
    decreases ids
  {
    if ids != [] {
      var next := Send(sent, ids[0], m);
      BroadcastUids(next, ids[1..], m, id);
      if ids[0] == id {
        assert SentTo(next, id)[..|SentTo(sent, id)|] == SentTo(sent, id);
        FoldUnique(SentTo(sent, id));
        ApplyUids(Fold(SentTo(sent, id)), m);
      }
    }
  }

  /** A change of the dictionary that every subscriber is told keeps the agreement. */
  lemma TellAgrees(s: State, bans: seq<Ban>, m: Msg)
    requires Unique(bans)
    requires forall id :: id in s.subscribers ==> UidsAfter(Keys(View(s, id)), m) == Keys(bans)
    ensures Agree(Tell(s.(bans := bans), m))
  {
    var t := Tell(s.(bans := bans), m);
    forall id | id in t.subscribers ensures Unique(View(t, id)) && Keys(View(t, id)) == Keys(t.bans) {
      BroadcastUids(s.sent, s.subscribers, m, id);
      FoldUnique(SentTo(t.sent, id));
    }
  }

  /** The write of one fetched row keeps the agreement if and only if the row is broadcast, or its uid is still cached
      at that moment, or nobody listens: a silent write of a uid unbanned meanwhile puts it back unannounced. */
  lemma ApplyRowAgrees(s: State, row: Ban, added: set<int>)
    requires Agree(s)
    ensures Agree(ApplyRow(s, row, added)) <==> row.key in added || row.key in Keys(s.bans) || s.subscribers == []
  {
    PutFacts(s.bans, row);
    if row.key in added {
      TellAgrees(s, Put(s.bans, row), Added(Full(row)));
    } else {
      var t := ApplyRow(s, row, added);
      assert forall id :: View(t, id) == View(s, id);
      if row.key !in Keys(s.bans) && s.subscribers != [] {
        var id := s.subscribers[0];
        assert id in s.subscribers && Keys(View(t, id)) == Keys(s.bans) && row.key in Keys(t.bans);
      }
    }
  }

  lemma DropRowAgrees(s: State, uid: int)
    requires Agree(s)
    ensures Agree(DropRow(s, uid)) && Keys(DropRow(s, uid).bans) == Keys(s.bans) - {uid}
  {
    RemoveFacts(s.bans, uid);
    TellAgrees(s, Remove(s.bans, uid), Removed(uid));
  }

  lemma {:induction false} ApplyRowsAgree(s: State, rows: seq<Ban>, added: set<int>)
    requires Agree(s) && Keys(rows) <= added + Keys(s.bans)
    ensures Agree(ApplyRows(s, rows, added))
    decreases rows
  {
    if rows != [] {
      assert rows[0] in rows && rows == [rows[0]] + rows[1..];
      assert rows[0].key in Keys(rows);
      ApplyRowAgrees(s, rows[0], added);
      PutFacts(s.bans, rows[0]);
      assert Keys(rows[1..]) <= Keys(rows);
      ApplyRowsAgree(ApplyRow(s, rows[0], added), rows[1..], added);
    }
  }

  lemma {:induction false} DropRowsAgree(s: State, uids: seq<int>)
    requires Agree(s)
    ensures Agree(DropRows(s, uids))
    decreases uids
  {
    if uids != [] {
      DropRowAgrees(s, uids[0]);
      DropRowsAgree(DropRow(s, uids[0]), uids[1..]);
    }
  }

  lemma {:induction false} PendingOnlyFacts(bans: seq<Ban>, except: set<int>)
    requires Unique(bans)
    ensures Unique(PendingOnly(bans, except))
    ensures forall r :: r in PendingOnly(bans, except) <==> r in bans && r.info.pending && r.key !in except
  {
    if bans != [] {
      UniqueTail(bans);
      PendingOnlyFacts(bans[1..], except);
      assert bans == [bans[0]] + bans[1..];
      var rest := PendingOnly(bans[1..], except);
      assert Keys(rest) <= Keys(bans[1..]);
      if bans[0].info.pending && bans[0].key !in except {
        UniqueCons(bans[0], rest);
      } else {
        assert [] + rest == rest;
      }
    }
  }

  lemma UniqueConcat(a: seq<Ban>, b: seq<Ban>)
    requires Unique(a) && Unique(b) && Keys(a) !! Keys(b)
    ensures Unique(a + b) && Keys(a + b) == Keys(a) + Keys(b)
  {
    var c := a + b;
    forall i, j | 0 <= i < j < |c| ensures c[i].key != c[j].key {
      if i < |a| <= j {
        assert c[i] in a && c[j] in b;
        assert c[i].key in Keys(a) && c[j].key in Keys(b);
      }
    }
  }

  lemma RefreshedUnique(bans: seq<Ban>, rows: seq<Ban>, preserve: bool)
    requires Unique(bans)
    ensures Unique(Refreshed(bans, rows, preserve))
    ensures Keys(Refreshed(bans, rows, preserve))
         == Keys(rows) + if preserve then Keys(PendingOnly(bans, Keys(rows))) else {}
  {
    PutAllFacts([], rows);
    if preserve {
      PendingOnlyFacts(bans, Keys(rows));
      UniqueConcat(PutAll([], rows), PendingOnly(bans, Keys(rows)));
    } else {
      assert PutAll([], rows) + [] == PutAll([], rows);
    }
  }

  lemma RefreshAgrees(s: State, fetched: Option<seq<Ban>>, preserve: bool)
    requires Agree(s)
    ensures Agree(RefreshStep(s, fetched, preserve))
  {
    var rows := Fetch(s, fetched);
    if rows.Some? {
      var next := Refreshed(s.bans, rows.value, preserve);
      RefreshedUnique(s.bans, rows.value, preserve);
      FullAllBack(next);
      TellAgrees(s, next, SnapshotMsg(FullAll(next)));
    }
  }

  lemma {:induction false} WithoutSubset(ids: seq<SubId>, id: SubId)
    ensures forall x :: x in Without(ids, id) ==> x in ids
  {
    if ids != [] {
      WithoutSubset(ids[1..], id);
    }
  }

  lemma SubscribeAgrees(s: State, id: SubId)
    requires Agree(s)
    ensures Agree(Step(s, Subscribe(id))) && View(Step(s, Subscribe(id)), id) == s.bans
  {
    var t := Step(s, Subscribe(id));
    var m := SnapshotMsg(FullAll(s.bans));
    assert SentTo(t.sent, id)[..|SentTo(s.sent, id)|] == SentTo(s.sent, id);
    SnapshotShown(View(s, id), s.bans);
    forall x | x in t.subscribers ensures Unique(View(t, x)) && Keys(View(t, x)) == Keys(t.bans) {
      if x != id {
        assert x in s.subscribers;
        assert SentTo(t.sent, x) == SentTo(s.sent, x);
      }
    }
  }

  lemma StartAgrees(s: State, room: int, fetched: Option<seq<Ban>>)
    requires Agree(s)
    ensures Agree(StartStep(s, room, fetched))
  {
    var ready := (if s.task then StopStep(s) else s).(room := Some(room));
    assert forall id :: View(ready, id) == View(s, id);
    assert Agree(ready);
    RefreshAgrees(ready, fetched, false);
    var t := RefreshStep(ready, fetched, false);
    assert forall id :: View(StartStep(s, room, fetched), id) == View(t, id);
  }

  lemma OnBanAgrees(s: State, uid: int, entry: Option<Ban>)
    requires Agree(s)
    ensures Agree(Step(s, OnBan(uid, entry)))
  {
    if entry.Some? && entry.value.key == uid {
      PutFacts(s.bans, entry.value);
      TellAgrees(s, Put(s.bans, entry.value), Added(Full(entry.value)));
    }
  }

  lemma ReconcileAgrees(s: State, fetched: Option<seq<Ban>>)
    requires Agree(s)
    ensures Agree(ReconcileStep(s, fetched))
  {
    if s.task && s.room.Some? && fetched.Some? {
      var rows := fetched.value;
      var added := Keys(rows) - Keys(s.bans);
      ApplyRowsAgree(s, rows, added);
      DropRowsAgree(ApplyRows(s, rows, added), Stale(s.bans, Keys(rows)));
    }
  }

  lemma UnsubscribeAgrees(s: State, id: SubId)
    requires Agree(s)
    ensures Agree(Step(s, Unsubscribe(id)))
  {
    WithoutSubset(s.subscribers, id);
    assert forall x :: View(Step(s, Unsubscribe(id)), x) == View(s, x);
  }

  lemma StepAgrees(s: State, a: Act)
    requires Agree(s)
    ensures Agree(Step(s, a))
  {
    match a
    case Start(room, fetched) => StartAgrees(s, room, fetched);
    case StopAll =>
    case Subscribe(id) => SubscribeAgrees(s, id);
    case Unsubscribe(id) => UnsubscribeAgrees(s, id);
    case OnBan(uid, entry) => OnBanAgrees(s, uid, entry);
    case OnUnban(uid) => DropRowAgrees(s, uid);
    case Refresh(fetched) => RefreshAgrees(s, fetched, true);
    case Reconcile(fetched) => ReconcileAgrees(s, fetched);
  }

  function Exec(s: State, acts: seq<Act>): State {
    if acts == [] then s else Step(Exec(s, acts[..|acts| - 1]), acts[|acts| - 1])
  }

  /** Over every run, every subscribed browser shows exactly the manager's uids, without duplicates. */
  lemma {:induction false} ReplicaAgreement(acts: seq<Act>)
    ensures Agree(Exec(INITIAL, acts))
  {
    if acts != [] {
      ReplicaAgreement(acts[..|acts| - 1]);
      StepAgrees(Exec(INITIAL, acts[..|acts| - 1]), acts[|acts| - 1]);
    }
  }

  // -------- where the agreement can be lost

  lemma ApplyRowUids(s: State, row: Ban, added: set<int>, id: SubId)
    requires id in s.subscribers
    ensures var t := ApplyRow(s, row, added);
            && t.subscribers == s.subscribers
            && Keys(t.bans) == Keys(s.bans) + {row.key}
            && Keys(View(t, id)) == Keys(View(s, id)) + {row.key} * added
  {
    PutKeys(s.bans, row);
    BroadcastUids(s.sent, s.subscribers, Added(Full(row)), id);
  }

  lemma {:induction false} ApplyRowsUids(s: State, rows: seq<Ban>, added: set<int>, id: SubId)
    requires id in s.subscribers
    ensures var t := ApplyRows(s, rows, added);
            && t.subscribers == s.subscribers
            && Keys(t.bans) == Keys(s.bans) + Keys(rows)
            && Keys(View(t, id)) == Keys(View(s, id)) + Keys(rows) * added
    decreases rows
  {
    if rows != [] {
      assert rows == [rows[0]] + rows[1..];
      KeysCons(rows[0], rows[1..]);
      ApplyRowUids(s, rows[0], added, id);
      ApplyRowsUids(ApplyRow(s, rows[0], added), rows[1..], added, id);
    }
  }

  lemma {:induction false} DropRowsUids(s: State, uids: seq<int>, id: SubId)
    requires id in s.subscribers
    ensures var t := DropRows(s, uids);
            forall u :: (u in Keys(t.bans) <==> u in Keys(s.bans) && u !in uids)
                     && (u in Keys(View(t, id)) <==> u in Keys(View(s, id)) && u !in uids)
    decreases uids
  {
    if uids != [] {
      assert uids == [uids[0]] + uids[1..];
      RemoveKeys(s.bans, uids[0]);
      BroadcastUids(s.sent, s.subscribers, Removed(uids[0]), id);
      DropRowsUids(DropRow(s, uids[0]), uids[1..], id);
    }
  }

  /** A turn of the reconcile loop that lets an unban in after `i` rows, which it can while a new row is broadcast. */
  function TurnWithUnban(s: State, rows: seq<Ban>, i: nat, uid: int): State
    requires i <= |rows|
  {
    var added := Keys(rows) - Keys(s.bans);
    var unbanned := DropRow(ApplyRows(s, rows[..i], added), uid);
    DropRows(ApplyRows(unbanned, rows[i..], added), Stale(s.bans, Keys(rows)))
  }

  /** At the end of such a turn every listener agrees, unless the unbanned uid was cached when the turn began and its
      row was still to be written: then the silent write has put it back unannounced. */
  lemma UnbanBetweenDiverges(s: State, rows: seq<Ban>, i: nat, uid: int, id: SubId)
    requires Agree(s) && id in s.subscribers && i <= |rows|
    ensures var t := TurnWithUnban(s, rows, i, uid);
            Keys(View(t, id)) == Keys(t.bans) <==> uid !in Keys(rows[i..]) || uid !in Keys(s.bans)
  {
    var added, stale := Keys(rows) - Keys(s.bans), Stale(s.bans, Keys(rows));
    var first := ApplyRows(s, rows[..i], added);
    ApplyRowsUids(s, rows[..i], added, id);
    var unbanned := DropRow(first, uid);
    RemoveKeys(first.bans, uid);
    BroadcastUids(first.sent, first.subscribers, Removed(uid), id);
    var written := ApplyRows(unbanned, rows[i..], added);
    ApplyRowsUids(unbanned, rows[i..], added, id);
    DropRowsUids(written, stale, id);
    KeysSplit(rows, i);
    var t := TurnWithUnban(s, rows, i, uid);
    forall u ensures (u in Keys(View(t, id)) <==> u in Keys(t.bans))
                <==> !(u == uid && uid in Keys(rows[i..]) && uid in Keys(s.bans))
    {
      StaleFacts(s.bans, Keys(rows), u);
    }
  }

  lemma KeysSplit(rows: seq<Ban>, i: nat)
    requires i <= |rows|
    ensures Keys(rows) == Keys(rows[..i]) + Keys(rows[i..])
  {
    assert rows == rows[..i] + rows[i..];
  }

  /** A browser also writes its store by itself, when the reply to its own request comes. An agreeing browser still
      agrees after that if and only if the reply says what is the case: a ban of a cached uid, an unban of one that is
      not, or a list of exactly the cached uids. */
  lemma LocalWriteAgrees(s: State, list: seq<Ban>, reply: Msg)
    requires Unique(list) && Keys(list) == Keys(s.bans)
    ensures Unique(Apply(list, reply))
    ensures Keys(Apply(list, reply)) == Keys(s.bans)
       <==> match reply
            case Added(u) => u.uid in Keys(s.bans)
            case Removed(uid) => uid !in Keys(s.bans)
            case SnapshotMsg(bans) => Uids(bans) == Keys(s.bans)
  {
    ApplyUids(list, reply);
  }

  /** A reply to a ban that is handled after somebody else's unban puts the uid back, in that browser alone. */
  lemma LateReplyDiverges(s: State, id: SubId, u: Update)
    requires Agree(s) && id in s.subscribers
    ensures var t := Step(s, OnUnban(u.uid)); Keys(Apply(View(t, id), Added(u))) != Keys(t.bans)
  {
    var t := Step(s, OnUnban(u.uid));
    DropRowAgrees(s, u.uid);
    assert id in t.subscribers;
    LocalWriteAgrees(t, View(t, id), Added(u));
  }

  // -------- right after a snapshot the rows are equal too

  lemma {:induction false} BroadcastSnapshot(sent: map<SubId, seq<Msg>>, ids: seq<SubId>, bans: seq<Ban>, id: SubId)
    requires Unique(bans) && (id in ids || Fold(SentTo(sent, id)) == bans)
    ensures Fold(SentTo(Broadcast(sent, ids, SnapshotMsg(FullAll(bans))), id)) == bans
    decreases ids
  {
    if ids != [] {
      var m := SnapshotMsg(FullAll(bans));
      var next := Send(sent, ids[0], m);
      if ids[0] == id {
        assert SentTo(next, id)[..|SentTo(sent, id)|] == SentTo(sent, id);
        SnapshotShown(Fold(SentTo(sent, id)), bans);
      } else {
        assert SentTo(next, id) == SentTo(sent, id);
      }
      BroadcastSnapshot(next, ids[1..], bans, id);
    }
  }

  /** Right after a snapshot went out, the browsers it went to show the dictionary row by row, in its order. */
  lemma SnapshotExact(acts: seq<Act>, a: Act, id: SubId)
    requires (a.Subscribe? && a.id == id) || ((a.Refresh? || a.Start?) && a.fetched.Some?)
    requires id in Exec(INITIAL, acts + [a]).subscribers
    ensures View(Exec(INITIAL, acts + [a]), id) == Exec(INITIAL, acts + [a]).bans
  {
    assert (acts + [a])[..|acts|] == acts;
    ReplicaAgreement(acts);
    var s := Exec(INITIAL, acts);
    var t := Step(s, a);
    if a.Subscribe? {
      SubscribeAgrees(s, id);
    } else {
      var ready := if a.Start? then (if s.task then StopStep(s) else s).(room := Some(a.room)) else s;
      StepAgrees(s, a);
      BroadcastSnapshot(ready.sent, ready.subscribers, t.bans, id);
      assert t.sent == Broadcast(ready.sent, ready.subscribers, SnapshotMsg(FullAll(t.bans)));
    }
  }

  // -------- what every operation leaves in the dictionary, and what it tells the browsers

  lemma {:induction false} ApplyRowsBans(s: State, rows: seq<Ban>, added: set<int>)
    ensures ApplyRows(s, rows, added).bans == PutAll(s.bans, rows)
    decreases rows
  {
    if rows != [] {
      ApplyRowsBans(ApplyRow(s, rows[0], added), rows[1..], added);
    }
  }

  lemma {:induction false} DropRowsBans(s: State, uids: seq<int>, uid: int)
    ensures ValueAt(DropRows(s, uids).bans, uid) == if uid in uids then None else ValueAt(s.bans, uid)
    decreases uids
  {
    if uids != [] {
      assert uids == [uids[0]] + uids[1..];
      RemoveMap(s.bans, uids[0]);
      DropRowsBans(DropRow(s, uids[0]), uids[1..], uid);
    }
  }

  lemma {:induction false} PendingOnlyAt(bans: seq<Ban>, except: set<int>, uid: int)
    requires Unique(bans)
    ensures ValueAt(PendingOnly(bans, except), uid)
         == if ValueAt(bans, uid).Some? && ValueAt(bans, uid).value.pending && uid !in except then ValueAt(bans, uid)
            else None
  {
    if bans != [] {
      UniqueTail(bans);
      PendingOnlyAt(bans[1..], except, uid);
      MapKeys(bans[1..]);
      var first := if bans[0].info.pending && bans[0].key !in except then [bans[0]] else [];
      ValueAtConcat(first, PendingOnly(bans[1..], except), uid);
      assert [bans[0]][1..] == [];
    }
  }

  /** What is cached for a uid after a fetch: the last fetched row, or else the row from before if it is pending. */
  function AfterFetch(before: Option<BanInfo>, rows: seq<Ban>, uid: int): Option<BanInfo> {
    if LastRow(rows, uid).Some? then LastRow(rows, uid)
    else if before.Some? && before.value.pending then before
    else None
  }

  lemma RefreshedAt(bans: seq<Ban>, rows: seq<Ban>, preserve: bool, uid: int)
    requires Unique(bans)
    ensures ValueAt(Refreshed(bans, rows, preserve), uid)
         == if preserve then AfterFetch(ValueAt(bans, uid), rows, uid) else LastRow(rows, uid)
  {
    var kept := if preserve then PendingOnly(bans, Keys(rows)) else [];
    PutAllLast([], rows, uid);
    LastRowKeys(rows, uid);
    PendingOnlyAt(bans, Keys(rows), uid);
    ValueAtConcat(PutAll([], rows), kept, uid);
  }

  /** After a refresh the dictionary holds the fetched rows in their order, and behind them the kept rows in theirs. */
  lemma RefreshOrder(s: State, rows: seq<Ban>) returns (at: seq<nat>)
    requires Unique(s.bans) && Unique(rows) && s.room.Some?
    ensures var bans := Step(s, Refresh(Some(rows))).bans;
            && rows <= bans && |at| == |bans| - |rows|
            && (forall i :: 0 <= i < |at| ==> at[i] < |s.bans| && s.bans[at[i]] == bans[|rows| + i])
            && (forall i, j :: 0 <= i < j < |at| ==> at[i] < at[j])
  {
    RefreshedRows(s.bans, rows);
    at := KeptPlaces(s.bans, Keys(rows));
  }

  lemma RefreshedRows(bans: seq<Ban>, rows: seq<Ban>)
    requires Unique(rows)
    ensures Refreshed(bans, rows, true) == rows + PendingOnly(bans, Keys(rows))
  {
    assert [] + rows == rows;
    PutAllUnique([], rows);
  }

  lemma {:induction false} KeptPlaces(bans: seq<Ban>, except: set<int>) returns (at: seq<nat>)
    ensures var kept := PendingOnly(bans, except);
            && |at| == |kept|
            && (forall i :: 0 <= i < |at| ==> at[i] < |bans| && bans[at[i]] == kept[i])
            && (forall i, j :: 0 <= i < j < |at| ==> at[i] < at[j])
  {
    if bans == [] {
      at := [];
    } else {
      var init, b := bans[..|bans| - 1], bans[|bans| - 1];
      assert bans == init + [b];
      at := KeptPlaces(init, except);
      PendingOnlySnoc(init, b, except);
      if b.info.pending && b.key !in except {
        at := at + [|init|];
      }
    }
  }

  lemma ReconciledAt(s: State, rows: seq<Ban>, uid: int)
    requires Unique(s.bans)
    ensures var t := DropRows(ApplyRows(s, rows, Keys(rows) - Keys(s.bans)), Stale(s.bans, Keys(rows)));
            ValueAt(t.bans, uid) == AfterFetch(ValueAt(s.bans, uid), rows, uid)
  {
    var added := Keys(rows) - Keys(s.bans);
    ApplyRowsBans(s, rows, added);
    PutAllLast(s.bans, rows, uid);
    LastRowKeys(rows, uid);
    DropRowsBans(ApplyRows(s, rows, added), Stale(s.bans, Keys(rows)), uid);
    StaleFacts(s.bans, Keys(rows), uid);
    if ValueAt(s.bans, uid).Some? {
      InMap(s.bans, Row(uid, ValueAt(s.bans, uid).value));
    }
    forall b | b in s.bans && b.key == uid ensures ValueAt(s.bans, uid) == Some(b.info) {
      InMap(s.bans, b);
    }
  }

  /** What has to be cached for a uid after an operation, from what was cached `before`. */
  function CachedAfter(before: Option<BanInfo>, a: Act, uid: int, room: bool, task: bool): Option<BanInfo> {
    match a
    case Start(_, fetched) => if fetched.Some? then LastRow(fetched.value, uid) else if task then None else before
    case StopAll => None
    case OnBan(u, entry) =>
      if u == uid && entry.Some? && entry.value.key == u then Some(entry.value.info) else before
    case OnUnban(u) => if u == uid then None else before
    case Refresh(fetched) =>
      if !room then AfterFetch(before, [], uid)
      else if fetched.None? then before else AfterFetch(before, fetched.value, uid)
    case Reconcile(fetched) =>
      if task && room && fetched.Some? then AfterFetch(before, fetched.value, uid) else before
    case _ => before
  }

  /** That is what is cached, for every uid and every operation. */
  lemma DictionaryAfter(s: State, a: Act, uid: int)
    requires Unique(s.bans)
    ensures ValueAt(Step(s, a).bans, uid) == CachedAfter(ValueAt(s.bans, uid), a, uid, s.room.Some?, s.task)
  {
    match a
    case Start(_, fetched) =>
      if fetched.Some? {
        RefreshedAt(if s.task then [] else s.bans, fetched.value, false, uid);
      }
    case OnBan(u, entry) =>
      if entry.Some? {
        PutMap(s.bans, entry.value);
      }
    case OnUnban(u) => RemoveMap(s.bans, u);
    case Refresh(fetched) =>
      if s.room.None? {
        RefreshedAt(s.bans, [], true, uid);
      } else if fetched.Some? {
        RefreshedAt(s.bans, fetched.value, true, uid);
      }
    case Reconcile(fetched) =>
      if s.task && s.room.Some? && fetched.Some? {
        ReconciledAt(s, fetched.value, uid);
      }
    case _ =>
  }

  function Copies(m: Msg, n: nat): seq<Msg> {
    if n == 0 then [] else [m] + Copies(m, n - 1)
  }

  function Subscriptions(ids: seq<SubId>, id: SubId): nat {
    if ids == [] then 0 else (if ids[0] == id then 1 else 0) + Subscriptions(ids[1..], id)
  }

  lemma {:induction false} BroadcastExact(sent: map<SubId, seq<Msg>>, ids: seq<SubId>, m: Msg, id: SubId)
    ensures SentTo(Broadcast(sent, ids, m), id) == SentTo(sent, id) + Copies(m, Subscriptions(ids, id))
    decreases ids
  {
    if ids == [] {
      assert SentTo(sent, id) + [] == SentTo(sent, id);
    } else {
      var next := Send(sent, ids[0], m);
      BroadcastExact(next, ids[1..], m, id);
      var n := Subscriptions(ids[1..], id);
      if ids[0] == id {
        assert (SentTo(sent, id) + [m]) + Copies(m, n) == SentTo(sent, id) + ([m] + Copies(m, n));
      }
    }
  }

  /** What a browser with n subscriptions has to be sent by an operation that leaves `bans` in the dictionary. */
  function Told(a: Act, bans: seq<Ban>, id: SubId, n: nat, room: bool, task: bool): seq<Msg> {
    match a
    case Start(_, fetched) => if fetched.None? || task then [] else Copies(SnapshotMsg(FullAll(bans)), n)
    case Subscribe(i) => if i == id then [SnapshotMsg(FullAll(bans))] else []
    case OnBan(u, entry) => if entry.Some? && entry.value.key == u then Copies(Added(Full(entry.value)), n) else []
    case OnUnban(u) => Copies(Removed(u), n)
    case Refresh(fetched) => if room && fetched.None? then [] else Copies(SnapshotMsg(FullAll(bans)), n)
    case _ => []
  }

  /** That is what it is sent; for a turn of the reconcile loop see ReconcileTold. */
  lemma ToldAfter(s: State, a: Act, id: SubId)
    requires !a.Reconcile?
    ensures var t := Step(s, a);
            SentTo(t.sent, id) == SentTo(s.sent, id)
                                  + Told(a, t.bans, id, Subscriptions(s.subscribers, id), s.room.Some?, s.task)
  {
    var t := Step(s, a);
    assert SentTo(s.sent, id) + [] == SentTo(s.sent, id);
    match a
    case Start(_, _) => BroadcastExact(s.sent, if s.task then [] else s.subscribers, SnapshotMsg(FullAll(t.bans)), id);
    case OnBan(_, entry) =>
      if entry.Some? {
        BroadcastExact(s.sent, s.subscribers, Added(Full(entry.value)), id);
      }
    case OnUnban(u) => BroadcastExact(s.sent, s.subscribers, Removed(u), id);
    case Refresh(_) => BroadcastExact(s.sent, s.subscribers, SnapshotMsg(FullAll(t.bans)), id);
    case _ =>
  }

  /** The deltas of one turn of the reconcile loop, for a browser with n subscriptions: the rows of the uids that were
      not known, and the uids that are gone. */
  function Deltas(rows: seq<Ban>, known: set<int>, n: nat): seq<Msg> {
    if rows == [] then []
    else (if rows[0].key in known then [] else Copies(Added(Full(rows[0])), n)) + Deltas(rows[1..], known, n)
  }

  function Removals(uids: seq<int>, n: nat): seq<Msg> {
    if uids == [] then [] else Copies(Removed(uids[0]), n) + Removals(uids[1..], n)
  }

  lemma {:induction false} ApplyRowsTold(s: State, rows: seq<Ban>, known: set<int>, added: set<int>, id: SubId)
    requires forall r :: r in rows ==> (r.key in added <==> r.key !in known)
    ensures SentTo(ApplyRows(s, rows, added).sent, id)
         == SentTo(s.sent, id) + Deltas(rows, known, Subscriptions(s.subscribers, id))
    decreases rows
  {
    if rows == [] {
      assert SentTo(s.sent, id) + [] == SentTo(s.sent, id);
    } else {
      var n := Subscriptions(s.subscribers, id);
      var one := if rows[0].key in known then [] else Copies(Added(Full(rows[0])), n);
      assert rows[0] in rows && forall r :: r in rows[1..] ==> r in rows;
      BroadcastExact(s.sent, s.subscribers, Added(Full(rows[0])), id);
      ApplyRowsTold(ApplyRow(s, rows[0], added), rows[1..], known, added, id);
      assert SentTo(s.sent, id) + [] == SentTo(s.sent, id);
      AppendTwice(SentTo(s.sent, id), one, Deltas(rows[1..], known, n));
    }
  }

  lemma {:induction false} DropRowsTold(s: State, uids: seq<int>, id: SubId)
    ensures SentTo(DropRows(s, uids).sent, id)
         == SentTo(s.sent, id) + Removals(uids, Subscriptions(s.subscribers, id))
    decreases uids
  {
    if uids == [] {
      assert SentTo(s.sent, id) + [] == SentTo(s.sent, id);
    } else {
      var n := Subscriptions(s.subscribers, id);
      BroadcastExact(s.sent, s.subscribers, Removed(uids[0]), id);
      DropRowsTold(DropRow(s, uids[0]), uids[1..], id);
      AppendTwice(SentTo(s.sent, id), Copies(Removed(uids[0]), n), Removals(uids[1..], n));
    }
  }

  lemma AppendTwice<T>(a: seq<T>, b: seq<T>, c: seq<T>)
    ensures (a + b) + c == a + (b + c)
  {
  }

  /** What one turn of the reconcile loop sends: every fetched row of a uid that was not known, as it is, and then one
      removal for each confirmed uid that was not fetched. */
  lemma ReconcileTold(s: State, rows: seq<Ban>, id: SubId)
    requires s.task && s.room.Some?
    ensures var n := Subscriptions(s.subscribers, id);
            SentTo(ReconcileStep(s, Some(rows)).sent, id)
            == SentTo(s.sent, id) + (Deltas(rows, Keys(s.bans), n) + Removals(Stale(s.bans, Keys(rows)), n))
    ensures forall uid :: uid in Stale(s.bans, Keys(rows))
                     <==> uid !in Keys(rows) && exists b :: b in s.bans && b.key == uid && !b.info.pending
  {
    var added, n := Keys(rows) - Keys(s.bans), Subscriptions(s.subscribers, id);
    ApplyRowsTold(s, rows, Keys(s.bans), added, id);
    ApplyRowsQuiet(s, rows, added);
    DropRowsTold(ApplyRows(s, rows, added), Stale(s.bans, Keys(rows)), id);
    AppendTwice(SentTo(s.sent, id), Deltas(rows, Keys(s.bans), n), Removals(Stale(s.bans, Keys(rows)), n));
    forall uid ensures uid in Stale(s.bans, Keys(rows))
                  <==> uid !in Keys(rows) && exists b :: b in s.bans && b.key == uid && !b.info.pending {
      StaleFacts(s.bans, Keys(rows), uid);
    }
  }

  /** Who is subscribed, and whether a room is set and the loop runs, after any operation. */
  lemma LifecycleAfter(s: State, a: Act)
    ensures var t := Step(s, a);
            && t.room == (if a.Start? then Some(a.room) else if a.StopAll? then None else s.room)
            && t.task == (if a.Start? then a.fetched.Some? else if a.StopAll? then false else s.task)
            && (a.Start? ==> t.subscribers == if s.task then [] else s.subscribers)
            && (a.StopAll? ==> t.subscribers == [])
            && (a.Subscribe? ==> t.subscribers == s.subscribers + [a.id])
            && (!a.Start? && !a.StopAll? && !a.Subscribe? && !a.Unsubscribe? ==> t.subscribers == s.subscribers)
  {
    if a.Reconcile? && s.task && s.room.Some? && a.fetched.Some? {
      var rows := a.fetched.value;
      ApplyRowsQuiet(s, rows, Keys(rows) - Keys(s.bans));
      DropRowsQuiet(ApplyRows(s, rows, Keys(rows) - Keys(s.bans)), Stale(s.bans, Keys(rows)));
    }
  }

  lemma {:induction false} ApplyRowsQuiet(s: State, rows: seq<Ban>, added: set<int>)
    ensures var t := ApplyRows(s, rows, added);
            t.room == s.room && t.task == s.task && t.subscribers == s.subscribers
    decreases rows
  {
    if rows != [] {
      ApplyRowsQuiet(ApplyRow(s, rows[0], added), rows[1..], added);
    }
  }

  lemma {:induction false} DropRowsQuiet(s: State, uids: seq<int>)
    ensures var t := DropRows(s, uids); t.room == s.room && t.task == s.task && t.subscribers == s.subscribers
    decreases uids
  {
    if uids != [] {
      DropRowsQuiet(DropRow(s, uids[0]), uids[1..]);
    }
  }

  /** Unsubscribing takes away the first subscription of that callback, and no other. */
  lemma {:induction false} WithoutOne(ids: seq<SubId>, id: SubId) returns (i: nat)
    ensures id !in ids ==> Without(ids, id) == ids
    ensures id in ids ==>
              i < |ids| && ids[i] == id && id !in ids[..i] && Without(ids, id) == ids[..i] + ids[i + 1..]
  {
    i := 0;
    if ids != [] && ids[0] != id {
      var j := WithoutOne(ids[1..], id);
      i := j + 1;
      if id in ids {
        WithoutCons(ids, j);
      }
    }
  }

  lemma WithoutCons(ids: seq<SubId>, j: nat)
    requires j + 1 < |ids|
    ensures [ids[0]] + (ids[1..][..j] + ids[1..][j + 1..]) == ids[..j + 1] + ids[j + 2..]
    ensures ids[..j + 1] == [ids[0]] + ids[1..][..j]
  {
  }

  /** A browser that does not have the uid, and is subscribed once, shows an accepted ban field by field. */
  lemma BanShown(s: State, entry: Ban, id: SubId)
    requires Agree(s) && Subscriptions(s.subscribers, id) == 1 && entry.key !in Keys(s.bans)
    ensures var t := Step(s, OnBan(entry.key, Some(entry)));
            ValueAt(View(t, id), entry.key) == Some(entry.info) && ValueAt(t.bans, entry.key) == Some(entry.info)
  {
    var t := Step(s, OnBan(entry.key, Some(entry)));
    DictionaryAfter(s, OnBan(entry.key, Some(entry)), entry.key);
    ToldAfter(s, OnBan(entry.key, Some(entry)), id);
    SubscribedOnce(s.subscribers, id);
    CopiesOne(Added(Full(entry)));
    FoldSnoc(SentTo(s.sent, id), Added(Full(entry)));
    FreshShown(View(s, id), entry);
  }

  lemma CopiesOne(m: Msg)
    ensures Copies(m, 1) == [m]
  {
    assert Copies(m, 0) == [];
  }

  lemma FoldSnoc(ms: seq<Msg>, m: Msg)
    ensures Fold(ms + [m]) == Apply(Fold(ms), m)
  {
    assert (ms + [m])[..|ms|] == ms;
  }

  lemma FreshShown(list: seq<Ban>, entry: Ban)
    requires entry.key !in Keys(list)
    ensures ValueAt(Apply(list, Added(Full(entry))), entry.key) == Some(entry.info)
  {
    FindIsLookup(list, entry.key);
    MapKeys(list);
    PutMap(list, entry);
  }

  lemma {:induction false} SubscribedOnce(ids: seq<SubId>, id: SubId)
    ensures Subscriptions(ids, id) > 0 <==> id in ids
  {
    if ids != [] {
      SubscribedOnce(ids[1..], id);
      assert ids == [ids[0]] + ids[1..];
    }
  }

  // -------- pending rows persist, confirmed rows that disappear are dropped

  /** Nothing that is about this uid: no ban, no unban, no fetched row, and no start or stop. */
  ghost predicate Spares(a: Act, uid: int) {
    match a
    case Start(_, _) => false
    case StopAll => false
    case OnBan(u, _) => u != uid
    case OnUnban(u) => u != uid
    case Refresh(f) => f.Some? ==> uid !in Keys(f.value)
    case Reconcile(f) => f.Some? ==> uid !in Keys(f.value)
    case _ => true
  }

  ghost predicate Holds(bans: seq<Ban>, b: Ban) {
    b.key in AsMap(bans) && AsMap(bans)[b.key] == b.info
  }

  lemma {:induction false} InMap(bans: seq<Ban>, b: Ban)
    requires Unique(bans)
    ensures Holds(bans, b) <==> b in bans
  {
    if bans != [] {
      UniqueTail(bans);
      InMap(bans[1..], b);
      assert bans == [bans[0]] + bans[1..];
      assert b in bans[1..] ==> b.key in Keys(bans[1..]);
    }
  }

  lemma {:induction false} ApplyRowsMap(s: State, rows: seq<Ban>, added: set<int>)
    requires Unique(s.bans)
    ensures var t := ApplyRows(s, rows, added);
            && Unique(t.bans) && Keys(t.bans) == Keys(s.bans) + Keys(rows)
            && forall b: Ban :: b.key !in Keys(rows) ==> (b in t.bans <==> b in s.bans)
    decreases rows
  {
    if rows != [] {
      assert rows == [rows[0]] + rows[1..];
      PutFacts(s.bans, rows[0]);
      ApplyRowsMap(ApplyRow(s, rows[0], added), rows[1..], added);
      forall b: Ban | b.key !in Keys(rows) ensures b in Put(s.bans, rows[0]) <==> b in s.bans {
        InMap(Put(s.bans, rows[0]), b);
        InMap(s.bans, b);
        assert rows[0] in rows && rows[0].key in Keys(rows);
      }
    }
  }

  lemma {:induction false} DropRowsMap(s: State, uids: seq<int>)
    requires Unique(s.bans)
    ensures var t := DropRows(s, uids);
            && Unique(t.bans) && forall b :: b in t.bans <==> b in s.bans && b.key !in uids
    decreases uids
  {
    if uids != [] {
      RemoveFacts(s.bans, uids[0]);
      DropRowsMap(DropRow(s, uids[0]), uids[1..]);
      assert uids == [uids[0]] + uids[1..];
    }
  }

  lemma {:induction false} StaleFacts(bans: seq<Ban>, listed: set<int>, uid: int)
    ensures uid in Stale(bans, listed) <==> uid !in listed && exists b :: b in bans && b.key == uid && !b.info.pending
  {
    if bans != [] {
      StaleFacts(bans[1..], listed, uid);
      assert bans == [bans[0]] + bans[1..];
      if uid !in listed && exists b :: b in bans && b.key == uid && !b.info.pending {
        var b :| b in bans && b.key == uid && !b.info.pending;
        assert b == bans[0] || b in bans[1..];
      }
    }
  }

  lemma StepKeepsPending(s: State, a: Act, b: Ban)
    requires Agree(s) && b in s.bans && b.info.pending && Spares(a, b.key)
    ensures b in Step(s, a).bans
  {
    match a
    case Subscribe(_) =>
    case Unsubscribe(_) =>
    case OnBan(uid, entry) =>
      if entry.Some? && entry.value.key == uid {
        PutFacts(s.bans, entry.value);
        InMap(s.bans, b);
        InMap(Put(s.bans, entry.value), b);
      }
    case OnUnban(uid) => RemoveFacts(s.bans, uid);
    case Refresh(fetched) =>
      if Fetch(s, fetched).Some? {
        PendingOnlyFacts(s.bans, Keys(Fetch(s, fetched).value));
      }
    case Reconcile(fetched) =>
      if s.task && s.room.Some? && fetched.Some? {
        var rows := fetched.value;
        var added := Keys(rows) - Keys(s.bans);
        ApplyRowsMap(s, rows, added);
        DropRowsMap(ApplyRows(s, rows, added), Stale(s.bans, Keys(rows)));
        StaleFacts(s.bans, Keys(rows), b.key);
        InMap(s.bans, b);
        forall c | c in s.bans && c.key == b.key ensures c == b {
          InMap(s.bans, c);
        }
      }
  }

  lemma ExecSnoc(s: State, acts: seq<Act>, a: Act)
    ensures Exec(s, acts + [a]) == Step(Exec(s, acts), a)
  {
    assert (acts + [a])[..|acts|] == acts;
  }

  lemma LastApart<T>(before: seq<T>, acts: seq<T>)
    requires acts != []
    ensures before + acts == (before + acts[..|acts| - 1]) + [acts[|acts| - 1]]
  {
  }

  /** A pending row stays, unchanged, through any number of operations that are not about it. */
  lemma {:induction false} PendingPersists(before: seq<Act>, acts: seq<Act>, b: Ban)
    requires b in Exec(INITIAL, before).bans && b.info.pending
    requires forall i :: 0 <= i < |acts| ==> Spares(acts[i], b.key)
    ensures b in Exec(INITIAL, before + acts).bans
    decreases acts
  {
    if acts == [] {
      assert before + acts == before;
    } else {
      var init, a := acts[..|acts| - 1], acts[|acts| - 1];
      PendingPersists(before, init, b);
      LastApart(before, acts);
      ExecSnoc(INITIAL, before + init, a);
      ReplicaAgreement(before + init);
      StepKeepsPending(Exec(INITIAL, before + init), a, b);
    }
  }

  /** So the row that a ban was accepted with stays, if it is pending, until something is about that uid. */
  lemma PendingBanPersists(before: seq<Act>, entry: Ban, acts: seq<Act>)
    requires entry.info.pending && forall i :: 0 <= i < |acts| ==> Spares(acts[i], entry.key)
    ensures entry in Exec(INITIAL, before + [OnBan(entry.key, Some(entry))] + acts).bans
  {
    var ban := OnBan(entry.key, Some(entry));
    var s := Exec(INITIAL, before);
    assert (before + [ban])[..|before|] == before;
    ReplicaAgreement(before);
    ReplicaAgreement(before + [ban]);
    DictionaryAfter(s, ban, entry.key);
    InMap(Exec(INITIAL, before + [ban]).bans, entry);
    PendingPersists(before + [ban], acts, entry);
  }

  lemma RefreshSettles(bans: seq<Ban>, rows: seq<Ban>, b: Ban)
    requires Unique(bans) && b in Refreshed(bans, rows, true) && b.key !in Keys(rows)
    ensures b.info.pending && b in bans
  {
    PutAllFacts([], rows);
    PendingOnlyFacts(bans, Keys(rows));
    assert b in PutAll([], rows) ==> b.key in Keys(PutAll([], rows));
  }

  lemma ReconcileSettles(s: State, rows: seq<Ban>, b: Ban)
    requires Agree(s) && s.task && s.room.Some?
    requires b in ReconcileStep(s, Some(rows)).bans && b.key !in Keys(rows)
    ensures b.info.pending && b in s.bans
  {
    var added := Keys(rows) - Keys(s.bans);
    ApplyRowsMap(s, rows, added);
    DropRowsMap(ApplyRows(s, rows, added), Stale(s.bans, Keys(rows)));
    StaleFacts(s.bans, Keys(rows), b.key);
  }

  lemma {:induction false} ApplyRowsFetched(s: State, rows: seq<Ban>, added: set<int>, b: Ban)
    requires Unique(s.bans) && b in ApplyRows(s, rows, added).bans && b.key in Keys(rows)
    ensures b in rows
    decreases rows
  {
    assert rows == [rows[0]] + rows[1..];
    PutFacts(s.bans, rows[0]);
    var t := ApplyRow(s, rows[0], added);
    if b.key in Keys(rows[1..]) {
      ApplyRowsFetched(t, rows[1..], added, b);
    } else {
      ApplyRowsMap(t, rows[1..], added);
      InMap(t.bans, b);
    }
  }

  /** A fetched row always wins over the cached one, and every fetched uid is listed. */
  lemma FetchedWins(acts: seq<Act>, a: Act, b: Ban, uid: int)
    requires a.Refresh? || (a.Reconcile? && Exec(INITIAL, acts).task)
    requires a.fetched.Some? && Exec(INITIAL, acts).room.Some?
    ensures b in Exec(INITIAL, acts + [a]).bans && b.key in Keys(a.fetched.value) ==> b in a.fetched.value
    ensures uid in Keys(a.fetched.value) ==> uid in Keys(Exec(INITIAL, acts + [a]).bans)
  {
    assert (acts + [a])[..|acts|] == acts;
    ReplicaAgreement(acts);
    var s, rows := Exec(INITIAL, acts), a.fetched.value;
    if a.Refresh? {
      RefreshWins(s.bans, rows, b);
    } else {
      ReconcileWins(s, rows, b, uid);
    }
  }

  lemma RefreshWins(bans: seq<Ban>, rows: seq<Ban>, b: Ban)
    requires Unique(bans)
    ensures b in Refreshed(bans, rows, true) && b.key in Keys(rows) ==> b in rows
    ensures Keys(rows) <= Keys(Refreshed(bans, rows, true))
  {
    PutAllMembers([], rows);
    PendingOnlyFacts(bans, Keys(rows));
    RefreshedUnique(bans, rows, true);
  }

  lemma ReconcileWins(s: State, rows: seq<Ban>, b: Ban, uid: int)
    requires Agree(s) && s.task && s.room.Some?
    ensures b in ReconcileStep(s, Some(rows)).bans && b.key in Keys(rows) ==> b in rows
    ensures uid in Keys(rows) ==> uid in Keys(ReconcileStep(s, Some(rows)).bans)
  {
    var added := Keys(rows) - Keys(s.bans);
    var t := ApplyRows(s, rows, added);
    ApplyRowsMap(s, rows, added);
    DropRowsMap(t, Stale(s.bans, Keys(rows)));
    if b in t.bans && b.key in Keys(rows) {
      ApplyRowsFetched(s, rows, added, b);
    }
    if uid in Keys(rows) {
      StaleFacts(s.bans, Keys(rows), uid);
      var r :| r in t.bans && r.key == uid;
      assert r in ReconcileStep(s, Some(rows)).bans;
    }
  }

  /** After a fetch that completed, whoever is listed was fetched or is pending. */
  lemma FetchSettles(acts: seq<Act>, a: Act, b: Ban)
    requires a.Refresh? || (a.Reconcile? && Exec(INITIAL, acts).task)
    requires a.fetched.Some? && Exec(INITIAL, acts).room.Some?
    requires b in Exec(INITIAL, acts + [a]).bans && b.key !in Keys(a.fetched.value)
    ensures b.info.pending && b in Exec(INITIAL, acts).bans
  {
    assert (acts + [a])[..|acts|] == acts;
    ReplicaAgreement(acts);
    if a.Refresh? {
      RefreshSettles(Exec(INITIAL, acts).bans, a.fetched.value, b);
    } else {
      ReconcileSettles(Exec(INITIAL, acts), a.fetched.value, b);
    }
  }

  // -------- between snapshots only the uids agree

  /** A row written silently leaves an exact browser exact if and only if the row is the one already cached. */
  lemma SilentWriteExact(s: State, row: Ban, added: set<int>, id: SubId)
    requires Agree(s) && AsMap(View(s, id)) == AsMap(s.bans) && row.key !in added
    ensures AsMap(View(ApplyRow(s, row, added), id)) == AsMap(ApplyRow(s, row, added).bans) <==> row in s.bans
  {
    assert View(ApplyRow(s, row, added), id) == View(s, id);
    assert ApplyRow(s, row, added).bans == Put(s.bans, row);
    PutFacts(s.bans, row);
    InMap(s.bans, row);
    var m := AsMap(s.bans);
    assert m[row.key := row.info] == m <==> row.key in m && m[row.key] == row.info;
  }

  lemma StartOne(info: BanInfo)
    ensures Exec(INITIAL, [Start(1, Some([Row(5, info)]))])
         == State([Row(5, info)], Some(1), true, [], map[])
  {
    assert [Start(1, Some([Row(5, info)]))][..0] == [];
    assert Exec(INITIAL, []) == INITIAL;
    assert PutAll([], [Row(5, info)]) == [Row(5, info)] by {
      assert [Row(5, info)][1..] == [];
    }
  }

  lemma ReconcileOne(s: State, info: BanInfo, other: BanInfo)
    requires s.bans == [Row(5, info)] && s.task && s.room.Some?
    ensures ReconcileStep(s, Some([Row(5, other)])) == s.(bans := [Row(5, other)])
  {
    var rows := [Row(5, other)];
    KeysCons(rows[0], []);
    KeysCons(s.bans[0], []);
    assert rows == rows + [] && s.bans == s.bans + [];
    assert Keys(rows) - Keys(s.bans) == {};
    assert s.bans[1..] == [] && rows[1..] == [];
    assert ApplyRows(s, rows, {}) == s.(bans := rows);
    assert Stale(s.bans, Keys(rows)) == [];
  }

  /** A reconcile that finds a longer ban refreshes the dictionary silently. */
  lemma SilentRefreshDrifts(info: BanInfo, other: BanInfo)
    ensures var run := [Start(1, Some([Row(5, info)])), Subscribe(0), Reconcile(Some([Row(5, other)]))];
            && Exec(INITIAL, run).bans == [Row(5, other)]
            && View(Exec(INITIAL, run), 0) == [Row(5, info)]
  {
    var start, sub := Start(1, Some([Row(5, info)])), Subscribe(0);
    var run := [start, sub, Reconcile(Some([Row(5, other)]))];
    assert run[..2] == [start, sub] && [start, sub][..1] == [start];
    StartOne(info);
    var s1 := Exec(INITIAL, [start]);
    ReplicaAgreement([start]);
    SubscribeAgrees(s1, 0);
    ReconcileOne(Exec(INITIAL, [start, sub]), info, other);
  }
}
