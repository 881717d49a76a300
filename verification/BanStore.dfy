/** The browser's ban store: it folds the messages of the ban-list socket into a list with one row per uid. */
module BanStore {
  import opened OrderedDict
  import opened BanEntry

  /** A field that a delta may leave out; JSON null is `Given(None)`. */
  datatype Field<T> = Absent | Given(value: T)

  datatype Update = Update(
    uid: int, blockId: Field<Option<int>>, uname: Field<string>, operatorUid: Field<Option<int>>,
    operatorName: Field<string>, hour: Field<Option<int>>, reason: Field<string>,
    createdAt: Field<Option<Stamp>>, expiresAt: Field<Option<Stamp>>, pending: Field<bool>)

  datatype Msg = SnapshotMsg(bans: seq<Update>) | Added(ban: Update) | Removed(uid: int)

  /** How the backend sends a row: with every field. */
  function Full(b: Ban): Update {
    Update(b.key, Given(b.info.blockId), Given(b.info.uname), Given(b.info.operatorUid), Given(b.info.operatorName),
           Given(b.info.hour), Given(b.info.reason), Given(b.info.createdAt), Given(b.info.expiresAt),
           Given(b.info.pending))
  }

  function Or<T>(f: Field<T>, otherwise: T): T { if f.Given? then f.value else otherwise }

  function NormalizeEntry(u: Update): Ban {
    Row(u.uid, BanInfo(
      Or(u.blockId, None), Or(u.uname, ""), Or(u.operatorUid, None), Or(u.operatorName, ""), Or(u.hour, None),
      Or(u.reason, ""), Or(u.createdAt, None), Or(u.expiresAt, None), Or(u.pending, false)))
  }

  function Merge(prior: BanInfo, u: Update): BanInfo {
    var blockId := OrElse(Or(u.blockId, None), prior.blockId);
    BanInfo(
      blockId, Or(u.uname, prior.uname), Or(u.operatorUid, prior.operatorUid),
      Or(u.operatorName, prior.operatorName), Or(u.hour, prior.hour), Or(u.reason, prior.reason),
      Or(u.createdAt, prior.createdAt), Or(u.expiresAt, prior.expiresAt),
      if blockId.Some? || u.pending == Given(false) then false else Or(u.pending, prior.pending))
  }

  /** The first row with this uid. */
  function Find(list: seq<Ban>, uid: int): Option<BanInfo> {
    if list == [] then None else if list[0].key == uid then Some(list[0].info) else Find(list[1..], uid)
  }

  function NormalizeAll(us: seq<Update>): seq<Ban> {
    if us == [] then [] else [NormalizeEntry(us[0])] + NormalizeAll(us[1..])
  }

  function Apply(list: seq<Ban>, m: Msg): seq<Ban> {
    match m
    case SnapshotMsg(bans) => PutAll([], NormalizeAll(bans))
    case Added(u) =>
      var prior := Find(list, u.uid);
      Put(list, if prior.None? then NormalizeEntry(u) else Row(u.uid, Merge(prior.value, u)))
    case Removed(uid) => Remove(list, uid)
  }

  lemma {:induction false} FirstIndex(list: seq<Ban>, r: Ban, idx: nat)
    requires idx <= |list| && forall j :: 0 <= j < idx ==> list[j].key != r.key
    requires idx < |list| ==> list[idx].key == r.key
    ensures Find(list, r.key) == if idx < |list| then Some(list[idx].info) else None
    ensures Put(list, r) == if idx < |list| then list[idx := r] else list + [r]
    decreases idx
  {
    if idx > 0 {
      FirstIndex(list[1..], r, idx - 1);
    }
  }

  class Store {
    var banList: seq<Ban>

    constructor ()
      ensures banList == []
    {
      banList := [];
    }

    method ApplySnapshot(bans: seq<Update>)
      modifies this
      ensures banList == Apply(old(banList), SnapshotMsg(bans))
    {
      var m: seq<Ban> := [];
      assert bans[0..] == bans;
      for i := 0 to |bans|
        invariant PutAll([], NormalizeAll(bans)) == PutAll(m, NormalizeAll(bans[i..]))
      {
        assert bans[i..][1..] == bans[i + 1..];
        assert NormalizeAll(bans[i..])[1..] == NormalizeAll(bans[i + 1..]);
        m := Put(m, NormalizeEntry(bans[i]));
      }
      banList := m;
    }

    method AddBan(entry: Update)
      modifies this
      ensures banList == Apply(old(banList), Added(entry))
    {
      var idx := 0;
      while idx < |banList| && banList[idx].key != entry.uid
        invariant 0 <= idx <= |banList| && banList == old(banList)
        invariant forall j :: 0 <= j < idx ==> banList[j].key != entry.uid
      {
        idx := idx + 1;
      }
      if idx == |banList| {
        FirstIndex(banList, NormalizeEntry(entry), idx);
        banList := banList + [NormalizeEntry(entry)];
      } else {
        var merged := Row(entry.uid, Merge(banList[idx].info, entry));
        FirstIndex(banList, merged, idx);
        banList := banList[idx := merged];
      }
    }

    method RemoveBan(uid: int)
      modifies this
      ensures banList == Apply(old(banList), Removed(uid))
    {
      banList := Remove(banList, uid);
    }
  }

  // ---------------------------------------------------------------- folding

  function Fold(ms: seq<Msg>): seq<Ban> {
    if ms == [] then [] else Apply(Fold(ms[..|ms| - 1]), ms[|ms| - 1])
  }

  function Uids(us: seq<Update>): set<int> { set u | u in us :: u.uid }

  function UidsAfter(uids: set<int>, m: Msg): set<int> {
    match m
    case SnapshotMsg(bans) => Uids(bans)
    case Added(u) => uids + {u.uid}
    case Removed(uid) => uids - {uid}
  }

  lemma {:induction false} NormalizeAllUids(us: seq<Update>)
    ensures Keys(NormalizeAll(us)) == Uids(us)
  {
    if us != [] {
      NormalizeAllUids(us[1..]);
      assert us == [us[0]] + us[1..];
      assert Keys(NormalizeAll(us)) == {us[0].uid} + Keys(NormalizeAll(us[1..])) by {
        assert NormalizeAll(us) == [NormalizeEntry(us[0])] + NormalizeAll(us[1..]);
        assert NormalizeEntry(us[0]) in NormalizeAll(us);
      }
    }
  }

  lemma ApplyUids(list: seq<Ban>, m: Msg)
    requires Unique(list)
    ensures Unique(Apply(list, m)) && Keys(Apply(list, m)) == UidsAfter(Keys(list), m)
  {
    match m
    case SnapshotMsg(bans) =>
      PutAllFacts([], NormalizeAll(bans));
      NormalizeAllUids(bans);
    case Added(u) =>
      var prior := Find(list, u.uid);
      PutFacts(list, if prior.None? then NormalizeEntry(u) else Row(u.uid, Merge(prior.value, u)));
    case Removed(uid) =>
      RemoveFacts(list, uid);
  }

  lemma {:induction false} FoldUnique(ms: seq<Msg>)
    ensures Unique(Fold(ms))
  {
    if ms != [] {
      FoldUnique(ms[..|ms| - 1]);
      ApplyUids(Fold(ms[..|ms| - 1]), ms[|ms| - 1]);
    }
  }

  lemma {:induction false} FindIsLookup(list: seq<Ban>, uid: int)
    ensures Find(list, uid) == if uid in AsMap(list) then Some(AsMap(list)[uid]) else None
  {
    if list != [] {
      FindIsLookup(list[1..], uid);
    }
  }

  /** A sparse delta never wipes what the row already had, never takes a block id away, and never turns a confirmed
      row back into a pending one. */
  lemma SparseDelta(ms: seq<Msg>, u: Update)
    requires Find(Fold(ms), u.uid).Some?
    ensures var prior, after := Find(Fold(ms), u.uid).value, Find(Fold(ms + [Added(u)]), u.uid);
            && after.Some?
            && (u.uname.Absent? ==> after.value.uname == prior.uname)
            && (u.operatorUid.Absent? ==> after.value.operatorUid == prior.operatorUid)
            && (u.operatorName.Absent? ==> after.value.operatorName == prior.operatorName)
            && (u.hour.Absent? ==> after.value.hour == prior.hour)
            && (u.reason.Absent? ==> after.value.reason == prior.reason)
            && (u.createdAt.Absent? ==> after.value.createdAt == prior.createdAt)
            && (u.expiresAt.Absent? ==> after.value.expiresAt == prior.expiresAt)
            && (prior.blockId.Some? ==> after.value.blockId.Some? && !after.value.pending)
            && (u.blockId.Absent? || u.blockId == Given(None) ==> after.value.blockId == prior.blockId)
            && (after.value.pending ==> after.value.blockId.None? && (u.pending == Given(true) || prior.pending))
            // and what it gives is taken over as given
            && (u.uname.Given? ==> after.value.uname == u.uname.value)
            && (u.operatorUid.Given? ==> after.value.operatorUid == u.operatorUid.value)
            && (u.operatorName.Given? ==> after.value.operatorName == u.operatorName.value)
            && (u.hour.Given? ==> after.value.hour == u.hour.value)
            && (u.reason.Given? ==> after.value.reason == u.reason.value)
            && (u.createdAt.Given? ==> after.value.createdAt == u.createdAt.value)
            && (u.expiresAt.Given? ==> after.value.expiresAt == u.expiresAt.value)
            && (u.blockId.Given? && u.blockId.value.Some? ==> after.value.blockId == u.blockId.value)
            && (after.value.blockId.None? && u.pending == Given(true) ==> after.value.pending)
            && (after.value.blockId.None? && u.pending.Absent? ==> after.value.pending == prior.pending)
            && (u.pending == Given(false) ==> !after.value.pending)
  {
    FoldUnique(ms);
    assert (ms + [Added(u)])[..|ms|] == ms;
    var merged := Row(u.uid, Merge(Find(Fold(ms), u.uid).value, u));
    PutFacts(Fold(ms), merged);
    FindIsLookup(Put(Fold(ms), merged), u.uid);
  }

  /** A uid that is new is shown as given, and with nothing in the fields that are left out. */
  lemma FirstDelta(ms: seq<Msg>, u: Update)
    requires Find(Fold(ms), u.uid).None?
    ensures var row := Find(Fold(ms + [Added(u)]), u.uid);
            && row.Some?
            && row.value.blockId == (if u.blockId.Given? then u.blockId.value else None)
            && row.value.uname == (if u.uname.Given? then u.uname.value else "")
            && row.value.operatorUid == (if u.operatorUid.Given? then u.operatorUid.value else None)
            && row.value.operatorName == (if u.operatorName.Given? then u.operatorName.value else "")
            && row.value.hour == (if u.hour.Given? then u.hour.value else None)
            && row.value.reason == (if u.reason.Given? then u.reason.value else "")
            && row.value.createdAt == (if u.createdAt.Given? then u.createdAt.value else None)
            && row.value.expiresAt == (if u.expiresAt.Given? then u.expiresAt.value else None)
            && row.value.pending == (u.pending == Given(true))
  {
    FoldUnique(ms);
    assert (ms + [Added(u)])[..|ms|] == ms;
    PutFacts(Fold(ms), NormalizeEntry(u));
    FindIsLookup(Put(Fold(ms), NormalizeEntry(u)), u.uid);
  }

  lemma {:induction false} NormalizeLast(us: seq<Update>)
    ensures |NormalizeAll(us)| == |us|
    ensures us != [] ==> NormalizeAll(us) == NormalizeAll(us[..|us| - 1]) + [NormalizeEntry(us[|us| - 1])]
  {
    if us != [] {
      NormalizeLast(us[1..]);
      if |us| > 1 {
        assert us[1..][..|us| - 2] == us[..|us| - 1][1..];
      } else {
        assert us[1..] == [] && us[..0] == [];
      }
    }
  }

  /** The last entry of a snapshot for this uid. */
  function LastEntry(us: seq<Update>, uid: int): Option<BanInfo> {
    if us == [] then None
    else if us[|us| - 1].uid == uid then Some(NormalizeEntry(us[|us| - 1]).info)
    else LastEntry(us[..|us| - 1], uid)
  }

  lemma {:induction false} LastEntryRow(us: seq<Update>, uid: int)
    ensures LastRow(NormalizeAll(us), uid) == LastEntry(us, uid)
  {
    if us != [] {
      NormalizeLast(us);
      LastEntryRow(us[..|us| - 1], uid);
      var rows := NormalizeAll(us);
      assert rows[..|rows| - 1] == NormalizeAll(us[..|us| - 1]);
    }
  }

  /** A snapshot is authoritative: what is shown for a uid is its last entry there, and nothing of before. */
  lemma SnapshotLast(list: seq<Ban>, us: seq<Update>, uid: int)
    ensures Find(Apply(list, SnapshotMsg(us)), uid) == LastEntry(us, uid)
  {
    PutAllLast([], NormalizeAll(us), uid);
    LastEntryRow(us, uid);
    FindIsLookup(Apply(list, SnapshotMsg(us)), uid);
  }

  /** The other rows are left as they are, by any delta. */
  lemma OthersKept(list: seq<Ban>, m: Msg, uid: int)
    requires (m.Added? && m.ban.uid != uid) || (m.Removed? && m.uid != uid)
    ensures Find(Apply(list, m), uid) == Find(list, uid)
  {
    FindIsLookup(list, uid);
    FindIsLookup(Apply(list, m), uid);
    match m
    case Added(u) =>
      var prior := Find(list, u.uid);
      PutMap(list, if prior.None? then NormalizeEntry(u) else Row(u.uid, Merge(prior.value, u)));
    case Removed(x) => RemoveMap(list, x);
  }

  function FullAll(bs: seq<Ban>): seq<Update> {
    if bs == [] then [] else [Full(bs[0])] + FullAll(bs[1..])
  }

  lemma {:induction false} FullAllBack(bs: seq<Ban>)
    ensures NormalizeAll(FullAll(bs)) == bs && Uids(FullAll(bs)) == Keys(bs)
  {
    if bs != [] {
      FullAllBack(bs[1..]);
      assert bs == [bs[0]] + bs[1..];
    }
    NormalizeAllUids(FullAll(bs));
  }

  /** A snapshot of a dictionary is shown row by row. */
  lemma SnapshotShown(list: seq<Ban>, bs: seq<Ban>)
    requires Unique(bs)
    ensures Apply(list, SnapshotMsg(FullAll(bs))) == bs
  {
    FullAllBack(bs);
    assert [] + bs == bs;
    PutAllUnique([], bs);
  }
}
