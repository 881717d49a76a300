/** The room session: chat messages seen recently are not forwarded again. */
module Session {
  function LastIds(ids: seq<string>, n: int): seq<string> {
    if n <= 0 then [] else if |ids| <= n then ids else ids[|ids| - n..]
  }

  ghost predicate Distinct(ids: seq<string>) {
    forall i, j :: 0 <= i < j < |ids| ==> ids[i] != ids[j]
  }

  // ---------------------------------------------------------------- specification

  /** How the start of a new client went: only where it reports a failure is the client given up; where it raises, the
      client stays. */
  datatype Start = Started | Failed | Raised

  /** What happens to a session: a chat message arrives (with the id "" when it carries none), the session is connected
      to a room, or it is disconnected. */
  datatype Input = Chat(id: string) | Connect(start: Start) | Disconnect

  /** `connected` says whether there is a client, and `forwarded` are the ids of all messages forwarded since
      the last reset. */
  datatype Track = Track(connected: bool, forwarded: seq<string>)

  predicate Forwards(t: Track, n: int, id: string) {
    id == "" || id !in LastIds(t.forwarded, n)
  }

  function Next(t: Track, n: int, x: Input): Track {
    match x
    case Chat(id) => if id != "" && Forwards(t, n, id) then t.(forwarded := t.forwarded + [id]) else t
    case Connect(start) => t.(connected := !start.Failed?)
    case Disconnect => if t.connected then Track(false, []) else t
  }

  const INITIAL := Track(false, [])

  function After(inputs: seq<Input>, n: int): Track {
    if inputs == [] then INITIAL else Next(After(inputs[..|inputs| - 1], n), n, inputs[|inputs| - 1])
  }

  // ---------------------------------------------------------------- the session

  class RoomSession {
    const dedupSize: int
    var connected: bool
    var seenIds: seq<string>
    var seenIdSet: set<string>
    ghost var forwarded: seq<string>

    ghost function Abs(): Track
      reads this
    {
      Track(connected, forwarded)
    }

    /** The deque and the set hold the same distinct ids: the last ones forwarded since the reset. */
    ghost predicate Valid()
      reads this
    {
      && seenIds == LastIds(forwarded, dedupSize)
      && Distinct(seenIds)
      && seenIdSet == (set id | id in seenIds)
    }

    constructor (dedupSize: int)
      ensures Valid() && Abs() == INITIAL && this.dedupSize == dedupSize
    {
      this.dedupSize := dedupSize;
      connected, seenIds, seenIdSet, forwarded := false, [], {}, [];
    }

    /** A chat message: whether it goes on to the callbacks. */
    method OnMessage(id: string) returns (forward: bool)
      requires Valid()
      modifies this
      ensures Valid() && Abs() == Next(old(Abs()), dedupSize, Chat(id))
      ensures forward <==> Forwards(old(Abs()), dedupSize, id)
    {
      forward := true;
      if id != "" {
        if id in seenIdSet {
          return false;
        }
        if dedupSize > 0 {
          if |seenIds| >= dedupSize {
            var oldest := seenIds[0];
            assert seenIds == [oldest] + seenIds[1..];
            seenIds := seenIds[1..];
            seenIdSet := seenIdSet - {oldest};
          }
          seenIds := seenIds + [id];
          seenIdSet := seenIdSet + {id};
        }
        forwarded := forwarded + [id];
      }
    }

    /** A previous client is stopped, but the window stays as it is. */
    method ConnectRoom(start: Start)
      requires Valid()
      modifies this`connected
      ensures Valid() && Abs() == Next(old(Abs()), dedupSize, Connect(start))
    {
      connected := true;
      if start.Failed? {
        connected := false;
      }
    }

    method DisconnectRoom()
      requires Valid()
      modifies this
      ensures Valid() && Abs() == Next(old(Abs()), dedupSize, Disconnect)
    {
      if !connected {
        return;
      }
      connected, seenIds, seenIdSet, forwarded := false, [], {}, [];
    }
  }

  /** Spelled out: a message goes on unless its id is one of the last n that went on. */
  lemma ForwardsExactly(t: Track, n: int, id: string)
    ensures !Forwards(t, n, id)
       <==> id != "" && exists k :: 0 <= k < |t.forwarded| && k >= |t.forwarded| - n && t.forwarded[k] == id
    ensures |LastIds(t.forwarded, n)| <= if n > 0 then n else 0
  {
    var f, last := t.forwarded, LastIds(t.forwarded, n);
    if id in last {
      var j :| 0 <= j < |last| && last[j] == id;
      assert f[|f| - |last| + j] == id;
    }
    if k :| 0 <= k < |f| && k >= |f| - n && f[k] == id {
      assert last[k - (|f| - |last|)] == id;
    }
  }

  // ---------------------------------------------------------------- whole runs

  function Forwarded(inputs: seq<Input>, n: int): seq<string> { After(inputs, n).forwarded }

  /** Any n forwarded ids in a row are pairwise different. */
  lemma {:induction false} WindowsDistinct(inputs: seq<Input>, n: int, i: nat, j: nat)
    requires i < j < |Forwarded(inputs, n)| && j - i <= n
    ensures Forwarded(inputs, n)[i] != Forwarded(inputs, n)[j]
  {
    var init := inputs[..|inputs| - 1];
    var before := Forwarded(init, n);
    if j < |before| {
      WindowsDistinct(init, n, i, j);
    } else {
      var last := LastIds(before, n);
      assert before[i] == last[i - (|before| - |last|)];
    }
  }

  lemma WindowBefore(inputs: seq<Input>, n: nat, j: nat)
    requires n <= j < |Forwarded(inputs, n)|
    ensures var f := Forwarded(inputs, n); Distinct(f[j - n..j]) && f[j] !in f[j - n..j]
  {
    var f := Forwarded(inputs, n);
    var between := f[j - n..j];
    forall a, b | 0 <= a < b < n ensures between[a] != between[b] {
      WindowsDistinct(inputs, n, j - n + a, j - n + b);
    }
    forall a | 0 <= a < n ensures between[a] != f[j] {
      WindowsDistinct(inputs, n, j - n + a, j);
    }
  }

  /** Between two forwards of one id lie at least n others, pairwise different and different from it; the last n
      before the second are the witnesses. */
  lemma RepeatsFarApart(inputs: seq<Input>, n: int, i: nat, j: nat)
    requires i < j < |Forwarded(inputs, n)| && Forwarded(inputs, n)[i] == Forwarded(inputs, n)[j]
    ensures j - i > n
    ensures n > 0 ==> var between := Forwarded(inputs, n)[j - n..j];
                      Distinct(between) && Forwarded(inputs, n)[j] !in between && i < j - n
  {
    if j - i <= n {
      WindowsDistinct(inputs, n, i, j);
    } else if n > 0 {
      WindowBefore(inputs, n, j);
    }
  }

  /** The ids of all chat messages that came with one since the last reset. */
  function Heard(inputs: seq<Input>): Track {
    if inputs == [] then INITIAL
    else
      var t := Heard(inputs[..|inputs| - 1]);
      match inputs[|inputs| - 1]
      case Chat(id) => if id != "" then t.(forwarded := t.forwarded + [id]) else t
      case Connect(start) => t.(connected := !start.Failed?)
      case Disconnect => if t.connected then INITIAL else t
  }

  /** There is a client after connecting unless its start reported a failure: also when the start raised. */
  lemma ClientAfter(inputs: seq<Input>, n: int)
    ensures After(inputs + [Connect(Started)], n).connected && After(inputs + [Connect(Raised)], n).connected
    ensures !After(inputs + [Connect(Failed)], n).connected && !After(inputs + [Disconnect], n).connected
    ensures forall id :: After(inputs + [Chat(id)], n).connected == After(inputs, n).connected
  {
    AfterTwo(inputs, n, Connect(Started), Disconnect);
    AfterTwo(inputs, n, Connect(Raised), Disconnect);
    AfterTwo(inputs, n, Connect(Failed), Disconnect);
    AfterTwo(inputs, n, Disconnect, Disconnect);
    forall id ensures After(inputs + [Chat(id)], n).connected == After(inputs, n).connected {
      AfterTwo(inputs, n, Chat(id), Disconnect);
    }
  }

  /** Without a window (n <= 0) everything is forwarded. */
  lemma {:induction false} NoWindow(inputs: seq<Input>, n: int)
    requires n <= 0
    ensures After(inputs, n) == Heard(inputs)
  {
    if inputs != [] {
      NoWindow(inputs[..|inputs| - 1], n);
    }
  }

  lemma AfterTwo(inputs: seq<Input>, n: int, x: Input, y: Input)
    ensures After(inputs + [x], n) == Next(After(inputs, n), n, x)
    ensures After(inputs + [x, y], n) == Next(Next(After(inputs, n), n, x), n, y)
  {
    assert (inputs + [x])[..|inputs|] == inputs;
    assert inputs + [x, y] == (inputs + [x]) + [y] && ((inputs + [x]) + [y])[..|inputs| + 1] == inputs + [x];
  }

  /** A message that has just been heard goes through again after a disconnect if and only if the session was connected
      at that moment; connecting to another room directly never gives it a fresh window. */
  lemma FreshWindow(inputs: seq<Input>, n: int, id: string, start: Start)
    requires n > 0 && id != ""
    ensures var heard := inputs + [Chat(id)];
            && (Forwards(After(heard + [Disconnect, Connect(start)], n), n, id) <==> After(inputs, n).connected)
            && !Forwards(After(heard + [Connect(start)], n), n, id)
  {
    var heard := inputs + [Chat(id)];
    AfterTwo(inputs, n, Chat(id), Disconnect);
    AfterTwo(heard, n, Disconnect, Connect(start));
    AfterTwo(heard, n, Connect(start), Disconnect);
    HeardLast(After(inputs, n).forwarded, n, id);
  }

  lemma HeardLast(ids: seq<string>, n: int, id: string)
    requires n > 0
    ensures id in LastIds(ids + [id], n)
  {
    var last := LastIds(ids + [id], n);
    assert last[|last| - 1] == id;
  }

  /** The session forwards exactly that. */
  method Replay(session: RoomSession, inputs: seq<Input>)
    requires session.Valid() && session.Abs() == INITIAL
    modifies session
    ensures session.Valid() && session.Abs() == After(inputs, session.dedupSize)
  {
    for i := 0 to |inputs|
      invariant session.Valid() && session.Abs() == After(inputs[..i], session.dedupSize)
    {
      assert inputs[..i + 1][..i] == inputs[..i];
      match inputs[i]
      case Chat(id) => var _ := session.OnMessage(id);
      case Connect(start) => session.ConnectRoom(start);
      case Disconnect => session.DisconnectRoom();
    }
    assert inputs[..|inputs|] == inputs;
  }
}
