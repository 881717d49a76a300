/** Frames of the live socket: a 16-byte big-endian header, and a payload that may hold more frames. */
module Protocol {
  import opened OrderedDict

  type Byte = b: int | 0 <= b < 256
  type Bytes = seq<Byte>

  const HEADER_LENGTH := 16
  const SEQUENCE := 1

  const HEARTBEAT_RSP := 3
  const NORMAL := 5
  const AUTH_RSP := 8

  const PLAIN := 0
  const RAW := 1
  const ZLIB := 2
  const BROTLI := 3

  /** A JSON object; what it says plays no role here, so it is only named. */
  type Json = nat

  datatype Message = Document(json: Json) | OnlineCount(count: nat)

  /** zlib, brotli and JSON as foreign code: decoders are partial, and say None where the library raises
      (for JSON also where the text is not an object). */
  datatype Codec = Codec(
    inflate: Bytes -> Option<Bytes>,
    deflate: Bytes -> Bytes,
    brotliDecompress: Bytes -> Option<Bytes>,
    brotliCompress: Bytes -> Bytes,
    loads: Bytes -> Option<Json>,
    dumps: Json -> Bytes)

  /** What is assumed of the foreign code. The last law is RFC 8259, sections 2 and 7: a JSON text is never empty
      and holds no NUL, neither between tokens nor unescaped in a string. */
  ghost predicate Lawful(c: Codec) {
    && (forall b: Bytes :: c.inflate(c.deflate(b)) == Some(b))
    && (forall b: Bytes :: c.brotliDecompress(c.brotliCompress(b)) == Some(b))
    && (forall j: Json :: c.loads(c.dumps(j)) == Some(j))
    && (forall b: Bytes :: b == [] || 0 in b ==> c.loads(b) == None)
  }

  // ---------------------------------------------------------------- integers

  function U16(n: nat): Bytes
    requires n < 0x1_0000
  {
    [n / 0x100, n % 0x100]
  }

  function U32(n: nat): Bytes
    requires n < 0x1_0000_0000
  {
    U16(n / 0x1_0000) + U16(n % 0x1_0000)
  }

  function FromU16(b: Bytes): nat
    requires |b| == 2
  {
    (b[0] as int) * 0x100 + b[1] as int
  }

  function FromU32(b: Bytes): nat
    requires |b| == 4
  {
    FromU16(b[..2]) * 0x1_0000 + FromU16(b[2..])
  }

  lemma U16RoundTrip(n: nat)
    requires n < 0x1_0000
    ensures FromU16(U16(n)) == n
  {
  }

  lemma U32RoundTrip(n: nat)
    requires n < 0x1_0000_0000
    ensures |U32(n)| == 4 && FromU32(U32(n)) == n
  {
    assert U32(n)[..2] == U16(n / 0x1_0000) && U32(n)[2..] == U16(n % 0x1_0000);
    U16RoundTrip(n / 0x1_0000);
    U16RoundTrip(n % 0x1_0000);
  }

  /** The most significant byte comes first. */
  lemma BigEndian(n: nat)
    requires n < 0x1_0000_0000
    ensures var b := U32(n);
            |b| == 4 && n == 0x100_0000 * (b[0] as int) + 0x1_0000 * (b[1] as int) + 0x100 * (b[2] as int) + b[3] as int
  {
  }

  // ---------------------------------------------------------------- printer

  function Header(total: nat, ver: nat, kind: nat): Bytes
    requires total < 0x1_0000_0000 && ver < 0x1_0000 && kind < 0x1_0000_0000
  {
    U32(total) + U16(HEADER_LENGTH) + U16(ver) + U32(kind) + U32(SEQUENCE)
  }

  /** None where the header cannot hold a number, which is where the struct module raises. */
  function PackData(data: Bytes, kind: int, ver: int): Option<Bytes> {
    var total := |data| + HEADER_LENGTH;
    if total < 0x1_0000_0000 && 0 <= ver < 0x1_0000 && 0 <= kind < 0x1_0000_0000
    then Some(Header(total, ver, kind) + data)
    else None
  }

  function TotalLength(d: Bytes): nat requires |d| >= 16 { FromU32(d[0..4]) }
  function HeaderLength(d: Bytes): nat requires |d| >= 16 { FromU16(d[4..6]) }
  function Version(d: Bytes): nat requires |d| >= 16 { FromU16(d[6..8]) }
  function Kind(d: Bytes): nat requires |d| >= 16 { FromU32(d[8..12]) }

  lemma SameHeader(a: Bytes, b: Bytes)
    requires |a| >= 16 && |b| >= 16 && a[..16] == b[..16]
    ensures TotalLength(a) == TotalLength(b) && HeaderLength(a) == HeaderLength(b)
    ensures Version(a) == Version(b) && Kind(a) == Kind(b)
  {
    assert a[0..4] == a[..16][0..4] == b[0..4];
    assert a[4..6] == a[..16][4..6] == b[4..6];
    assert a[6..8] == a[..16][6..8] == b[6..8];
    assert a[8..12] == a[..16][8..12] == b[8..12];
  }

  /** The header fields are read back, and the frame holds a NUL. */
  lemma PackedHeader(data: Bytes, kind: int, ver: int, rest: Bytes)
    requires PackData(data, kind, ver).Some?
    ensures var f := PackData(data, kind, ver).value;
            && |f| == |data| + HEADER_LENGTH && f[16..] == data && 0 in f
            && |f| == 0x100_0000 * (f[0] as int) + 0x1_0000 * (f[1] as int) + 0x100 * (f[2] as int) + f[3] as int
            && TotalLength(f + rest) == |f|
            && HeaderLength(f + rest) == HEADER_LENGTH
            && Version(f + rest) == ver
            && Kind(f + rest) == kind
  {
    var total := |data| + HEADER_LENGTH;
    var h := Header(total, ver, kind);
    var d := h + data + rest;
    BigEndian(total);
    U32RoundTrip(total);
    U32RoundTrip(kind);
    U32RoundTrip(SEQUENCE);
    assert d[0..4] == h[0..4] == U32(total);
    assert d[4..6] == h[4..6] == U16(HEADER_LENGTH);
    assert d[6..8] == h[6..8] == U16(ver);
    assert d[8..12] == h[8..12] == U32(kind);
    assert U16(HEADER_LENGTH)[0] == 0;
    assert h[4] == h[4..6][0] == 0;
  }

  // ---------------------------------------------------------------- parser, as a function

  /** The stream starts with a complete frame whose header passes the sanity check. */
  predicate WholeFrame(d: Bytes) {
    && |d| >= HEADER_LENGTH
    && HeaderLength(d) == HEADER_LENGTH
    && HEADER_LENGTH <= TotalLength(d) <= |d|
  }

  /** The messages of a byte stream. `fuel` bounds how many decompressions may be nested; None means it ran out.
      Recursion without decompression needs no fuel: a nested payload is at least 16 bytes shorter. */
  function Unpack(c: Codec, d: Bytes, fuel: nat): Option<seq<Message>>
    decreases fuel, |d|, 0
  {
    if !WholeFrame(d) then Some([])
    else
      var n := TotalLength(d);
      var first := FrameMessages(c, Version(d), Kind(d), d[16..n], fuel);
      if first.None? then None
      else
        var rest := Unpack(c, d[n..], fuel);
        Prepend(first.value, rest)
  }

  function FrameMessages(c: Codec, ver: nat, kind: nat, payload: Bytes, fuel: nat): Option<seq<Message>>
    decreases fuel, |payload|, 2
  {
    if ver == PLAIN || ver == RAW then Dispatch(c, kind, payload, fuel)
    else if ver == ZLIB || ver == BROTLI then
      var plain := if ver == ZLIB then c.inflate(payload) else c.brotliDecompress(payload);
      if plain.None? then Some([])
      else if fuel == 0 then None
      else Dispatch(c, kind, plain.value, fuel - 1)
    else Some([])
  }

  function Dispatch(c: Codec, kind: nat, payload: Bytes, fuel: nat): Option<seq<Message>>
    decreases fuel, |payload|, 1
  {
    if kind == NORMAL then
      if c.loads(payload).Some? then Some([Document(c.loads(payload).value)]) else Unpack(c, payload, fuel)
    else if kind == AUTH_RSP && c.loads(payload).Some? then Some([Document(c.loads(payload).value)])
    else if kind == HEARTBEAT_RSP && |payload| >= 4 then Some([OnlineCount(FromU32(payload[..4]))])
    else Some([])
  }

  function Prepend(ms: seq<Message>, r: Option<seq<Message>>): Option<seq<Message>> {
    if r.None? then None else Some(ms + r.value)
  }

  lemma PrependTwice(a: seq<Message>, b: seq<Message>, r: Option<seq<Message>>)
    ensures Prepend(a, Prepend(b, r)) == Prepend(a + b, r)
    ensures Prepend([], r) == r
  {
    if r.Some? {
      assert a + (b + r.value) == (a + b) + r.value;
      assert [] + r.value == r.value;
    }
  }

  // ---------------------------------------------------------------- parser, as a loop

  /** `struct.unpack_from` on the bytes at an offset. */
  method ReadHeader(data: Bytes, offset: nat) returns (total: nat, headerLength: nat, ver: nat, kind: nat)
    requires offset + HEADER_LENGTH <= |data|
    ensures var d := data[offset..];
            && total == TotalLength(d) && headerLength == HeaderLength(d) && ver == Version(d) && kind == Kind(d)
            && (WholeFrame(d) <==> headerLength == HEADER_LENGTH <= total <= |data| - offset)
  {
    ghost var d := data[offset..];
    assert d[0..4] == data[offset..offset + 4] && d[4..6] == data[offset + 4..offset + 6];
    assert d[6..8] == data[offset + 6..offset + 8] && d[8..12] == data[offset + 8..offset + 12];
    total := FromU32(data[offset..offset + 4]);
    headerLength := FromU16(data[offset + 4..offset + 6]);
    ver := FromU16(data[offset + 6..offset + 8]);
    kind := FromU32(data[offset + 8..offset + 12]);
  }

  /** How many whole frames the stream starts with; each takes at least 16 bytes. */
  function Frames(d: Bytes): (n: nat)
    ensures HEADER_LENGTH * n <= |d|
    decreases |d|
  {
    if WholeFrame(d) then 1 + Frames(d[TotalLength(d)..]) else 0
  }

  /** One turn of the loop, seen from what it has collected so far. */
  lemma Turn(c: Codec, data: Bytes, offset: nat, n: nat, messages: seq<Message>, fuel: nat)
    requires offset <= |data| && WholeFrame(data[offset..]) && n == TotalLength(data[offset..])
    ensures var d := data[offset..];
            var first := FrameMessages(c, Version(d), Kind(d), data[offset + HEADER_LENGTH..offset + n], fuel);
            Prepend(messages, Unpack(c, d, fuel))
            == if first.None? then None else Prepend(messages + first.value, Unpack(c, data[offset + n..], fuel))
    ensures Frames(data[offset..]) == 1 + Frames(data[offset + n..])
  {
    var d := data[offset..];
    assert d[16..n] == data[offset + HEADER_LENGTH..offset + n] && d[n..] == data[offset + n..];
    var first := FrameMessages(c, Version(d), Kind(d), d[16..n], fuel);
    if first.Some? {
      PrependTwice(messages, first.value, Unpack(c, d[n..], fuel));
    }
  }

  lemma NoTurn(c: Codec, d: Bytes, messages: seq<Message>, fuel: nat)
    requires !WholeFrame(d)
    ensures Prepend(messages, Unpack(c, d, fuel)) == Some(messages) && Frames(d) == 0
  {
    assert messages + [] == messages;
  }

  /** What is parsed so far, in so many turns, and what is still ahead make up the whole stream. */
  ghost predicate Ahead(c: Codec, data: Bytes, offset: nat, messages: seq<Message>, turns: nat, fuel: nat) {
    && offset <= |data| && HEADER_LENGTH * turns <= offset
    && Frames(data) == turns + Frames(data[offset..])
    && Unpack(c, data, fuel) == Prepend(messages, Unpack(c, data[offset..], fuel))
  }

  lemma AheadNext(c: Codec, data: Bytes, offset: nat, messages: seq<Message>, turns: nat, fuel: nat, n: nat)
    requires Ahead(c, data, offset, messages, turns, fuel)
    requires WholeFrame(data[offset..]) && n == TotalLength(data[offset..])
    ensures var d := data[offset..];
            var first := FrameMessages(c, Version(d), Kind(d), data[offset + HEADER_LENGTH..offset + n], fuel);
            && (first.None? ==> Unpack(c, data, fuel) == None)
            && (first.Some? ==> Ahead(c, data, offset + n, messages + first.value, turns + 1, fuel))
  {
    Turn(c, data, offset, n, messages, fuel);
  }

  /** The loop takes one turn for each whole frame, unless the fuel runs out. */
  method UnpackData(c: Codec, data: Bytes, fuel: nat) returns (r: Option<seq<Message>>, ghost turns: nat)
    ensures r == Unpack(c, data, fuel)
    ensures HEADER_LENGTH * turns <= |data| && (r.Some? ==> turns == Frames(data))
    decreases fuel, |data|, 0
  {
    var messages: seq<Message> := [];
    var offset := 0;
    turns := 0;
    assert data[0..] == data;
    PrependTwice([], [], Unpack(c, data, fuel));
    while offset + HEADER_LENGTH <= |data|
      invariant 0 <= offset <= |data|
      invariant Ahead(c, data, offset, messages, turns, fuel)
      decreases |data| - offset
    {
      var total, headerLength, ver, kind := ReadHeader(data, offset);
      if headerLength != HEADER_LENGTH || total < HEADER_LENGTH {
        break;
      }
      if offset + total > |data| {
        break;
      }
      var payload := data[offset + headerLength..offset + total];
      var nextOffset := offset + total;
      AheadNext(c, data, offset, messages, turns, fuel, total);
      var received := FramePayload(c, ver, kind, payload, fuel);
      if received.None? {
        return None, turns;
      }
      messages := messages + received.value;
      offset := nextOffset;
      turns := turns + 1;
    }
    NoTurn(c, data[offset..], messages, fuel);
    r := Some(messages);
  }

  /** Decompress where the version says so. A payload that does not decompress, or of an unknown version, is skipped. */
  method FramePayload(c: Codec, ver: nat, kind: nat, payload: Bytes, fuel: nat) returns (r: Option<seq<Message>>)
    ensures r == FrameMessages(c, ver, kind, payload, fuel)
    decreases fuel, |payload|, 3
  {
    if ver == ZLIB || ver == BROTLI {
      var plain := if ver == ZLIB then c.inflate(payload) else c.brotliDecompress(payload);
      if plain.None? {
        return Some([]);
      }
      if fuel == 0 {
        return None;
      }
      r := DispatchPayload(c, kind, plain.value, fuel - 1);
    } else if ver == PLAIN || ver == RAW {
      r := DispatchPayload(c, kind, payload, fuel);
    } else {
      r := Some([]);
    }
  }

  /** The messages of one payload by the type of its packet; the other types carry nothing for the reader. */
  method DispatchPayload(c: Codec, kind: nat, payload: Bytes, fuel: nat) returns (r: Option<seq<Message>>)
    ensures r == Dispatch(c, kind, payload, fuel)
    decreases fuel, |payload|, 2
  {
    r := Some([]);
    if kind == NORMAL {
      r := ParseNormalPayload(c, payload, fuel);
    } else if kind == AUTH_RSP {
      var parsed := c.loads(payload);
      if parsed.Some? {
        r := Some([Document(parsed.value)]);
      }
    } else if kind == HEARTBEAT_RSP && |payload| >= 4 {
      r := Some([OnlineCount(FromU32(payload[..4]))]);
    }
  }

  method ParseNormalPayload(c: Codec, payload: Bytes, fuel: nat) returns (r: Option<seq<Message>>)
    ensures r == Dispatch(c, NORMAL, payload, fuel)
    decreases fuel, |payload|, 1
  {
    var parsed := c.loads(payload);
    if parsed.Some? {
      return Some([Document(parsed.value)]);
    }
    var messages, _ := UnpackData(c, payload, fuel);
    r := messages;
  }

  // ---------------------------------------------------------------- printing trees of frames

  datatype Coding = Plain | Raw | Zlib | Brotli

  /** `Silent` is any frame that carries nothing for the reader: an outgoing heartbeat or auth, an unknown kind. */
  datatype Frame =
    | Single(coding: Coding, json: Json)
    | Nested(coding: Coding, frames: seq<Frame>)
    | AuthReply(coding: Coding, json: Json)
    | HeartbeatReply(coding: Coding, online: nat, tail: Bytes)
    | Silent(coding: Coding, kind: nat, body: Bytes)

  function VersionOf(coding: Coding): nat {
    match coding
    case Plain => PLAIN
    case Raw => RAW
    case Zlib => ZLIB
    case Brotli => BROTLI
  }

  function Compress(c: Codec, coding: Coding, b: Bytes): Bytes {
    match coding
    case Zlib => c.deflate(b)
    case Brotli => c.brotliCompress(b)
    case _ => b
  }

  function KindOf(f: Frame): nat {
    match f
    case Single(_, _) => NORMAL
    case Nested(_, _) => NORMAL
    case AuthReply(_, _) => AUTH_RSP
    case HeartbeatReply(_, _, _) => HEARTBEAT_RSP
    case Silent(_, kind, _) => kind
  }

  /** The payload before compression; None when a frame inside does not fit its header. */
  function Body(c: Codec, f: Frame): Option<Bytes>
    decreases f, 0
  {
    match f
    case Single(_, j) => Some(c.dumps(j))
    case Nested(_, fs) => Print(c, fs)
    case AuthReply(_, j) => Some(c.dumps(j))
    case HeartbeatReply(_, n, tail) => if n < 0x1_0000_0000 then Some(U32(n) + tail) else None
    case Silent(_, kind, b) => if kind !in {NORMAL, AUTH_RSP, HEARTBEAT_RSP} then Some(b) else None
  }

  function PrintFrame(c: Codec, f: Frame): Option<Bytes>
    decreases f, 1
  {
    var b := Body(c, f);
    if b.None? then None else PackData(Compress(c, f.coding, b.value), KindOf(f), VersionOf(f.coding))
  }

  function Print(c: Codec, fs: seq<Frame>): Option<Bytes>
    decreases fs, 2
  {
    if fs == [] then Some([])
    else
      var first := PrintFrame(c, fs[0]);
      var rest := Print(c, fs[1..]);
      if first.None? || rest.None? then None else Some(first.value + rest.value)
  }

  function LeavesOf(f: Frame): seq<Message>
    decreases f, 0
  {
    match f
    case Single(_, j) => [Document(j)]
    case Nested(_, fs) => Leaves(fs)
    case AuthReply(_, j) => [Document(j)]
    case HeartbeatReply(_, n, _) => [OnlineCount(n)]
    case Silent(_, _, _) => []
  }

  /** The messages of the tree, left to right. */
  function Leaves(fs: seq<Frame>): seq<Message>
    decreases fs, 1
  {
    if fs == [] then [] else LeavesOf(fs[0]) + Leaves(fs[1..])
  }

  function Max(a: nat, b: nat): nat { if a >= b then a else b }

  function DepthOf(f: Frame): nat
    decreases f, 0
  {
    (if f.coding == Zlib || f.coding == Brotli then 1 else 0) + if f.Nested? then Depth(f.frames) else 0
  }

  /** How deeply compressed payloads are nested. */
  function Depth(fs: seq<Frame>): nat
    decreases fs, 1
  {
    if fs == [] then 0 else Max(DepthOf(fs[0]), Depth(fs[1..]))
  }

  // ---------------------------------------------------------------- printing, then parsing

  /** A frame in front of any bytes is parsed off, and the rest is parsed as if it stood alone. */
  lemma UnpackPacked(c: Codec, payload: Bytes, kind: nat, ver: nat, rest: Bytes, fuel: nat)
    requires PackData(payload, kind, ver).Some?
    ensures var first := FrameMessages(c, ver, kind, payload, fuel);
            Unpack(c, PackData(payload, kind, ver).value + rest, fuel)
            == if first.None? then None else Prepend(first.value, Unpack(c, rest, fuel))
  {
    var f := PackData(payload, kind, ver).value;
    PackedHeader(payload, kind, ver, rest);
    assert (f + rest)[16..|f|] == payload && (f + rest)[|f|..] == rest;
  }

  /** The payload is compressed, and it does decompress. */
  predicate Inflates(c: Codec, payload: Bytes, ver: nat) {
    (ver == ZLIB && c.inflate(payload).Some?) || (ver == BROTLI && c.brotliDecompress(payload).Some?)
  }

  /** What is in the payload, compressed or not; None where it cannot be decompressed or its version is unknown. */
  function Content(c: Codec, payload: Bytes, ver: nat): Option<Bytes> {
    if ver <= RAW then Some(payload)
    else if ver == ZLIB then c.inflate(payload)
    else if ver == BROTLI then c.brotliDecompress(payload)
    else None
  }

  /** The content is an auth reply without a JSON object, a heartbeat reply that is too short, of a kind that says
      nothing, or neither JSON nor a stream with a readable frame in it. */
  predicate SaysNothing(c: Codec, kind: nat, content: Bytes, fuel: nat)
    decreases fuel, |content|, 1
  {
    if kind == NORMAL then c.loads(content).None? && AllUnreadable(c, content, fuel)
    else if kind == AUTH_RSP then c.loads(content).None?
    else kind == HEARTBEAT_RSP ==> |content| < 4
  }

  /** The version is unknown, the payload does not decompress, or what is in it says nothing. `fuel` bounds how many
      decompressions may be nested. */
  predicate Unreadable(c: Codec, payload: Bytes, kind: nat, ver: nat, fuel: nat)
    decreases fuel, |payload|, 2
  {
    var content := Content(c, payload, ver);
    if content.None? then true
    else if ver <= RAW then SaysNothing(c, kind, payload, fuel)
    else fuel > 0 && SaysNothing(c, kind, content.value, fuel - 1)
  }

  /** Every whole frame of the stream is unreadable. */
  predicate AllUnreadable(c: Codec, d: Bytes, fuel: nat)
    decreases fuel, |d|, 0
  {
    WholeFrame(d) ==>
      var n := TotalLength(d);
      Unreadable(c, d[16..n], Kind(d), Version(d), fuel) && AllUnreadable(c, d[n..], fuel)
  }

  lemma {:induction false} YieldsNothing(c: Codec, payload: Bytes, kind: nat, ver: nat, fuel: nat)
    ensures FrameMessages(c, ver, kind, payload, fuel) == Some([]) <==> Unreadable(c, payload, kind, ver, fuel)
    decreases fuel, |payload|, 1
  {
    var content := Content(c, payload, ver);
    if content.Some? && kind == NORMAL && (ver <= RAW || fuel > 0) {
      StreamYieldsNothing(c, content.value, if ver <= RAW then fuel else fuel - 1);
    }
  }

  lemma {:induction false} StreamYieldsNothing(c: Codec, d: Bytes, fuel: nat)
    ensures Unpack(c, d, fuel) == Some([]) <==> AllUnreadable(c, d, fuel)
    decreases fuel, |d|, 0
  {
    if WholeFrame(d) {
      var n := TotalLength(d);
      YieldsNothing(c, d[16..n], Kind(d), Version(d), fuel);
      StreamYieldsNothing(c, d[n..], fuel);
    }
  }

  /** An unreadable frame is skipped, and the parser goes on behind it; no other frame is. */
  lemma BadFrameSkipped(c: Codec, payload: Bytes, kind: nat, ver: nat, rest: Bytes, fuel: nat)
    requires PackData(payload, kind, ver).Some?
    ensures var all := Unpack(c, PackData(payload, kind, ver).value + rest, fuel);
            && (Unreadable(c, payload, kind, ver, fuel) ==> all == Unpack(c, rest, fuel))
            && (all == Unpack(c, rest, fuel) && all.Some? ==> Unreadable(c, payload, kind, ver, fuel))
  {
    UnpackPacked(c, payload, kind, ver, rest, fuel);
    PrependTwice([], [], Unpack(c, rest, fuel));
    YieldsNothing(c, payload, kind, ver, fuel);
    var first := FrameMessages(c, ver, kind, payload, fuel);
    if first.Some? && Unpack(c, rest, fuel).Some? {
      assert |first.value + Unpack(c, rest, fuel).value| == |first.value| + |Unpack(c, rest, fuel).value|;
    }
  }

  lemma PrintedHasNul(c: Codec, fs: seq<Frame>)
    requires fs != [] && Print(c, fs).Some?
    ensures 0 in Print(c, fs).value
  {
    var f := fs[0];
    PackedHeader(Compress(c, f.coding, Body(c, f).value), KindOf(f), VersionOf(f.coding), []);
  }

  lemma {:induction false} FrameRoundTrip(c: Codec, f: Frame, fuel: nat)
    requires Lawful(c) && Body(c, f).Some? && fuel >= DepthOf(f)
    ensures FrameMessages(c, VersionOf(f.coding), KindOf(f), Compress(c, f.coding, Body(c, f).value), fuel)
         == Some(LeavesOf(f))
    decreases f, 0
  {
    var body := Body(c, f).value;
    var inner := if f.coding == Zlib || f.coding == Brotli then fuel - 1 else fuel;
    assert FrameMessages(c, VersionOf(f.coding), KindOf(f), Compress(c, f.coding, body), fuel)
        == Dispatch(c, KindOf(f), body, inner);
    match f
    case Single(_, _) =>
    case AuthReply(_, _) =>
    case HeartbeatReply(_, n, tail) =>
      U32RoundTrip(n);
      assert body[..4] == U32(n);
    case Silent(_, _, _) =>
    case Nested(_, fs) =>
      assert body == [] || 0 in body by {
        if fs != [] {
          PrintedHasNul(c, fs);
        }
      }
      RoundTrip(c, fs, [], inner);
      assert body + [] == body;
      assert Unpack(c, [], inner) == Some([]);
      assert Leaves(fs) + [] == Leaves(fs);
  }

  /** Parsing the printed form of any tree of frames gives back its leaves, left to right; bytes that follow it
      only append what they parse to by themselves. */
  lemma {:induction false} RoundTrip(c: Codec, fs: seq<Frame>, rest: Bytes, fuel: nat)
    requires Lawful(c) && Print(c, fs).Some? && fuel >= Depth(fs)
    ensures Unpack(c, Print(c, fs).value + rest, fuel) == Prepend(Leaves(fs), Unpack(c, rest, fuel))
    decreases fs, 1
  {
    if fs == [] {
      assert Print(c, fs).value + rest == rest;
      PrependTwice([], [], Unpack(c, rest, fuel));
    } else {
      FrameRoundTrip(c, fs[0], fuel);
      RoundTrip(c, fs[1..], rest, fuel);
      RoundTripCons(c, fs, rest, fuel);
    }
  }

  lemma PrintCons(c: Codec, fs: seq<Frame>, rest: Bytes)
    requires fs != [] && Print(c, fs).Some?
    ensures PrintFrame(c, fs[0]).Some? && Print(c, fs[1..]).Some?
    ensures Print(c, fs).value + rest == PrintFrame(c, fs[0]).value + (Print(c, fs[1..]).value + rest)
  {
    var a := PrintFrame(c, fs[0]).value;
    var b := Print(c, fs[1..]).value;
    assert (a + b) + rest == a + (b + rest);
  }

  lemma RoundTripCons(c: Codec, fs: seq<Frame>, rest: Bytes, fuel: nat)
    requires fs != [] && Print(c, fs).Some? && Body(c, fs[0]).Some?
    requires var f := fs[0];
             FrameMessages(c, VersionOf(f.coding), KindOf(f), Compress(c, f.coding, Body(c, f).value), fuel)
             == Some(LeavesOf(f))
    requires Unpack(c, Print(c, fs[1..]).value + rest, fuel) == Prepend(Leaves(fs[1..]), Unpack(c, rest, fuel))
    ensures Unpack(c, Print(c, fs).value + rest, fuel) == Prepend(Leaves(fs), Unpack(c, rest, fuel))
  {
    var f := fs[0];
    var payload := Compress(c, f.coding, Body(c, f).value);
    var head := PrintFrame(c, f).value;
    var tail := Print(c, fs[1..]).value + rest;
    assert PackData(payload, KindOf(f), VersionOf(f.coding)) == Some(head);
    PrintCons(c, fs, rest);
    UnpackPacked(c, payload, KindOf(f), VersionOf(f.coding), tail, fuel);
    PrependTwice(LeavesOf(f), Leaves(fs[1..]), Unpack(c, rest, fuel));
  }

  // ---------------------------------------------------------------- any bytes at all

  /** The fuel is only a device: what is parsed with some fuel is parsed with more. */
  lemma {:induction false} MoreFuel(c: Codec, d: Bytes, fuel: nat, more: nat)
    requires Unpack(c, d, fuel).Some? && more >= fuel
    ensures Unpack(c, d, more) == Unpack(c, d, fuel)
    decreases fuel, |d|, 0
  {
    if WholeFrame(d) {
      var n := TotalLength(d);
      MoreFuelFrame(c, Version(d), Kind(d), d[16..n], fuel, more);
      MoreFuel(c, d[n..], fuel, more);
    }
  }

  lemma {:induction false} MoreFuelFrame(c: Codec, ver: nat, kind: nat, payload: Bytes, fuel: nat, more: nat)
    requires FrameMessages(c, ver, kind, payload, fuel).Some? && more >= fuel
    ensures FrameMessages(c, ver, kind, payload, more) == FrameMessages(c, ver, kind, payload, fuel)
    decreases fuel, |payload|, 1
  {
    if ver == PLAIN || ver == RAW {
      if kind == NORMAL && c.loads(payload).None? {
        MoreFuel(c, payload, fuel, more);
      }
    } else if ver == ZLIB || ver == BROTLI {
      var plain := if ver == ZLIB then c.inflate(payload) else c.brotliDecompress(payload);
      if plain.Some? && kind == NORMAL && c.loads(plain.value).None? {
        MoreFuel(c, plain.value, fuel - 1, more - 1);
      }
    }
  }

  /** No frame that the parser reaches, nested however deeply, has a payload that decompresses. */
  predicate NoInflation(c: Codec, d: Bytes)
    decreases |d|
  {
    WholeFrame(d) ==>
      var n := TotalLength(d);
      var payload := d[16..n];
      && !Inflates(c, payload, Version(d))
      && (Version(d) <= RAW && Kind(d) == NORMAL && c.loads(payload).None? ==> NoInflation(c, payload))
      && NoInflation(c, d[n..])
  }

  /** The parser terminates without any decompression, and so without fuel, on exactly the streams that have nothing to
      decompress, for any codec and whatever the bytes. */
  lemma {:induction false} UncompressedTerminates(c: Codec, d: Bytes)
    ensures Unpack(c, d, 0).Some? <==> NoInflation(c, d)
    decreases |d|
  {
    if WholeFrame(d) {
      var n := TotalLength(d);
      var payload, ver, kind := d[16..n], Version(d), Kind(d);
      UncompressedTerminates(c, payload);
      UncompressedTerminates(c, d[n..]);
      assert Dispatch(c, kind, payload, 0).Some?
        <==> (kind == NORMAL && c.loads(payload).None? ==> NoInflation(c, payload));
      assert FrameMessages(c, ver, kind, payload, 0).Some?
        <==> !Inflates(c, payload, ver) && (ver <= RAW ==> Dispatch(c, kind, payload, 0).Some?);
    }
  }

  lemma CutSlices(d: Bytes, k: nat, n: nat)
    requires HEADER_LENGTH <= n <= k <= |d|
    ensures d[..k][..16] == d[..16] && d[..k][16..n] == d[16..n]
    ensures d[..k][n..] == d[n..][..k - n]
  {
  }

  /** Every prefix of a stream parses to a prefix of its messages. */
  lemma {:induction false} TruncationMonotone(c: Codec, d: Bytes, k: nat, fuel: nat)
    requires k <= |d| && Unpack(c, d, fuel).Some?
    ensures Unpack(c, d[..k], fuel).Some? && Unpack(c, d[..k], fuel).value <= Unpack(c, d, fuel).value
    decreases |d|
  {
    var t := d[..k];
    if WholeFrame(t) {
      CutSlices(d, k, HEADER_LENGTH);
      SameHeader(t, d);
      var n := TotalLength(d);
      CutSlices(d, k, n);
      TruncationMonotone(c, d[n..], k - n, fuel);
    }
  }

  /** A stream made of whole frames only. */
  predicate WholeFrames(d: Bytes)
    decreases |d|
  {
    d == [] || (WholeFrame(d) && WholeFrames(d[TotalLength(d)..]))
  }

  /** Bytes that follow whole frames only append messages, whatever the frames hold. */
  lemma {:induction false} AppendOnly(c: Codec, d: Bytes, rest: Bytes, fuel: nat)
    requires WholeFrames(d) && Unpack(c, d, fuel).Some?
    ensures Unpack(c, d + rest, fuel) == Prepend(Unpack(c, d, fuel).value, Unpack(c, rest, fuel))
    decreases |d|
  {
    var all := d + rest;
    if d == [] {
      assert all == rest;
      PrependTwice([], [], Unpack(c, rest, fuel));
    } else {
      assert all[..16] == d[..16];
      SameHeader(all, d);
      var n := TotalLength(d);
      assert all[16..n] == d[16..n] && all[n..] == d[n..] + rest;
      AppendOnly(c, d[n..], rest, fuel);
      PrependTwice(FrameMessages(c, Version(d), Kind(d), d[16..n], fuel).value, Unpack(c, d[n..], fuel).value,
                   Unpack(c, rest, fuel));
    }
  }

  // ---------------------------------------------------------------- the bytes on the wire

  /** The number that four bytes stand for, the most significant one first. */
  function Big(b: Bytes): nat
    requires |b| == 4
  {
    0x100_0000 * (b[0] as int) + 0x1_0000 * (b[1] as int) + 0x100 * (b[2] as int) + b[3] as int
  }

  /** The 16 bytes in front of a payload, byte by byte. */
  function Wire(length: Bytes, ver: Byte, kind: Byte): Bytes { length + [0, 16, 0, ver, 0, 0, 0, kind, 0, 0, 0, 1] }

  lemma BigOne(a: Bytes, b: Bytes)
    requires |a| == |b| == 4 && Big(a) == Big(b)
    ensures a == b
  {
    assert a[0] == b[0] && a[1] == b[1] && a[2] == b[2] && a[3] == b[3];
  }

  lemma BigBytes(length: Bytes)
    requires |length| == 4
    ensures Big(length) < 0x1_0000_0000 && U32(Big(length)) == length
  {
    BigEndian(Big(length));
    BigOne(U32(Big(length)), length);
  }

  lemma WireHeader(length: Bytes, ver: Byte, kind: Byte)
    requires |length| == 4
    ensures Big(length) < 0x1_0000_0000 && Header(Big(length), ver, kind) == Wire(length, ver, kind)
  {
    BigBytes(length);
    BigBytes([0, 0, 0, kind]);
    BigBytes([0, 0, 0, 1]);
    assert U16(HEADER_LENGTH) == [0, 16] && U16(ver) == [0, ver];
  }

  /** A payload is packed exactly where the numbers fit their fields, and these are the bytes. */
  lemma PacksWhenInRange(data: Bytes, kind: int, ver: int)
    ensures PackData(data, kind, ver).Some?
       <==> |data| + 16 < 0x1_0000_0000 && 0 <= kind < 0x1_0000_0000 && 0 <= ver < 0x1_0000
  {
  }

  lemma PacksOnTheWire(data: Bytes, length: Bytes, kind: Byte, ver: Byte)
    requires |length| == 4 && Big(length) == |data| + 16
    ensures PackData(data, kind, ver) == Some(Wire(length, ver, kind) + data)
  {
    WireHeader(length, ver, kind);
  }

  /** What is in a payload by the version byte: 0 and 1 plain, 2 zlib, 3 brotli. */
  function Decoded(c: Codec, p: Bytes, ver: nat): Option<Bytes> {
    if ver in {0, 1} then Some(p)
    else if ver == 2 then c.inflate(p)
    else if ver == 3 then c.brotliDecompress(p)
    else None
  }

  lemma WireFrame(c: Codec, length: Bytes, p: Bytes, ver: Byte, kind: Byte, rest: Bytes, fuel: nat)
    requires |length| == 4 && Big(length) == |p| + 16
    ensures var first := FrameMessages(c, ver, kind, p, fuel);
            Unpack(c, Wire(length, ver, kind) + p + rest, fuel)
            == if first.None? then None else Prepend(first.value, Unpack(c, rest, fuel))
  {
    PacksOnTheWire(p, length, kind, ver);
    UnpackPacked(c, p, kind, ver, rest, fuel);
  }

  /** Version byte by version byte and type byte by type byte: a frame on the wire, with what its payload decodes to. A
      type 5 frame is one JSON object, or else more frames; type 8 is a JSON object, type 3 a number of 4 bytes, and
      every other type says nothing. */
  lemma OnTheWire(c: Codec, length: Bytes, p: Bytes, q: Bytes, ver: Byte, kind: Byte, rest: Bytes, fuel: nat)
    requires |length| == 4 && Big(length) == |p| + 16 && Decoded(c, p, ver) == Some(q) && (ver <= 1 || fuel > 0)
    ensures var inner: nat := if ver <= 1 then fuel else fuel - 1;
            var tail := Unpack(c, rest, fuel);
            var r := Unpack(c, Wire(length, ver, kind) + p + rest, fuel);
            && (kind in {5, 8} && c.loads(q).Some? ==> r == Prepend([Document(c.loads(q).value)], tail))
            && (kind == 5 && c.loads(q).None? && Unpack(c, q, inner).Some? ==>
                  r == Prepend(Unpack(c, q, inner).value, tail))
            && (kind == 8 && c.loads(q).None? ==> r == tail)
            && (kind == 3 && |q| >= 4 ==> r == Prepend([OnlineCount(Big(q[..4]))], tail))
            && (kind == 3 && |q| < 4 ==> r == tail)
            && (kind !in {3, 5, 8} ==> r == tail)
  {
    WireFrame(c, length, p, ver, kind, rest, fuel);
    PrependTwice([], [], Unpack(c, rest, fuel));
    var inner: nat := if ver <= 1 then fuel else fuel - 1;
    assert FrameMessages(c, ver, kind, p, fuel) == Dispatch(c, kind, q, inner);
    if |q| >= 4 {
      BigBytes(q[..4]);
      U32RoundTrip(Big(q[..4]));
    }
  }

  /** The commonest frame: zlib, with one JSON object. */
  lemma ZlibDocument(c: Codec, length: Bytes, p: Bytes, q: Bytes, j: Json)
    requires |length| == 4 && Big(length) == |p| + 16 && c.inflate(p) == Some(q) && c.loads(q) == Some(j)
    ensures Unpack(c, length + [0, 16, 0, 2, 0, 0, 0, 5, 0, 0, 0, 1] + p, 1) == Some([Document(j)])
  {
    OnTheWire(c, length, p, q, 2, 5, [], 1);
    assert Wire(length, 2, 5) + p + [] == Wire(length, 2, 5) + p;
    assert Unpack(c, [], 1) == Some([]) && [Document(j)] + [] == [Document(j)];
  }

  /** A frame whose payload cannot be decoded is skipped: a version byte over 3, or zlib or brotli data that is
      broken. */
  lemma UndecodedOnTheWire(c: Codec, length: Bytes, p: Bytes, ver: Byte, kind: Byte, rest: Bytes, fuel: nat)
    requires |length| == 4 && Big(length) == |p| + 16 && Decoded(c, p, ver) == None
    ensures Unpack(c, Wire(length, ver, kind) + p + rest, fuel) == Unpack(c, rest, fuel)
  {
    WireFrame(c, length, p, ver, kind, rest, fuel);
    PrependTwice([], [], Unpack(c, rest, fuel));
  }

  /** The parse stops, and what was parsed before it stands, at fewer than 16 bytes, at a header length other than
      16, and at a total length under 16 or beyond the end of the data. */
  lemma StopsAt(c: Codec, d: Bytes, fuel: nat)
    ensures |d| < 16 ==> Unpack(c, d, fuel) == Some([])
    ensures |d| >= 16 && (d[4], d[5]) != (0, 16) ==> Unpack(c, d, fuel) == Some([])
    ensures |d| >= 16 ==>
              !(16 <= Big(d[..4]) <= |d|) ==> Unpack(c, d, fuel) == Some([])
  {
    if |d| >= 16 {
      BigBytes(d[..4]);
      U32RoundTrip(Big(d[..4]));
      assert d[0..4] == d[..4];
    }
  }
}
