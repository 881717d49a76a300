/** Ban-list rows: the raw shapes that Bilibili sends, and the one public shape. */
module BanEntry {
  import opened OrderedDict

  datatype Stamp = At(seconds: int) | Label(text: string)

  /** Everything about a ban except the uid, which is the key of its row. */
  datatype BanInfo = BanInfo(
    blockId: Option<int>, uname: string, operatorUid: Option<int>, operatorName: string, hour: Option<int>,
    reason: string, createdAt: Option<Stamp>, expiresAt: Option<Stamp>, pending: bool)

  type Ban = Row<int, BanInfo>

  /** A JSON value; `Null` also stands for a missing field. */
  datatype Value = Null | Flag(flag: bool) | Number(number: int) | Fraction(fraction: real) | Text(text: string) | Other

  type Raw = map<string, Value>

  /** Python's text and date functions: `parse` is None unless the digit test passes, `span` is None where the dates
      do not parse or cannot be subtracted. */
  datatype TextOps = TextOps(
    strip: string -> string, parse: string -> Option<int>, span: (string, string) -> Option<real>)

  ghost predicate StripsOnce(ops: TextOps) {
    && ops.strip("") == ""
    && forall s: string :: ops.strip(ops.strip(s)) == ops.strip(s)
  }

  function Get(raw: Raw, field: string): Value {
    if field in raw then raw[field] else Null
  }

  function AsInt(ops: TextOps, v: Value): Option<int> {
    match v
    case Number(n) => Some(n)
    case Fraction(x) => if x.Floor as real == x then Some(x.Floor) else None
    case Text(s) => ops.parse(ops.strip(s))
    case _ => None
  }

  function AsText(ops: TextOps, v: Value): string {
    if v.Text? then ops.strip(v.text) else ""
  }

  function AsTimestamp(ops: TextOps, v: Value): Option<Stamp> {
    if AsInt(ops, v).Some? then Some(At(AsInt(ops, v).value))
    else if AsText(ops, v) != "" then Some(Label(AsText(ops, v)))
    else None
  }

  /** Python's `round`: to the nearest integer, and to the even one of two. */
  function RoundHalfEven(x: real): int {
    var down := x.Floor;
    var rest := x - down as real;
    if rest < 0.5 then down
    else if rest > 0.5 then down + 1
    else if down % 2 == 0 then down
    else down + 1
  }

  const PERMANENT := "永久"
  const THIS_STREAM: set<string> := {"本场", "本场直播"}

  function HoursOf(seconds: real): Option<int> {
    if seconds <= 0.0 then None
    else
      var hours := RoundHalfEven(seconds / 3600.0);
      Some(if hours >= 1 then hours else 1)
  }

  function DurationHours(ops: TextOps, created: Option<Stamp>, expires: Option<Stamp>): Option<int> {
    if expires.Some? && expires.value.Label? && ops.strip(expires.value.text) == PERMANENT then Some(-1)
    else if expires.Some? && expires.value.Label? && ops.strip(expires.value.text) in THIS_STREAM then Some(0)
    else if created.None? || expires.None? then None
    else
      match (created.value, expires.value)
      case (At(c), At(e)) => HoursOf((e - c) as real)
      case (Label(c), Label(e)) => if ops.span(c, e).Some? then HoursOf(ops.span(c, e).value) else None
      case _ => None
  }

  function Positive(n: Option<int>): Option<int> {
    if n.Some? && n.value > 0 then n else None
  }

  function OrElse<T>(a: Option<T>, b: Option<T>): Option<T> { if a.Some? then a else b }

  function OrText(a: string, b: string): string { if a != "" then a else b }

  /** The first of the three fields that is present, even if it is null. */
  function Created(raw: Raw): Value {
    if "created_at" in raw then raw["created_at"]
    else if "ctime" in raw then raw["ctime"]
    else Get(raw, "start_time")
  }

  function Normalize(ops: TextOps, raw: Raw, pending: bool): Option<Ban> {
    var target := Positive(AsInt(ops, Get(raw, "tuid")));
    var uid := if target.Some? then target else Positive(AsInt(ops, Get(raw, "uid")));
    if uid.None? then None
    else
      var tname, uname := AsText(ops, Get(raw, "tname")), AsText(ops, Get(raw, "uname"));
      var operatorUid := AsInt(ops, Get(raw, "operator_uid"));
      var operatorName := AsText(ops, Get(raw, "operator_name"));
      var createdAt := AsTimestamp(ops, Created(raw));
      var given := OrElse(AsTimestamp(ops, Get(raw, "expires_at")),
                   OrElse(AsTimestamp(ops, Get(raw, "expire_time")),
                   OrElse(AsTimestamp(ops, Get(raw, "end_time")), AsTimestamp(ops, Get(raw, "block_end_time")))));
      var hour := OrElse(AsInt(ops, Get(raw, "hour")), DurationHours(ops, createdAt, given));
      var expiresAt :=
        if given.None? && createdAt.Some? && createdAt.value.At? && hour.Some? && hour.value > 0
        then Some(At(createdAt.value.seconds + hour.value * 3600)) else given;
      Some(Row(uid.value, BanInfo(
        Positive(OrElse(AsInt(ops, Get(raw, "block_id")), AsInt(ops, Get(raw, "id")))),
        if target.Some? then OrText(tname, uname) else OrText(uname, tname),
        Positive(if target.Some? then OrElse(operatorUid, AsInt(ops, Get(raw, "uid"))) else operatorUid),
        if target.Some? then OrText(operatorName, AsText(ops, Get(raw, "name"))) else operatorName,
        hour,
        OrText(AsText(ops, Get(raw, "reason")), OrText(AsText(ops, Get(raw, "msg")), AsText(ops, Get(raw, "message")))),
        createdAt, expiresAt,
        pending || Get(raw, "pending") == Flag(true))))
  }

  // ---------------------------------------------------------------- a cached entry passes through unchanged

  function OfInt(n: Option<int>): Value { if n.Some? then Number(n.value) else Null }

  function OfStamp(t: Option<Stamp>): Value {
    if t.None? then Null else if t.value.At? then Number(t.value.seconds) else Text(t.value.text)
  }

  /** The public shape of a row, as the mapping that it is. */
  function Public(b: Ban): Raw {
    map["block_id" := OfInt(b.info.blockId), "uid" := Number(b.key), "uname" := Text(b.info.uname),
        "operator_uid" := OfInt(b.info.operatorUid), "operator_name" := Text(b.info.operatorName),
        "hour" := OfInt(b.info.hour), "reason" := Text(b.info.reason), "created_at" := OfStamp(b.info.createdAt),
        "expires_at" := OfStamp(b.info.expiresAt), "pending" := Flag(b.info.pending)]
  }

  ghost predicate StableStamp(ops: TextOps, t: Option<Stamp>) {
    AsTimestamp(ops, OfStamp(t)) == t
  }

  /** What every accepted row satisfies. */
  ghost predicate Settled(ops: TextOps, b: Ban) {
    && b.key > 0
    && Positive(b.info.blockId) == b.info.blockId && Positive(b.info.operatorUid) == b.info.operatorUid
    && ops.strip(b.info.uname) == b.info.uname && ops.strip(b.info.operatorName) == b.info.operatorName
    && ops.strip(b.info.reason) == b.info.reason
    && StableStamp(ops, b.info.createdAt) && StableStamp(ops, b.info.expiresAt)
    && OrElse(b.info.hour, DurationHours(ops, b.info.createdAt, b.info.expiresAt)) == b.info.hour
    && !(b.info.expiresAt.None? && b.info.createdAt.Some? && b.info.createdAt.value.At? && b.info.hour.Some? &&
         b.info.hour.value > 0)
  }

  lemma TimestampStable(ops: TextOps, v: Value)
    requires StripsOnce(ops)
    ensures StableStamp(ops, AsTimestamp(ops, v))
  {
  }

  lemma NormalizeSettles(ops: TextOps, raw: Raw, pending: bool)
    requires StripsOnce(ops) && Normalize(ops, raw, pending).Some?
    ensures Settled(ops, Normalize(ops, raw, pending).value)
  {
    var b := Normalize(ops, raw, pending).value;
    TimestampStable(ops, Created(raw));
    TimestampStable(ops, Get(raw, "expires_at"));
    TimestampStable(ops, Get(raw, "expire_time"));
    TimestampStable(ops, Get(raw, "end_time"));
    TimestampStable(ops, Get(raw, "block_end_time"));
  }

  /** None of the aliases of raw rows. */
  ghost predicate NoAlias(raw: Raw) {
    && Get(raw, "tuid") == Null && Get(raw, "tname") == Null && Get(raw, "id") == Null
    && Get(raw, "msg") == Null && Get(raw, "message") == Null
    && Get(raw, "expire_time") == Null && Get(raw, "end_time") == Null && Get(raw, "block_end_time") == Null
  }

  /** The mapping has the fields of the row. */
  ghost predicate Fields(raw: Raw, b: Ban) {
    && Get(raw, "uid") == Number(b.key) && Get(raw, "block_id") == OfInt(b.info.blockId)
    && Get(raw, "uname") == Text(b.info.uname) && Get(raw, "operator_uid") == OfInt(b.info.operatorUid)
    && Get(raw, "operator_name") == Text(b.info.operatorName) && Get(raw, "hour") == OfInt(b.info.hour)
    && Get(raw, "reason") == Text(b.info.reason)
    && "created_at" in raw && raw["created_at"] == OfStamp(b.info.createdAt)
    && Get(raw, "expires_at") == OfStamp(b.info.expiresAt) && Get(raw, "pending") == Flag(b.info.pending)
  }

  const FIELDS: set<string> := {"block_id", "uid", "uname", "operator_uid", "operator_name", "hour", "reason",
                                "created_at", "expires_at", "pending"}

  lemma PublicKeys(b: Ban)
    ensures Public(b).Keys == FIELDS
  {
  }

  lemma PublicNoAlias(b: Ban)
    ensures NoAlias(Public(b))
  {
    PublicKeys(b);
    assert "tuid" !in FIELDS && "tname" !in FIELDS && "id" !in FIELDS && "msg" !in FIELDS && "message" !in FIELDS;
    assert "expire_time" !in FIELDS && "end_time" !in FIELDS && "block_end_time" !in FIELDS;
  }

  lemma PublicFields(b: Ban)
    ensures Fields(Public(b), b)
  {
  }

  lemma SpelledSettled(ops: TextOps, raw: Raw, b: Ban)
    requires StripsOnce(ops) && Settled(ops, b) && NoAlias(raw) && Fields(raw, b)
    ensures Normalize(ops, raw, false) == Some(b)
  {
    assert AsTimestamp(ops, Null) == None;
    assert Positive(AsInt(ops, Get(raw, "uid"))) == Some(b.key);
  }

  /** Normalizing is idempotent: a row that was accepted once is given back as it is. */
  lemma NormalizeIdempotent(ops: TextOps, raw: Raw, pending: bool)
    requires StripsOnce(ops) && Normalize(ops, raw, pending).Some?
    ensures Normalize(ops, Public(Normalize(ops, raw, pending).value), false) == Normalize(ops, raw, pending)
  {
    NormalizeSettles(ops, raw, pending);
    var b := Normalize(ops, raw, pending).value;
    PublicNoAlias(b);
    PublicFields(b);
    SpelledSettled(ops, Public(b), b);
  }

  /** A row without its moderator. */
  function Unsigned(r: Option<Ban>): Option<Ban> {
    if r.None? then None else Some(Row(r.value.key, r.value.info.(operatorUid := None, operatorName := "")))
  }

  ghost predicate SameField(a: Raw, b: Raw, field: string) {
    (field in a <==> field in b) && Get(a, field) == Get(b, field)
  }

  const TARGET_FIELDS: set<string> := {
    "tuid", "tname", "uname", "block_id", "id", "hour", "reason", "msg", "message", "created_at", "ctime", "start_time",
    "expires_at", "expire_time", "end_time", "block_end_time", "operator_uid", "operator_name", "pending"
  }

  lemma SameRow(ops: TextOps, a: Raw, b: Raw, pending: bool)
    requires forall f :: f in TARGET_FIELDS ==> SameField(a, b, f)
    ensures Positive(AsInt(ops, Get(a, "tuid"))).Some? ==>
              Unsigned(Normalize(ops, a, pending)) == Unsigned(Normalize(ops, b, pending))
    ensures Positive(AsInt(ops, Get(a, "tuid"))).None? && SameField(a, b, "uid") ==>
              Normalize(ops, a, pending) == Normalize(ops, b, pending)
  {
    assert SameField(a, b, "tuid") && SameField(a, b, "tname") && SameField(a, b, "uname");
    assert SameField(a, b, "block_id") && SameField(a, b, "id") && SameField(a, b, "hour");
    assert SameField(a, b, "reason") && SameField(a, b, "msg") && SameField(a, b, "message");
    assert SameField(a, b, "created_at") && SameField(a, b, "ctime") && SameField(a, b, "start_time");
    assert SameField(a, b, "expires_at") && SameField(a, b, "expire_time") && SameField(a, b, "end_time");
    assert SameField(a, b, "block_end_time") && SameField(a, b, "pending");
    assert SameField(a, b, "operator_uid") && SameField(a, b, "operator_name");
  }

  /** A raw row that names its target under `tuid` is about that user, and then `uid` and `name` say nothing but who the
      moderator was; a row without a target is about `uid`, who is never taken for the moderator, and `name` says
      nothing at all. */
  lemma WhoIsMuted(ops: TextOps, raw: Raw, pending: bool, otherUid: Value, otherName: Value)
    ensures var target := Positive(AsInt(ops, Get(raw, "tuid")));
            var uid := Positive(AsInt(ops, Get(raw, "uid")));
            var r := Normalize(ops, raw, pending);
            && (r.Some? <==> target.Some? || uid.Some?)
            && (r.Some? && target.Some? ==>
                  && r.value.key == target.value
                  && (Get(raw, "operator_uid") == Null ==> r.value.info.operatorUid == uid))
            && (r.Some? && target.None? ==>
                  && r.value.key == uid.value
                  && (Get(raw, "operator_uid") == Null ==> r.value.info.operatorUid == None))
            && (if target.Some?
                then Unsigned(Normalize(ops, raw["uid" := otherUid]["name" := otherName], pending)) == Unsigned(r)
                else Normalize(ops, raw["name" := otherName], pending) == r)
  {
    SameRow(ops, raw, raw["uid" := otherUid]["name" := otherName], pending);
    SameRow(ops, raw, raw["name" := otherName], pending);
  }

  // ---------------------------------------------------------------- which raw fields stand for which public field

  function FirstInt(ops: TextOps, raw: Raw, fields: seq<string>): Option<int> {
    if fields == [] then None
    else if AsInt(ops, Get(raw, fields[0])).Some? then AsInt(ops, Get(raw, fields[0]))
    else FirstInt(ops, raw, fields[1..])
  }

  function FirstText(ops: TextOps, raw: Raw, fields: seq<string>): string {
    if fields == [] then ""
    else if AsText(ops, Get(raw, fields[0])) != "" then AsText(ops, Get(raw, fields[0]))
    else FirstText(ops, raw, fields[1..])
  }

  function FirstStamp(ops: TextOps, raw: Raw, fields: seq<string>): Option<Stamp> {
    if fields == [] then None
    else if AsTimestamp(ops, Get(raw, fields[0])).Some? then AsTimestamp(ops, Get(raw, fields[0]))
    else FirstStamp(ops, raw, fields[1..])
  }

  /** The first field that is there at all. */
  function FirstPresent(raw: Raw, fields: seq<string>): Value {
    if fields == [] then Null
    else if fields[0] in raw then raw[fields[0]]
    else FirstPresent(raw, fields[1..])
  }

  lemma TwoFields(ops: TextOps, raw: Raw, a: string, b: string)
    ensures FirstInt(ops, raw, [a]) == AsInt(ops, Get(raw, a)) && FirstText(ops, raw, [a]) == AsText(ops, Get(raw, a))
    ensures FirstInt(ops, raw, [a, b]) == OrElse(AsInt(ops, Get(raw, a)), AsInt(ops, Get(raw, b)))
    ensures FirstText(ops, raw, [a, b]) == OrText(AsText(ops, Get(raw, a)), AsText(ops, Get(raw, b)))
    ensures FirstStamp(ops, raw, [a, b]) == OrElse(AsTimestamp(ops, Get(raw, a)), AsTimestamp(ops, Get(raw, b)))
    ensures FirstPresent(raw, [a, b]) == if a in raw then raw[a] else Get(raw, b)
  {
    assert [a, b][1..] == [b] && [b][1..] == [] && [a][1..] == [];
    assert FirstInt(ops, raw, [b]) == AsInt(ops, Get(raw, b));
    assert FirstText(ops, raw, [b]) == AsText(ops, Get(raw, b));
    assert FirstStamp(ops, raw, [b]) == AsTimestamp(ops, Get(raw, b));
    assert FirstPresent(raw, [b]) == Get(raw, b);
  }

  lemma MoreFields(ops: TextOps, raw: Raw, a: string, rest: seq<string>)
    ensures FirstText(ops, raw, [a] + rest) == OrText(AsText(ops, Get(raw, a)), FirstText(ops, raw, rest))
    ensures FirstStamp(ops, raw, [a] + rest) == OrElse(AsTimestamp(ops, Get(raw, a)), FirstStamp(ops, raw, rest))
    ensures FirstPresent(raw, [a] + rest) == if a in raw then raw[a] else FirstPresent(raw, rest)
  {
    assert ([a] + rest)[1..] == rest;
  }

  lemma LongFields(ops: TextOps, raw: Raw)
    ensures FirstText(ops, raw, ["reason", "msg", "message"])
         == OrText(AsText(ops, Get(raw, "reason")),
                   OrText(AsText(ops, Get(raw, "msg")), AsText(ops, Get(raw, "message"))))
    ensures FirstPresent(raw, ["created_at", "ctime", "start_time"]) == Created(raw)
    ensures FirstStamp(ops, raw, ["expires_at", "expire_time", "end_time", "block_end_time"])
         == OrElse(AsTimestamp(ops, Get(raw, "expires_at")), OrElse(AsTimestamp(ops, Get(raw, "expire_time")),
            OrElse(AsTimestamp(ops, Get(raw, "end_time")), AsTimestamp(ops, Get(raw, "block_end_time")))))
  {
    ThreeFields(ops, raw, "reason", "msg", "message");
    ThreeFields(ops, raw, "created_at", "ctime", "start_time");
    ThreeFields(ops, raw, "expire_time", "end_time", "block_end_time");
    var expiry := ["expire_time", "end_time", "block_end_time"];
    assert ["expires_at"] + expiry == ["expires_at", "expire_time", "end_time", "block_end_time"];
    MoreFields(ops, raw, "expires_at", expiry);
  }

  lemma ThreeFields(ops: TextOps, raw: Raw, a: string, b: string, c: string)
    ensures FirstText(ops, raw, [a, b, c])
         == OrText(AsText(ops, Get(raw, a)), OrText(AsText(ops, Get(raw, b)), AsText(ops, Get(raw, c))))
    ensures FirstPresent(raw, [a, b, c]) == if a in raw then raw[a] else if b in raw then raw[b] else Get(raw, c)
    ensures FirstStamp(ops, raw, [a, b, c])
         == OrElse(AsTimestamp(ops, Get(raw, a)), OrElse(AsTimestamp(ops, Get(raw, b)), AsTimestamp(ops, Get(raw, c))))
  {
    TwoFields(ops, raw, b, c);
    assert [a] + [b, c] == [a, b, c];
    MoreFields(ops, raw, a, [b, c]);
  }

  /** Every public field is read from the first raw field that has it: from which fields, and in which order, depends on
      whether the row names its target under `tuid`. A row without the name of a field is like one where it is null. */
  lemma ReadFrom(ops: TextOps, raw: Raw, pending: bool)
    requires Normalize(ops, raw, pending).Some?
    ensures var b := Normalize(ops, raw, pending).value;
            var targeted := Positive(AsInt(ops, Get(raw, "tuid"))).Some?;
            && Some(b.key) == AsInt(ops, Get(raw, if targeted then "tuid" else "uid")) && b.key > 0
            && b.info.blockId == Positive(FirstInt(ops, raw, ["block_id", "id"]))
            && b.info.uname == FirstText(ops, raw, if targeted then ["tname", "uname"] else ["uname", "tname"])
            && b.info.operatorUid
               == Positive(FirstInt(ops, raw, if targeted then ["operator_uid", "uid"] else ["operator_uid"]))
            && b.info.operatorName
               == FirstText(ops, raw, if targeted then ["operator_name", "name"] else ["operator_name"])
            && b.info.reason == FirstText(ops, raw, ["reason", "msg", "message"])
            && (b.info.pending <==> pending || Get(raw, "pending") == Flag(true))
  {
    TwoFields(ops, raw, "block_id", "id");
    TwoFields(ops, raw, "tname", "uname");
    TwoFields(ops, raw, "uname", "tname");
    TwoFields(ops, raw, "operator_uid", "uid");
    TwoFields(ops, raw, "operator_name", "name");
    LongFields(ops, raw);
  }

  /** The stamps and the duration: read where they are given, and then each filled in from the other two. */
  lemma StampsFrom(ops: TextOps, raw: Raw, pending: bool)
    requires Normalize(ops, raw, pending).Some?
    ensures var b := Normalize(ops, raw, pending).value;
            var given := FirstStamp(ops, raw, ["expires_at", "expire_time", "end_time", "block_end_time"]);
            var hour := AsInt(ops, Get(raw, "hour"));
            && b.info.createdAt == AsTimestamp(ops, FirstPresent(raw, ["created_at", "ctime", "start_time"]))
            && b.info.hour == (if hour.Some? then hour else DurationHours(ops, b.info.createdAt, given))
            && (given.Some? ==> b.info.expiresAt == given)
            && (given.None? ==>
                  b.info.expiresAt
                  == if b.info.createdAt.Some? && b.info.createdAt.value.At?
                        && b.info.hour.Some? && b.info.hour.value > 0
                     then Some(At(b.info.createdAt.value.seconds + 3600 * b.info.hour.value)) else None)
  {
    LongFields(ops, raw);
  }

  /** Two rows, however they are spelled, are the same ban if those readings are the same. */
  lemma SpellingsAgree(ops: TextOps, a: Raw, b: Raw, pending: bool)
    requires Positive(AsInt(ops, Get(a, "tuid"))).Some? && Positive(AsInt(ops, Get(b, "tuid"))).None?
    requires AsInt(ops, Get(a, "tuid")) == AsInt(ops, Get(b, "uid"))
    requires FirstInt(ops, a, ["block_id", "id"]) == FirstInt(ops, b, ["block_id", "id"])
    requires FirstText(ops, a, ["tname", "uname"]) == FirstText(ops, b, ["uname", "tname"])
    requires FirstInt(ops, a, ["operator_uid", "uid"]) == FirstInt(ops, b, ["operator_uid"])
    requires FirstText(ops, a, ["operator_name", "name"]) == FirstText(ops, b, ["operator_name"])
    requires FirstText(ops, a, ["reason", "msg", "message"]) == FirstText(ops, b, ["reason", "msg", "message"])
    requires AsInt(ops, Get(a, "hour")) == AsInt(ops, Get(b, "hour")) && Get(a, "pending") == Get(b, "pending")
    requires AsTimestamp(ops, FirstPresent(a, ["created_at", "ctime", "start_time"]))
          == AsTimestamp(ops, FirstPresent(b, ["created_at", "ctime", "start_time"]))
    requires FirstStamp(ops, a, ["expires_at", "expire_time", "end_time", "block_end_time"])
          == FirstStamp(ops, b, ["expires_at", "expire_time", "end_time", "block_end_time"])
    ensures Normalize(ops, a, pending) == Normalize(ops, b, pending) && Normalize(ops, a, pending).Some?
  {
    ReadFrom(ops, a, pending);
    ReadFrom(ops, b, pending);
    StampsFrom(ops, a, pending);
    StampsFrom(ops, b, pending);
  }

  /** What is read as an integer: a number, a fraction without a fractional part, and a text of digits; never a flag. */
  lemma ReadsInt(ops: TextOps, v: Value, n: int)
    ensures AsInt(ops, v) == Some(n)
       <==> v == Number(n) || (v.Fraction? && v.fraction == n as real)
            || (v.Text? && ops.parse(ops.strip(v.text)) == Some(n))
  {
  }

  /** What is read as a stamp: an integer if there is one, or else a text that is not blank. */
  lemma ReadsStamp(ops: TextOps, v: Value, n: int, t: string)
    ensures AsTimestamp(ops, v) == Some(At(n)) <==> AsInt(ops, v) == Some(n)
    ensures AsTimestamp(ops, v) == Some(Label(t))
       <==> AsInt(ops, v).None? && v.Text? && t != "" && ops.strip(v.text) == t
  {
  }

  // ---------------------------------------------------------------- durations

  lemma ShortSpans()
    ensures forall x: real :: 0.0 < x < 5400.0 ==> HoursOf(x) == Some(1)
  {
    forall x: real | 0.0 < x < 5400.0 ensures HoursOf(x) == Some(1) {
      var y := x / 3600.0;
      assert y * 3600.0 == x;
      RoundNear(y);
      assert 0.0 < y < 1.5;
    }
  }

  /** The labels for good and for this stream, and the spans that say nothing. */
  lemma DurationTable(ops: TextOps, created: Option<Stamp>, expires: Option<Stamp>)
    ensures expires.Some? && expires.value.Label? ==>
              var text := ops.strip(expires.value.text);
              && (text == "永久" ==> DurationHours(ops, created, expires) == Some(-1))
              && (text == "本场" || text == "本场直播" ==> DurationHours(ops, created, expires) == Some(0))
    ensures created.Some? && expires.Some? && created.value.At? && expires.value.At? ==>
              var seconds := expires.value.seconds - created.value.seconds;
              && (seconds <= 0 ==> DurationHours(ops, created, expires) == None)
              && (0 < seconds <= 5400 ==> DurationHours(ops, created, expires) == Some(if seconds < 5400 then 1 else 2))
    ensures created.None? && expires.Some? && expires.value.At? ==> DurationHours(ops, created, expires) == None
    ensures created.Some? && expires.Some? && created.value.Label? && expires.value.Label?
            && ops.strip(expires.value.text) !in {"永久", "本场", "本场直播"} ==>
              var span := ops.span(created.value.text, expires.value.text);
              && (span.None? || span.value <= 0.0 ==> DurationHours(ops, created, expires) == None)
              && (span.Some? && 0.0 < span.value < 5400.0 ==> DurationHours(ops, created, expires) == Some(1))
    ensures expires.None? ==> DurationHours(ops, created, expires) == None
    ensures created.Some? && expires.Some? && created.value.Label? && expires.value.At? ==>
              DurationHours(ops, created, expires) == None
  {
    assert "永久" != "本场" && "永久" != "本场直播";
    ShortSpans();
    if created.Some? && expires.Some? && created.value.At? && expires.value.At? {
      var seconds := expires.value.seconds - created.value.seconds;
      var x := seconds as real / 3600.0;
      assert x * 3600.0 == seconds as real;
      if 0 < seconds <= 5400 {
        RoundNear(x);
        assert 0.0 < x <= 1.5 && (seconds < 5400 ==> x < 1.5);
        assert seconds == 5400 ==> x == 1.5 && x.Floor == 1;
      }
    }
  }

  lemma RoundNear(x: real)
    ensures -0.5 <= x - RoundHalfEven(x) as real <= 0.5
    ensures x == x.Floor as real ==> RoundHalfEven(x) == x.Floor
  {
  }

  /** The expiry that is filled in for h hours gives back h, and a derived hour is within half an hour of any span of
      at least half an hour. */
  lemma DurationExact(ops: TextOps, created: int, expires: int, h: int)
    ensures h >= 1 ==> DurationHours(ops, Some(At(created)), Some(At(created + h * 3600))) == Some(h)
    ensures expires - created >= 1800 ==>
              var d := DurationHours(ops, Some(At(created)), Some(At(expires)));
              d.Some? && d.value >= 1 && -1800 <= 3600 * d.value - (expires - created) <= 1800
  {
    RoundNear((h * 3600) as real / 3600.0);
    assert (h * 3600) as real / 3600.0 == h as real;
    var x := (expires - created) as real / 3600.0;
    RoundNear(x);
    if expires - created >= 1800 {
      assert x >= 0.5;
      var hours := RoundHalfEven(x);
      assert x * 3600.0 == (expires - created) as real;
      assert -1800.0 <= (3600 * hours) as real - (expires - created) as real <= 1800.0;
    }
  }
}
