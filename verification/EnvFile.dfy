/** Rewriting the login cookies in the lines of a `.env` file. */
module EnvFile {
  import opened OrderedDict

  const OWNED: seq<string> := ["SESSDATA", "BILI_JCT", "BUVID3"]

  /** Python's whitespace. */
  predicate IsSpace(c: char) {
    var n := c as int;
    9 <= n <= 13 || 28 <= n <= 32 || n == 133 || n == 160 || n == 5760 || 8192 <= n <= 8202 || n == 8232 || n == 8233 ||
    n == 8239 || n == 8287 || n == 12288
  }

  /** Spaces and tabs are blanks; letters, digits, the underscore, `=` and `#` are not. */
  lemma BlanksAndText(c: char)
    ensures c == ' ' || c == '\t' ==> IsSpace(c)
    ensures 'a' <= c <= 'z' || 'A' <= c <= 'Z' || '0' <= c <= '9' || c in {'_', '=', '#'} ==> !IsSpace(c)
  {
  }

  function StripLeft(s: string): string {
    if s != "" && IsSpace(s[0]) then StripLeft(s[1..]) else s
  }

  function StripRight(s: string): string {
    if s != "" && IsSpace(s[|s| - 1]) then StripRight(s[..|s| - 1]) else s
  }

  function Strip(s: string): string { StripRight(StripLeft(s)) }

  /** The text before the first `=`. */
  function Head(s: string): string {
    if s == "" || s[0] == '=' then "" else [s[0]] + Head(s[1..])
  }

  /** The owned key that a line sets, or "". */
  function KeyOf(line: string): string {
    var stripped := Strip(line);
    if '=' in stripped && stripped[0] != '#' && Strip(Head(stripped)) in OWNED then Strip(Head(stripped)) else ""
  }

  function Assign(key: string, value: string): string { key + "=" + value }

  function Rewritten(line: string, updates: map<string, string>): string {
    if KeyOf(line) != "" && KeyOf(line) in updates then Assign(KeyOf(line), updates[KeyOf(line)]) else line
  }

  function RewriteAll(lines: seq<string>, updates: map<string, string>): seq<string> {
    if lines == [] then [] else [Rewritten(lines[0], updates)] + RewriteAll(lines[1..], updates)
  }

  /** How many lines set this key. */
  function Count(lines: seq<string>, key: string): nat {
    if lines == [] then 0 else (if KeyOf(lines[0]) == key then 1 else 0) + Count(lines[1..], key)
  }

  /** The owned keys that have to be appended. */
  function Missing(lines: seq<string>, updates: map<string, string>, keys: seq<string>): seq<string> {
    if keys == [] then []
    else
      (if keys[0] in updates && Count(lines, keys[0]) == 0 then [Assign(keys[0], updates[keys[0]])] else [])
      + Missing(lines, updates, keys[1..])
  }

  function Updated(lines: seq<string>, updates: map<string, string>): seq<string> {
    RewriteAll(lines, updates) + Missing(lines, updates, OWNED)
  }

  lemma CountNext(lines: seq<string>, i: nat, k: string)
    requires i < |lines|
    ensures Count(lines[..i + 1], k) == Count(lines[..i], k) + if KeyOf(lines[i]) == k then 1 else 0
  {
    assert lines[..i + 1] == lines[..i] + [lines[i]] && [lines[i]][1..] == [];
    CountConcat(lines[..i], [lines[i]], k);
  }

  lemma RewriteNext(lines: seq<string>, i: nat, updates: map<string, string>)
    requires i < |lines|
    ensures RewriteAll(lines[..i + 1], updates) == RewriteAll(lines[..i], updates) + [Rewritten(lines[i], updates)]
  {
    assert lines[..i + 1] == lines[..i] + [lines[i]] && [lines[i]][1..] == [];
    RewriteAllConcat(lines[..i], [lines[i]], updates);
  }

  /** The keys that some line sets. */
  ghost predicate SetBy(seen: set<string>, lines: seq<string>) {
    forall k :: k in seen <==> k != "" && Count(lines, k) > 0
  }

  lemma SeenNext(seen: set<string>, lines: seq<string>, i: nat)
    requires i < |lines| && SetBy(seen, lines[..i])
    ensures SetBy(if KeyOf(lines[i]) != "" then seen + {KeyOf(lines[i])} else seen, lines[..i + 1])
  {
    var next := if KeyOf(lines[i]) != "" then seen + {KeyOf(lines[i])} else seen;
    forall k ensures k in next <==> k != "" && Count(lines[..i + 1], k) > 0 {
      CountNext(lines, i, k);
    }
  }

  method RewriteLines(lines: seq<string>, updates: map<string, string>) returns (out: seq<string>, seen: set<string>)
    ensures out == RewriteAll(lines, updates)
    ensures SetBy(seen, lines)
  {
    out, seen := [], {};
    for i := 0 to |lines|
      invariant out == RewriteAll(lines[..i], updates)
      invariant SetBy(seen, lines[..i])
    {
      RewriteNext(lines, i, updates);
      SeenNext(seen, lines, i);
      var key := KeyOf(lines[i]);
      out := out + [Rewritten(lines[i], updates)];
      if key != "" {
        seen := seen + {key};
      }
    }
    assert lines[..|lines|] == lines;
  }

  lemma {:induction false} MissingSnoc(lines: seq<string>, updates: map<string, string>, keys: seq<string>, key: string)
    ensures Missing(lines, updates, keys + [key])
         == Missing(lines, updates, keys)
            + if key in updates && Count(lines, key) == 0 then [Assign(key, updates[key])] else []
  {
    if keys == [] {
      assert [key][1..] == [] && [] + [key] == [key];
    } else {
      assert (keys + [key])[1..] == keys[1..] + [key];
      MissingSnoc(lines, updates, keys[1..], key);
    }
  }

  lemma MissingNext(lines: seq<string>, updates: map<string, string>, keys: seq<string>, i: nat)
    requires i < |keys|
    ensures Missing(lines, updates, keys[..i + 1])
         == Missing(lines, updates, keys[..i])
            + if keys[i] in updates && Count(lines, keys[i]) == 0 then [Assign(keys[i], updates[keys[i]])] else []
  {
    assert keys[..i + 1] == keys[..i] + [keys[i]];
    MissingSnoc(lines, updates, keys[..i], keys[i]);
  }

  /** Which of these keys are not seen, as lines in their order. */
  method AppendMissing(lines: seq<string>, updates: map<string, string>, keys: seq<string>, seen: set<string>)
    returns (out: seq<string>)
    requires SetBy(seen, lines) && "" !in keys
    ensures out == Missing(lines, updates, keys)
  {
    out := [];
    for i := 0 to |keys|
      invariant out == Missing(lines, updates, keys[..i])
    {
      MissingNext(lines, updates, keys, i);
      assert keys[i] in keys;
      if keys[i] in updates && keys[i] !in seen {
        out := out + [Assign(keys[i], updates[keys[i]])];
      }
    }
    assert keys[..|keys|] == keys;
  }

  method UpdateOwnedLines(lines: seq<string>, updates: map<string, string>) returns (out: seq<string>)
    ensures out == Updated(lines, updates)
  {
    var body, seen := RewriteLines(lines, updates);
    assert "" !in OWNED;
    var appended := AppendMissing(lines, updates, OWNED, seen);
    out := body + appended;
  }

  // ---------------------------------------------------------------- an assignment is recognised as one

  lemma {:induction false} CountConcat(a: seq<string>, b: seq<string>, key: string)
    ensures Count(a + b, key) == Count(a, key) + Count(b, key)
  {
    if a == [] {
      assert a + b == b;
    } else {
      assert (a + b)[1..] == a[1..] + b;
      CountConcat(a[1..], b, key);
    }
  }

  lemma {:induction false} StripRightStops(s: string, t: string)
    requires s != "" && !IsSpace(s[|s| - 1])
    ensures exists u :: u <= t && StripRight(s + t) == s + u
  {
    if t == "" {
      assert s + t == s;
      assert s + "" == s;
    } else if IsSpace(t[|t| - 1]) {
      var shorter := t[..|t| - 1];
      assert (s + t)[..|s + t| - 1] == s + shorter;
      StripRightStops(s, shorter);
      var u :| u <= shorter && StripRight(s + shorter) == s + u;
      assert u <= t;
    }
  }

  lemma {:induction false} HeadOf(key: string, rest: string)
    requires '=' !in key
    ensures Head(key + "=" + rest) == key
  {
    if key != "" {
      assert (key + "=" + rest)[1..] == key[1..] + "=" + rest;
      HeadOf(key[1..], rest);
    }
  }

  ghost predicate PlainKey(key: string) {
    && key != "" && '=' !in key && key[0] != '#'
    && !IsSpace(key[0]) && !IsSpace(key[|key| - 1])
  }

  lemma OwnedPlain(key: string)
    requires key in OWNED
    ensures PlainKey(key)
  {
  }

  lemma AssignKey(key: string, value: string)
    requires key in OWNED
    ensures KeyOf(Assign(key, value)) == key
  {
    OwnedPlain(key);
    var line := Assign(key, value);
    assert line[0] == key[0];
    var s := key + "=";
    StripRightStops(s, value);
    var u :| u <= value && StripRight(s + value) == s + u;
    assert Strip(line) == s + u;
    assert (s + u)[|key|] == '=';
    HeadOf(key, u);
    assert Strip(key) == key;
  }

  ghost predicate Blank(s: string) {
    forall i :: 0 <= i < |s| ==> IsSpace(s[i])
  }

  lemma {:induction false} StripLeftBlank(w: string, s: string)
    requires Blank(w)
    ensures StripLeft(w + s) == StripLeft(s)
  {
    if w == "" {
      assert w + s == s;
    } else {
      assert (w + s)[1..] == w[1..] + s;
      StripLeftBlank(w[1..], s);
    }
  }

  lemma {:induction false} StripRightBlank(s: string, w: string)
    requires Blank(w)
    ensures StripRight(s + w) == StripRight(s)
  {
    if w == "" {
      assert s + w == s;
    } else {
      assert (s + w)[..|s + w| - 1] == s + w[..|w| - 1];
      StripRightBlank(s, w[..|w| - 1]);
    }
  }

  /** Blanks before the line and around the key do not matter. */
  lemma PaddedKey(before: string, key: string, between: string, rest: string)
    requires key in OWNED && Blank(before) && Blank(between) && '=' !in between
    ensures KeyOf(before + (key + between + "=" + rest)) == key
  {
    OwnedPlain(key);
    var s := key + between + "=";
    var line := s + rest;
    assert line == key + between + "=" + rest && line[0] == key[0];
    StripLeftBlank(before, line);
    StripRightStops(s, rest);
    var u :| u <= rest && StripRight(s + rest) == s + u;
    assert Strip(before + line) == s + u && (s + u)[|key + between|] == '=' && (s + u)[0] == key[0];
    HeadOf(key + between, u);
    assert key + between + "=" + u == s + u;
    assert (key + between)[0] == key[0];
    StripRightBlank(key, between);
  }

  /** A comment sets no key, whatever it looks like. */
  lemma CommentNoKey(before: string, rest: string)
    requires Blank(before)
    ensures KeyOf(before + ("#" + rest)) == ""
  {
    StripLeftBlank(before, "#" + rest);
    StripRightStops("#", rest);
    assert Strip(before + ("#" + rest))[0] == '#';
  }

  lemma RewrittenKey(line: string, updates: map<string, string>)
    ensures KeyOf(Rewritten(line, updates)) == KeyOf(line)
    ensures Rewritten(Rewritten(line, updates), updates) == Rewritten(line, updates)
  {
    if KeyOf(line) != "" && KeyOf(line) in updates {
      AssignKey(KeyOf(line), updates[KeyOf(line)]);
    }
  }

  // ---------------------------------------------------------------- what a rewrite does to a file

  lemma {:induction false} RewriteAllFacts(lines: seq<string>, updates: map<string, string>, key: string)
    ensures |RewriteAll(lines, updates)| == |lines|
    ensures Count(RewriteAll(lines, updates), key) == Count(lines, key)
    ensures RewriteAll(RewriteAll(lines, updates), updates) == RewriteAll(lines, updates)
  {
    if lines != [] {
      RewrittenKey(lines[0], updates);
      RewriteAllFacts(lines[1..], updates, key);
    }
  }

  lemma {:induction false} RewriteAllConcat(a: seq<string>, b: seq<string>, updates: map<string, string>)
    ensures RewriteAll(a + b, updates) == RewriteAll(a, updates) + RewriteAll(b, updates)
  {
    if a == [] {
      assert a + b == b;
    } else {
      assert (a + b)[1..] == a[1..] + b;
      RewriteAllConcat(a[1..], b, updates);
    }
  }

  ghost predicate Subset(keys: seq<string>) {
    && (forall k :: k in keys ==> k in OWNED)
    && (forall i, j :: 0 <= i < j < |keys| ==> keys[i] != keys[j])
  }

  lemma {:induction false} MissingFacts(
    lines: seq<string>, updates: map<string, string>, keys: seq<string>, key: string)
    requires Subset(keys) && key != ""
    ensures Count(Missing(lines, updates, keys), key)
         == if key in keys && key in updates && Count(lines, key) == 0 then 1 else 0
    ensures RewriteAll(Missing(lines, updates, keys), updates) == Missing(lines, updates, keys)
  {
    if keys != [] {
      assert keys[0] in keys && forall k :: k in keys[1..] ==> k in keys;
      MissingFacts(lines, updates, keys[1..], key);
      if keys[0] in updates && Count(lines, keys[0]) == 0 {
        var line := Assign(keys[0], updates[keys[0]]);
        var rest := Missing(lines, updates, keys[1..]);
        AssignKey(keys[0], updates[keys[0]]);
        OwnedPlain(keys[0]);
        assert ([line] + rest)[1..] == rest;
        assert key == keys[0] ==> key !in keys[1..];
      } else {
        assert [] + Missing(lines, updates, keys[1..]) == Missing(lines, updates, keys[1..]);
      }
    }
  }

  lemma OwnedSubset()
    ensures Subset(OWNED)
  {
  }

  /** Every updated key ends up on as many lines as it had, and on one if it had none. */
  lemma Occurrences(lines: seq<string>, updates: map<string, string>, key: string)
    requires key in OWNED
    ensures Count(Updated(lines, updates), key)
         == if key in updates && Count(lines, key) == 0 then 1 else Count(lines, key)
  {
    OwnedSubset();
    OwnedPlain(key);
    RewriteAllFacts(lines, updates, key);
    MissingFacts(lines, updates, OWNED, key);
    CountConcat(RewriteAll(lines, updates), Missing(lines, updates, OWNED), key);
  }

  /** The lines that set no updated key, in order. */
  function Untouched(lines: seq<string>, updates: map<string, string>): seq<string> {
    if lines == [] then []
    else
      (if KeyOf(lines[0]) != "" && KeyOf(lines[0]) in updates then [] else [lines[0]])
      + Untouched(lines[1..], updates)
  }

  lemma {:induction false} UntouchedConcat(a: seq<string>, b: seq<string>, updates: map<string, string>)
    ensures Untouched(a + b, updates) == Untouched(a, updates) + Untouched(b, updates)
  {
    if a == [] {
      assert a + b == b;
    } else {
      assert (a + b)[1..] == a[1..] + b;
      UntouchedConcat(a[1..], b, updates);
    }
  }

  lemma {:induction false} RewriteUntouched(lines: seq<string>, updates: map<string, string>)
    ensures Untouched(RewriteAll(lines, updates), updates) == Untouched(lines, updates)
  {
    if lines != [] {
      RewrittenKey(lines[0], updates);
      RewriteUntouched(lines[1..], updates);
    }
  }

  lemma {:induction false} MissingUntouched(lines: seq<string>, updates: map<string, string>, keys: seq<string>)
    requires Subset(keys)
    ensures Untouched(Missing(lines, updates, keys), updates) == []
  {
    if keys != [] {
      assert keys[0] in keys && forall k :: k in keys[1..] ==> k in keys;
      MissingUntouched(lines, updates, keys[1..]);
      if keys[0] in updates && Count(lines, keys[0]) == 0 {
        AssignKey(keys[0], updates[keys[0]]);
        OwnedPlain(keys[0]);
        var line := Assign(keys[0], updates[keys[0]]);
        assert ([line] + Missing(lines, updates, keys[1..]))[1..] == Missing(lines, updates, keys[1..]);
      } else {
        assert [] + Missing(lines, updates, keys[1..]) == Missing(lines, updates, keys[1..]);
      }
    }
  }

  /** All other lines are kept verbatim and in order. */
  lemma OthersVerbatim(lines: seq<string>, updates: map<string, string>)
    ensures Untouched(Updated(lines, updates), updates) == Untouched(lines, updates)
  {
    OwnedSubset();
    RewriteUntouched(lines, updates);
    MissingUntouched(lines, updates, OWNED);
    UntouchedConcat(RewriteAll(lines, updates), Missing(lines, updates, OWNED), updates);
  }

  lemma {:induction false} RewriteAllLine(lines: seq<string>, updates: map<string, string>, i: nat)
    requires i < |lines|
    ensures |RewriteAll(lines, updates)| == |lines| && RewriteAll(lines, updates)[i] == Rewritten(lines[i], updates)
  {
    RewriteAllFacts(lines, updates, "");
    if i > 0 {
      RewriteAllLine(lines[1..], updates, i - 1);
    }
  }

  /** Every line that sets an updated key carries the new value. */
  lemma NewValues(lines: seq<string>, updates: map<string, string>, i: nat)
    requires i < |Updated(lines, updates)|
    ensures var line := Updated(lines, updates)[i];
            KeyOf(line) != "" && KeyOf(line) in updates ==> line == Assign(KeyOf(line), updates[KeyOf(line)])
  {
    Idempotent(lines, updates);
    var out := Updated(lines, updates);
    RewriteAllLine(out, updates, i);
    assert Updated(out, updates)[i] == RewriteAll(out, updates)[i];
  }

  /** Rewriting twice with the same values is rewriting once. */
  lemma Idempotent(lines: seq<string>, updates: map<string, string>)
    ensures Updated(Updated(lines, updates), updates) == Updated(lines, updates)
  {
    OwnedSubset();
    var out := Updated(lines, updates);
    RewriteAllConcat(RewriteAll(lines, updates), Missing(lines, updates, OWNED), updates);
    RewriteAllFacts(lines, updates, "");
    MissingFacts(lines, updates, OWNED, "SESSDATA");
    NothingMissing(lines, updates, OWNED);
    assert RewriteAll(out, updates) == out;
    assert out + [] == out;
  }

  lemma NothingMissing(lines: seq<string>, updates: map<string, string>, keys: seq<string>)
    requires Subset(keys)
    ensures Missing(Updated(lines, updates), updates, keys) == []
  {
    forall k | k in keys && k in updates ensures Count(Updated(lines, updates), k) > 0 {
      Occurrences(lines, updates, k);
    }
    AllPresent(Updated(lines, updates), updates, keys);
  }

  lemma {:induction false} AllPresent(lines: seq<string>, updates: map<string, string>, keys: seq<string>)
    requires forall k :: k in keys && k in updates ==> Count(lines, k) > 0
    ensures Missing(lines, updates, keys) == []
  {
    if keys != [] {
      assert keys[0] in keys && forall k :: k in keys[1..] ==> k in keys;
      AllPresent(lines, updates, keys[1..]);
    }
  }

  /** The comment above the source function says that duplicates are dropped. They are rewritten: a key stays on at
      most one line if and only if it was on at most one. */
  lemma DuplicatesStay(lines: seq<string>, updates: map<string, string>, key: string)
    requires key in OWNED
    ensures Count(Updated(lines, updates), key) <= 1 <==> Count(lines, key) <= 1
  {
    Occurrences(lines, updates, key);
  }

  /** A key that is there twice is still there twice. */
  lemma DuplicateExample(key: string, a: string, b: string, c: string)
    requires key in OWNED
    ensures Updated([Assign(key, a), Assign(key, b)], map[key := c]) == [Assign(key, c), Assign(key, c)]
  {
    var lines, updates := [Assign(key, a), Assign(key, b)], map[key := c];
    AssignKey(key, a);
    AssignKey(key, b);
    OwnedPlain(key);
    AllPresent(lines, updates, OWNED);
    RewriteAllLine(lines, updates, 0);
    RewriteAllLine(lines, updates, 1);
    assert RewriteAll(lines, updates) == [Assign(key, c), Assign(key, c)];
  }

  // ---------------------------------------------------------------- on the text of the lines

  /** The line assigns to this key: blanks, the key, blanks, an equals sign, and anything. */
  ghost predicate Assigns(line: string, key: string) {
    exists before, between, rest ::
      Blank(before) && Blank(between) && '=' !in between && line == before + (key + between + "=" + rest)
  }

  lemma {:induction false} StripLeftSplits(s: string) returns (before: string)
    ensures Blank(before) && s == before + StripLeft(s)
    ensures StripLeft(s) == "" || !IsSpace(StripLeft(s)[0])
  {
    if s != "" && IsSpace(s[0]) {
      var rest := StripLeftSplits(s[1..]);
      before := [s[0]] + rest;
      assert s == [s[0]] + s[1..];
    } else {
      before := "";
      assert s == "" + s;
    }
  }

  lemma {:induction false} StripRightSplits(s: string) returns (after: string)
    ensures Blank(after) && s == StripRight(s) + after
    ensures StripRight(s) == "" || !IsSpace(StripRight(s)[|StripRight(s)| - 1])
  {
    if s != "" && IsSpace(s[|s| - 1]) {
      var init := s[..|s| - 1];
      var rest := StripRightSplits(init);
      after := rest + [s[|s| - 1]];
      assert s == init + [s[|s| - 1]];
      assert (StripRight(s) + rest) + [s[|s| - 1]] == StripRight(s) + after;
    } else {
      after := "";
      assert s == s + "";
    }
  }

  lemma {:induction false} HeadSplits(s: string) returns (rest: string)
    requires '=' in s
    ensures s == Head(s) + "=" + rest && '=' !in Head(s)
  {
    if s[0] == '=' {
      rest := s[1..];
      assert s == "" + "=" + rest;
    } else {
      assert s == [s[0]] + s[1..];
      rest := HeadSplits(s[1..]);
      assert [s[0]] + (Head(s[1..]) + "=" + rest) == ([s[0]] + Head(s[1..])) + "=" + rest;
    }
  }

  lemma {:induction false} HeadFree(s: string)
    requires '=' !in s
    ensures Head(s) == s
  {
    if s != "" {
      HeadFree(s[1..]);
    }
  }

  lemma BlankNoEquals(w: string)
    requires Blank(w)
    ensures '=' !in w
  {
  }

  /** A key is found in a line if and only if the line assigns to it. */
  lemma KeyIffAssigns(line: string, key: string)
    requires key in ["SESSDATA", "BILI_JCT", "BUVID3"]
    ensures KeyOf(line) == key <==> Assigns(line, key)
  {
    OwnedPlain(key);
    if KeyOf(line) == key {
      KeyAssigns(line, key);
    }
    if Assigns(line, key) {
      var before, between, rest :|
        Blank(before) && Blank(between) && '=' !in between && line == before + (key + between + "=" + rest);
      PaddedKey(before, key, between, rest);
    }
  }

  lemma KeyAssigns(line: string, key: string)
    requires key != "" && KeyOf(line) == key
    ensures Assigns(line, key)
  {
    var stripped := Strip(line);
    var before := StripLeftSplits(line);
    var after := StripRightSplits(StripLeft(line));
    var rest := HeadSplits(stripped);
    var head := Head(stripped);
    var between := TrimmedHead(StripLeft(line), after, stripped, head, rest);
    BlankNoEquals(between);
    Regroup(before, key, between, rest, after);
  }

  lemma Regroup(before: string, key: string, between: string, rest: string, after: string)
    ensures before + ((key + between + "=" + rest) + after) == before + (key + between + "=" + (rest + after))
  {
    assert (key + between + "=" + rest) + after == key + between + "=" + (rest + after);
  }

  /** The head of a stripped line starts with no blank, so stripping it only takes blanks from its end. */
  lemma TrimmedHead(left: string, after: string, stripped: string, head: string, rest: string) returns (between: string)
    requires left == stripped + after && stripped == head + "=" + rest
    requires left == "" || !IsSpace(left[0])
    ensures Blank(between) && head == Strip(head) + between
  {
    assert head != "" ==> left[0] == head[0];
    assert StripLeft(head) == head;
    between := StripRightSplits(head);
  }

  lemma BlanksAround(before: string, key: string, between: string)
    requires Blank(before) && Blank(between) && key in OWNED
    ensures Strip(before + key + between) == key
  {
    OwnedPlain(key);
    assert before + key + between == before + (key + between);
    StripLeftBlank(before, key + between);
    assert (key + between)[0] == key[0];
    StripRightBlank(key, between);
  }

  /** A line that sets another variable, one without an equals sign, and a comment assign to none of the keys. */
  lemma ForeignLine(name: string, value: string, key: string)
    requires '=' !in name && key in ["SESSDATA", "BILI_JCT", "BUVID3"]
    ensures Strip(name) != key ==> !Assigns(name + "=" + value, key)
    ensures !Assigns(name, key)
    ensures forall blanks: string :: Blank(blanks) ==> !Assigns(blanks + ("#" + value), key)
  {
    if Assigns(name + "=" + value, key) {
      var before, between, rest :| Blank(before) && Blank(between) && '=' !in between
        && name + "=" + value == before + (key + between + "=" + rest);
      BlankNoEquals(before);
      OwnedPlain(key);
      HeadOf(name, value);
      assert before + (key + between + "=" + rest) == (before + key + between) + "=" + rest;
      HeadOf(before + key + between, rest);
      BlanksAround(before, key, between);
    }
    forall blanks: string | Blank(blanks) ensures !Assigns(blanks + ("#" + value), key) {
      CommentNoKey(blanks, value);
      KeyIffAssigns(blanks + ("#" + value), key);
    }
  }

  /** The line assigns to an owned key that is to be updated. */
  ghost predicate Concerned(line: string, updates: map<string, string>) {
    exists key :: key in ["SESSDATA", "BILI_JCT", "BUVID3"] && key in updates && Assigns(line, key)
  }

  lemma RewrittenText(line: string, updates: map<string, string>)
    ensures !Concerned(line, updates) ==> Rewritten(line, updates) == line
    ensures forall key :: key in ["SESSDATA", "BILI_JCT", "BUVID3"] && key in updates && Assigns(line, key) ==>
              Rewritten(line, updates) == key + "=" + updates[key]
  {
    forall key | key in ["SESSDATA", "BILI_JCT", "BUVID3"] ensures KeyOf(line) == key <==> Assigns(line, key) {
      KeyIffAssigns(line, key);
    }
    KeyOwned(line);
  }

  lemma KeyOwned(line: string)
    ensures KeyOf(line) == "" || KeyOf(line) in ["SESSDATA", "BILI_JCT", "BUVID3"]
  {
  }

  /** No line assigns to the key. */
  ghost predicate Absent(lines: seq<string>, key: string) {
    forall i :: 0 <= i < |lines| ==> !Assigns(lines[i], key)
  }

  lemma {:induction false} CountAbsent(lines: seq<string>, key: string)
    requires key in ["SESSDATA", "BILI_JCT", "BUVID3"]
    ensures Count(lines, key) == 0 <==> Absent(lines, key)
  {
    if lines != [] {
      KeyIffAssigns(lines[0], key);
      CountAbsent(lines[1..], key);
      assert Absent(lines, key) ==> Absent(lines[1..], key);
      assert Absent(lines[1..], key) && !Assigns(lines[0], key) ==> Absent(lines, key);
    }
  }

  /** Of these keys, the updated ones that no line assigns to, as lines in their order. */
  ghost function Appended(lines: seq<string>, updates: map<string, string>, keys: seq<string>): seq<string> {
    if keys == [] then []
    else
      (if keys[0] in updates && Absent(lines, keys[0]) then [keys[0] + "=" + updates[keys[0]]] else [])
      + Appended(lines, updates, keys[1..])
  }

  lemma {:induction false} MissingText(lines: seq<string>, updates: map<string, string>, keys: seq<string>)
    requires forall k :: k in keys ==> k in ["SESSDATA", "BILI_JCT", "BUVID3"]
    ensures Missing(lines, updates, keys) == Appended(lines, updates, keys)
    decreases keys
  {
    if keys != [] {
      assert keys[0] in keys && forall k :: k in keys[1..] ==> k in keys;
      CountAbsent(lines, keys[0]);
      MissingText(lines, updates, keys[1..]);
    }
  }

  /** Line by line: where a line assigns to an updated key it becomes `key=value`; every other line stays where it is,
      to the letter; and behind them come the updated keys that no line assigned to, in a fixed order. */
  lemma LineByLine(lines: seq<string>, updates: map<string, string>)
    ensures var out := Updated(lines, updates);
            && |out| >= |lines|
            && (forall i :: 0 <= i < |lines| && !Concerned(lines[i], updates) ==> out[i] == lines[i])
            && (forall i, key | 0 <= i < |lines| && key in ["SESSDATA", "BILI_JCT", "BUVID3"] && key in updates ::
                  Assigns(lines[i], key) ==> out[i] == key + "=" + updates[key])
            && out[|lines|..] == Appended(lines, updates, ["SESSDATA", "BILI_JCT", "BUVID3"])
  {
    var out := Updated(lines, updates);
    RewriteAllFacts(lines, updates, "");
    forall i | 0 <= i < |lines| ensures out[i] == Rewritten(lines[i], updates) {
      RewriteAllLine(lines, updates, i);
    }
    forall i | 0 <= i < |lines| && !Concerned(lines[i], updates) ensures out[i] == lines[i] {
      RewrittenText(lines[i], updates);
    }
    forall i, key | 0 <= i < |lines| && key in ["SESSDATA", "BILI_JCT", "BUVID3"] && key in updates
                    && Assigns(lines[i], key)
      ensures out[i] == key + "=" + updates[key]
    {
      RewrittenText(lines[i], updates);
    }
    MissingText(lines, updates, OWNED);
  }

  /** The lines that assign to no updated key, in order. */
  ghost function Foreign(lines: seq<string>, updates: map<string, string>): seq<string> {
    if lines == [] then []
    else (if Concerned(lines[0], updates) then [] else [lines[0]]) + Foreign(lines[1..], updates)
  }

  lemma {:induction false} ForeignUntouched(lines: seq<string>, updates: map<string, string>)
    ensures Foreign(lines, updates) == Untouched(lines, updates)
  {
    if lines != [] {
      ForeignUntouched(lines[1..], updates);
      KeyOwned(lines[0]);
      forall key | key in ["SESSDATA", "BILI_JCT", "BUVID3"]
        ensures KeyOf(lines[0]) == key <==> Assigns(lines[0], key)
      {
        KeyIffAssigns(lines[0], key);
      }
    }
  }

  /** They are the same before and after. */
  lemma ForeignVerbatim(lines: seq<string>, updates: map<string, string>)
    ensures Foreign(Updated(lines, updates), updates) == Foreign(lines, updates)
  {
    ForeignUntouched(lines, updates);
    ForeignUntouched(Updated(lines, updates), updates);
    OthersVerbatim(lines, updates);
  }

  /** A file that sets one other variable keeps it, and the cookie comes behind it. */
  lemma OtherVariableStays(name: string, value: string, cookie: string)
    requires '=' !in name && Strip(name) !in ["SESSDATA", "BILI_JCT", "BUVID3"]
    ensures Updated([name + "=" + value], map["SESSDATA" := cookie]) == [name + "=" + value, "SESSDATA" + "=" + cookie]
  {
    var line, updates := name + "=" + value, map["SESSDATA" := cookie];
    forall key | key in ["SESSDATA", "BILI_JCT", "BUVID3"] ensures !Assigns(line, key) {
      ForeignLine(name, value, key);
    }
    LineByLine([line], updates);
    assert Absent([line], "SESSDATA");
    OnlyFirst([line], "SESSDATA", "BILI_JCT", "BUVID3", cookie);
    var out := Updated([line], updates);
    assert out == [out[0]] + out[1..];
  }

  lemma OnlyFirst(lines: seq<string>, a: string, b: string, c: string, value: string)
    requires a != b && a != c && Absent(lines, a)
    ensures Appended(lines, map[a := value], [a, b, c]) == [a + "=" + value]
  {
    var updates := map[a := value];
    assert [a, b, c][1..] == [b, c] && [b, c][1..] == [c] && [c][1..] == [];
    assert Appended(lines, updates, []) == [];
    assert Appended(lines, updates, [c]) == [];
    assert Appended(lines, updates, [b, c]) == [];
  }
}
