/** Insertion-ordered dictionaries: a Python `dict` or a JavaScript `Map` whose values carry their own key.
    Rewriting an existing key keeps its position; a new key goes to the end. */
module OrderedDict {

  datatype Option<+T> = None | Some(value: T)

  datatype Row<K, V> = Row(key: K, info: V)

  ghost predicate Unique<K, V>(d: seq<Row<K, V>>) {
    forall i, j :: 0 <= i < j < |d| ==> d[i].key != d[j].key
  }

  function Put<K(==), V>(d: seq<Row<K, V>>, r: Row<K, V>): seq<Row<K, V>> {
    if d == [] then [r]
    else if d[0].key == r.key then [r] + d[1..]
    else [d[0]] + Put(d[1..], r)
  }

  function Remove<K(==), V>(d: seq<Row<K, V>>, k: K): seq<Row<K, V>> {
    if d == [] then []
    else if d[0].key == k then Remove(d[1..], k)
    else [d[0]] + Remove(d[1..], k)
  }

  /** The dictionary built by writing the rows one after another. */
  function PutAll<K(==), V>(d: seq<Row<K, V>>, rows: seq<Row<K, V>>): seq<Row<K, V>>
    decreases rows
  {
    if rows == [] then d else PutAll(Put(d, rows[0]), rows[1..])
  }

  function AsMap<K(==), V>(d: seq<Row<K, V>>): map<K, V> {
    if d == [] then map[] else AsMap(d[1..])[d[0].key := d[0].info]
  }

  function Keys<K(==), V(==)>(d: seq<Row<K, V>>): set<K> {
    set r | r in d :: r.key
  }

  lemma UniqueTail<K, V>(d: seq<Row<K, V>>)
    requires d != [] && Unique(d)
    ensures Unique(d[1..]) && d[0].key !in Keys(d[1..])
  {
  }

  lemma UniqueCons<K, V>(r: Row<K, V>, d: seq<Row<K, V>>)
    requires Unique(d) && r.key !in Keys(d)
    ensures Unique([r] + d)
  {
    var s := [r] + d;
    forall i, j | 0 <= i < j < |s| ensures s[i].key != s[j].key {
      assert s[j] == d[j - 1] && s[j] in d;
    }
  }

  lemma KeysCons<K, V>(r: Row<K, V>, d: seq<Row<K, V>>)
    ensures Keys([r] + d) == {r.key} + Keys(d)
  {
    assert r in [r] + d;
    forall x | x in d ensures x in [r] + d {
    }
  }

  lemma {:induction false} MapKeys<K, V>(d: seq<Row<K, V>>)
    ensures AsMap(d).Keys == Keys(d)
  {
    if d != [] {
      MapKeys(d[1..]);
      assert d == [d[0]] + d[1..];
    }
  }

  lemma {:induction false} MapAt<K, V>(d: seq<Row<K, V>>, i: nat)
    requires Unique(d) && i < |d|
    ensures d[i].key in AsMap(d) && AsMap(d)[d[i].key] == d[i].info
  {
    if i > 0 {
      UniqueTail(d);
      MapAt(d[1..], i - 1);
      assert d[1..][i - 1] == d[i] && d[i] in d[1..];
    }
  }

  lemma {:induction false} PutKeys<K, V>(d: seq<Row<K, V>>, r: Row<K, V>)
    ensures Keys(Put(d, r)) == Keys(d) + {r.key}
  {
    if d == [] {
      KeysCons(r, []);
    } else {
      var rest := d[1..];
      assert d == [d[0]] + rest;
      KeysCons(d[0], rest);
      if d[0].key == r.key {
        KeysCons(r, rest);
      } else {
        PutKeys(rest, r);
        KeysCons(d[0], Put(rest, r));
      }
    }
  }

  lemma {:induction false} PutUnique<K, V>(d: seq<Row<K, V>>, r: Row<K, V>)
    requires Unique(d)
    ensures Unique(Put(d, r))
  {
    if d != [] {
      UniqueTail(d);
      if d[0].key == r.key {
        UniqueCons(r, d[1..]);
      } else {
        PutKeys(d[1..], r);
        PutUnique(d[1..], r);
        UniqueCons(d[0], Put(d[1..], r));
      }
    }
  }

  lemma {:induction false} PutMap<K, V>(d: seq<Row<K, V>>, r: Row<K, V>)
    ensures AsMap(Put(d, r)) == AsMap(d)[r.key := r.info]
  {
    if d != [] {
      var rest := d[1..];
      if d[0].key == r.key {
        assert ([r] + rest)[1..] == rest;
      } else {
        PutMap(rest, r);
        assert ([d[0]] + Put(rest, r))[1..] == Put(rest, r);
      }
    }
  }

  lemma PutFacts<K, V>(d: seq<Row<K, V>>, r: Row<K, V>)
    requires Unique(d)
    ensures Unique(Put(d, r))
    ensures AsMap(Put(d, r)) == AsMap(d)[r.key := r.info]
    ensures Keys(Put(d, r)) == Keys(d) + {r.key}
  {
    PutUnique(d, r);
    PutMap(d, r);
    PutKeys(d, r);
  }

  lemma {:induction false} RemoveMembers<K, V>(d: seq<Row<K, V>>, k: K)
    ensures forall r :: r in Remove(d, k) <==> r in d && r.key != k
  {
    if d != [] {
      assert d == [d[0]] + d[1..];
      RemoveMembers(d[1..], k);
    }
  }

  lemma RemoveKeys<K, V>(d: seq<Row<K, V>>, k: K)
    ensures Keys(Remove(d, k)) == Keys(d) - {k}
  {
    RemoveMembers(d, k);
    forall q | q in Keys(d) - {k} ensures q in Keys(Remove(d, k)) {
      var r :| r in d && r.key == q;
      assert r in Remove(d, k);
    }
    forall q | q in Keys(Remove(d, k)) ensures q in Keys(d) - {k} {
      var r :| r in Remove(d, k) && r.key == q;
      assert r in d;
    }
  }

  lemma {:induction false} RemoveUnique<K, V>(d: seq<Row<K, V>>, k: K)
    requires Unique(d)
    ensures Unique(Remove(d, k))
  {
    if d != [] {
      UniqueTail(d);
      RemoveKeys(d[1..], k);
      RemoveUnique(d[1..], k);
      if d[0].key != k {
        UniqueCons(d[0], Remove(d[1..], k));
      }
    }
  }

  lemma {:induction false} RemoveMap<K, V>(d: seq<Row<K, V>>, k: K)
    ensures AsMap(Remove(d, k)) == AsMap(d) - {k}
  {
    if d != [] {
      var rest := Remove(d[1..], k);
      RemoveMap(d[1..], k);
      if d[0].key != k {
        assert ([d[0]] + rest)[1..] == rest;
        assert AsMap([d[0]] + rest) == AsMap(rest)[d[0].key := d[0].info];
      }
    }
  }

  lemma RemoveFacts<K, V>(d: seq<Row<K, V>>, k: K)
    requires Unique(d)
    ensures Unique(Remove(d, k))
    ensures AsMap(Remove(d, k)) == AsMap(d) - {k}
    ensures Keys(Remove(d, k)) == Keys(d) - {k}
    ensures forall r :: r in Remove(d, k) <==> r in d && r.key != k
  {
    RemoveMembers(d, k);
    RemoveKeys(d, k);
    RemoveUnique(d, k);
    RemoveMap(d, k);
  }

  lemma {:induction false} RemoveAbsent<K, V>(d: seq<Row<K, V>>, k: K)
    requires k !in Keys(d)
    ensures Remove(d, k) == d
  {
    if d != [] {
      assert d[0] in d;
      assert d[0].key in Keys(d);
      assert Keys(d[1..]) <= Keys(d);
      RemoveAbsent(d[1..], k);
    }
  }

  lemma {:induction false} PutFresh<K, V>(d: seq<Row<K, V>>, r: Row<K, V>)
    requires r.key !in Keys(d)
    ensures Put(d, r) == d + [r]
  {
    if d != [] {
      assert d[0] in d;
      assert d[0].key in Keys(d);
      assert Keys(d[1..]) <= Keys(d);
      PutFresh(d[1..], r);
    }
  }

  lemma {:induction false} PutAllFacts<K, V>(d: seq<Row<K, V>>, rows: seq<Row<K, V>>)
    requires Unique(d)
    ensures Unique(PutAll(d, rows))
    ensures Keys(PutAll(d, rows)) == Keys(d) + Keys(rows)
    decreases rows
  {
    if rows != [] {
      PutFacts(d, rows[0]);
      PutAllFacts(Put(d, rows[0]), rows[1..]);
      assert rows == [rows[0]] + rows[1..];
    }
  }

  lemma {:induction false} PutAllSnoc<K, V>(d: seq<Row<K, V>>, rows: seq<Row<K, V>>, r: Row<K, V>)
    ensures PutAll(d, rows + [r]) == Put(PutAll(d, rows), r)
    decreases rows
  {
    if rows == [] {
      assert [r][1..] == [] && [] + [r] == [r];
    } else {
      assert (rows + [r])[1..] == rows[1..] + [r];
      PutAllSnoc(Put(d, rows[0]), rows[1..], r);
    }
  }

  /** The last row with this key. */
  function LastRow<K(==), V>(rows: seq<Row<K, V>>, k: K): Option<V> {
    if rows == [] then None
    else if rows[|rows| - 1].key == k then Some(rows[|rows| - 1].info)
    else LastRow(rows[..|rows| - 1], k)
  }

  function ValueAt<K(==), V>(d: seq<Row<K, V>>, k: K): Option<V> {
    if k in AsMap(d) then Some(AsMap(d)[k]) else None
  }

  /** Of several rows with one key the last is kept. */
  lemma {:induction false} PutAllLast<K, V>(d: seq<Row<K, V>>, rows: seq<Row<K, V>>, k: K)
    ensures ValueAt(PutAll(d, rows), k) == if LastRow(rows, k).Some? then LastRow(rows, k) else ValueAt(d, k)
    decreases rows
  {
    if rows != [] {
      var init, r := rows[..|rows| - 1], rows[|rows| - 1];
      assert rows == init + [r];
      PutAllLast(d, init, k);
      PutAllSnoc(d, init, r);
      PutMap(PutAll(d, init), r);
    }
  }

  lemma {:induction false} LastRowKeys<K, V>(rows: seq<Row<K, V>>, k: K)
    ensures LastRow(rows, k).Some? <==> k in Keys(rows)
  {
    if rows != [] {
      var init := rows[..|rows| - 1];
      assert rows == init + [rows[|rows| - 1]];
      LastRowKeys(init, k);
    }
  }

  /** The first of two dictionaries wins. */
  lemma {:induction false} ValueAtConcat<K, V>(a: seq<Row<K, V>>, b: seq<Row<K, V>>, k: K)
    ensures ValueAt(a + b, k) == if ValueAt(a, k).Some? then ValueAt(a, k) else ValueAt(b, k)
  {
    if a == [] {
      assert a + b == b;
    } else {
      assert (a + b)[1..] == a[1..] + b;
      ValueAtConcat(a[1..], b, k);
    }
  }

  /** Removing does not change the order of what is kept. */
  lemma {:induction false} RemoveConcat<K, V>(a: seq<Row<K, V>>, b: seq<Row<K, V>>, k: K)
    ensures Remove(a + b, k) == Remove(a, k) + Remove(b, k)
  {
    if a == [] {
      assert a + b == b;
    } else {
      assert (a + b)[1..] == a[1..] + b;
      RemoveConcat(a[1..], b, k);
    }
  }

  lemma {:induction false} PutMembers<K, V>(d: seq<Row<K, V>>, r: Row<K, V>)
    ensures forall x :: x in Put(d, r) ==> x in d || x == r
  {
    if d != [] {
      assert d == [d[0]] + d[1..];
      PutMembers(d[1..], r);
    }
  }

  lemma {:induction false} PutAllMembers<K, V>(d: seq<Row<K, V>>, rows: seq<Row<K, V>>)
    ensures forall x :: x in PutAll(d, rows) ==> x in d || x in rows
    decreases rows
  {
    if rows != [] {
      assert rows == [rows[0]] + rows[1..];
      PutMembers(d, rows[0]);
      PutAllMembers(Put(d, rows[0]), rows[1..]);
    }
  }

  /** Rows with pairwise different keys are read back in the order they were written. */
  lemma {:induction false} PutAllUnique<K, V>(d: seq<Row<K, V>>, rows: seq<Row<K, V>>)
    requires Unique(d + rows)
    ensures PutAll(d, rows) == d + rows
    decreases rows
  {
    if rows == [] {
      assert d + rows == d;
    } else {
      var all := d + rows;
      forall r | r in d ensures r.key != rows[0].key {
        var i :| 0 <= i < |d| && d[i] == r;
        assert all[i] == r && all[|d|] == rows[0];
      }
      PutFresh(d, rows[0]);
      assert (d + [rows[0]]) + rows[1..] == all;
      PutAllUnique(d + [rows[0]], rows[1..]);
    }
  }
}
