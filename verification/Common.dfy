// Small helpers every other module uses: optional values, table rows and the
// listing of a table in some order.
module Common {

  datatype Option<+T> = None | Some(value: T)

  function OrElse<T>(o: Option<T>, default: T): T {
    if o.Some? then o.value else default
  }

  /** A primary key. */
  datatype Pk = Pk(n: int)

  /** One row of a table: its primary key and the rest of its columns. */
  datatype Row<+T> = Row(id: Pk, value: T)

  /** rows holds every row of the table m exactly once, in some order. */
  ghost predicate Lists<T(!new)>(rows: seq<Row<T>>, m: map<Pk, T>) {
    && (forall i, j :: 0 <= i < j < |rows| ==> rows[i].id != rows[j].id)
    && (forall i :: 0 <= i < |rows| ==> rows[i].id in m && m[rows[i].id] == rows[i].value)
    && (forall id :: id in m ==> Row(id, m[id]) in rows)
  }

  method ListRows<T(!new)>(m: map<Pk, T>) returns (rows: seq<Row<T>>)
    ensures Lists(rows, m)
  {
    rows := [];
    var todo := m.Keys;
    while todo != {}
      invariant todo <= m.Keys
      invariant forall i, j :: 0 <= i < j < |rows| ==> rows[i].id != rows[j].id
      invariant forall i :: 0 <= i < |rows| ==> rows[i].id in m && rows[i].id !in todo && m[rows[i].id] == rows[i].value
      invariant forall id :: id in m && id !in todo ==> Row(id, m[id]) in rows
      decreases todo
    {
      var id :| id in todo;
      ghost var before := rows;
      rows := rows + [Row(id, m[id])];
      todo := todo - {id};
      assert rows[|before|] == Row(id, m[id]);
      forall k | k in m && k !in todo
        ensures Row(k, m[k]) in rows
      {
        if k != id {
          assert Row(k, m[k]) in before;
        }
      }
    }
  }

  /** Sets in one-to-one correspondence have the same size. */
  lemma {:induction false} SameSize<A(!new), B(!new)>(s: set<A>, image: set<B>, to: map<A, B>, back: map<B, A>)
    requires forall a :: a in s ==> a in to && to[a] in image && to[a] in back && back[to[a]] == a
    requires forall b :: b in image ==> b in back && back[b] in s && to[back[b]] == b
    ensures |s| == |image|
    decreases s
  {
    assert image == set b | b in image && back[b] in s;
    if s != {} {
      var a :| a in s;
      SameSize(s - {a}, image - {to[a]}, to, back);
    }
  }

  lemma {:induction false} SubsetSize<T>(a: set<T>, b: set<T>)
    requires a <= b
    ensures |a| <= |b|
  {
    if a != {} {
      var x :| x in a;
      SubsetSize(a - {x}, b - {x});
    }
  }

  lemma MergeThenWrite<K(!new), V(!new)>(a: map<K, V>, b: map<K, V>, k: K, v: V)
    ensures a + b[k := v] == (a + b)[k := v]
    ensures b[k := v].Keys == b.Keys + {k}
  {
  }

  /** Every entry of b is an entry of a. */
  ghost predicate Within<K(!new), V(!new)>(b: map<K, V>, a: map<K, V>) {
    forall k :: k in b ==> k in a && a[k] == b[k]
  }

  lemma MergeSubmap<K(!new), V(!new)>(a: map<K, V>, b: map<K, V>)
    requires Within(b, a)
    ensures a + b == a
  {
  }
}
