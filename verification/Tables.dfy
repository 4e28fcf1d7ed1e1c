/** A target table and the four SQL statements the loaders send to it, each atomic and each
    with the rowcount the driver reports. A table is a map from primary key to row, so the
    unique constraint behind ON CONFLICT is built in. */
module Tables {
  import opened Wrappers

  type Value = Option<string>  // a column value; None is SQL NULL

  type Key = seq<Value>  // the primary key values, in key column order

  /** A stored or incoming row: its key and its values in the columns outside the key. */
  datatype Row = Row(key: Key, data: map<string, Value>)

  type Table = map<Key, Row>

  /** The column list of a load, and which of the columns form the key. */
  datatype Layout = Layout(columns: seq<string>, pk: seq<string>) {
    function NonPk(): (cs: seq<string>)
      ensures forall c :: c in cs <==> c in columns && c !in pk
    {
      Without(columns, pk)
    }

    ghost predicate Fits(r: Row) {
      |r.key| == |pk| && forall c :: c in r.data <==> c in NonPk()
    }

    ghost predicate FitAll(rows: seq<Row>) {
      forall i :: 0 <= i < |rows| ==> Fits(rows[i])
    }

    /** Every stored row has all the columns and sits under its own key. */
    ghost predicate Keyed(t: Table) {
      forall k :: k in t ==> Fits(t[k]) && t[k].key == k
    }

    /** The SET clause: each column outside the key takes v's value. */
    function Assign(t: Row, v: Row): Row {
      t.(data := map c | c in t.data :: if c in NonPk() && c in v.data then v.data[c] else t.data[c])
    }

    /** The WHERE clause's OR of IS DISTINCT FROM tests over the columns outside the key. */
    predicate Distinct(t: Row, v: Row) {
      exists c :: c in NonPk() && c in t.data && c in v.data && t.data[c] != v.data[c]
    }
  }

  function KeySet(rows: seq<Row>): set<Key> {
    if rows == [] then {} else {rows[0].key} + KeySet(rows[1..])
  }

  ghost predicate DistinctKeys(rows: seq<Row>) {
    forall i, j :: 0 <= i < j < |rows| ==> rows[i].key != rows[j].key
  }

  function Without(cs: seq<string>, drop: seq<string>): (r: seq<string>)
    ensures forall c :: c in r <==> c in cs && c !in drop
  {
    if cs == [] then [] else (if cs[0] in drop then [] else [cs[0]]) + Without(cs[1..], drop)
  }

  /** Rows sharing a key and not DISTINCT are the same row, and the SET clause produces the
      incoming row: this is where key and remaining columns have to cover the table. */
  lemma AssignMeaning(l: Layout, t: Row, v: Row)
    requires l.Fits(t) && l.Fits(v) && t.key == v.key
    ensures l.Assign(t, v) == v
    ensures l.Distinct(t, v) <==> t != v
  {
    assert l.Assign(t, v).data == v.data;
    if t != v {
      assert t.data != v.data;
      var c :| c in t.data && t.data[c] != v.data[c];
      assert c in l.NonPk();
    }
  }

  // ---------- INSERT ... ON CONFLICT (pk) DO NOTHING ----------

  function InsertDoNothing(t: Table, rows: seq<Row>): Table
    decreases |rows|
  {
    if rows == [] then t
    else
      var k := rows[0].key;
      InsertDoNothing(if k in t then t else t[k := rows[0]], rows[1..])
  }

  // ---------- the meaning of an upsert: later rows win, key by key ----------

  function Override(t: Table, rows: seq<Row>): Table
    decreases |rows|
  {
    if rows == [] then t
    else Override(t[rows[0].key := rows[0]], rows[1..])
  }

  // ---------- INSERT ... SELECT FROM staging ON CONFLICT (pk) DO UPDATE SET c = EXCLUDED.c ----------

  /** PostgreSQL refuses to touch one row twice in a statement, so a repeated key raises. */
  function InsertDoUpdate(l: Layout, t: Table, rows: seq<Row>, touched: set<Key>): Result<Table>
    decreases |rows|
  {
    if rows == [] then Ok(t)
    else
      var k := rows[0].key;
      if k in touched then Err("ON CONFLICT DO UPDATE command cannot affect row a second time")
      else InsertDoUpdate(l, t[k := if k in t then l.Assign(t[k], rows[0]) else rows[0]], rows[1..], touched + {k})
  }

  // ---------- UPDATE t SET .. FROM (VALUES ..) v WHERE key match AND distinct ----------

  /** The rows of the VALUES list that would change the stored row under k. */
  predicate Hits(l: Layout, t: Table, rows: seq<Row>, k: Key, i: int) {
    0 <= i < |rows| && k in t && rows[i].key == k && l.Distinct(t[k], rows[i])
  }

  predicate Hit(l: Layout, t: Table, rows: seq<Row>, k: Key) {
    exists i :: 0 <= i < |rows| && Hits(l, t, rows, k, i)
  }

  function HitKeys(l: Layout, t: Table, rows: seq<Row>): set<Key> {
    set k | k in t.Keys && Hit(l, t, rows, k)
  }

  ghost predicate TakesHit(l: Layout, t: Table, rows: seq<Row>, k: Key, r: Row) {
    exists i :: Hits(l, t, rows, k, i) && r == l.Assign(t[k], rows[i])
  }

  /** t' is a possible result: each hit key takes one of its hits (which one is unspecified
      when several match), every other row stays. */
  ghost predicate UpdateFrom(l: Layout, t: Table, rows: seq<Row>, t': Table) {
    && t'.Keys == t.Keys
    && (forall k :: k in t && Hit(l, t, rows, k) ==> TakesHit(l, t, rows, k, t'[k]))
    && (forall k :: k in t && !Hit(l, t, rows, k) ==> t'[k] == t[k])
  }

  // ---------- pointwise reading of Override and InsertDoNothing ----------

  /** Where a key first and last occurs in a row list; -1 when it does not. */
  function FirstIndex(rows: seq<Row>, k: Key): (i: int)
    ensures -1 <= i < |rows|
    ensures i == -1 <==> k !in KeySet(rows)
    ensures i >= 0 ==> rows[i].key == k
    ensures forall j :: 0 <= j < i ==> rows[j].key != k
  {
    if rows == [] then -1
    else if rows[0].key == k then 0
    else
      var i := FirstIndex(rows[1..], k);
      assert forall j :: 0 < j < |rows| ==> rows[1..][j - 1] == rows[j];
      if i >= 0 then i + 1 else -1
  }

  function LastIndex(rows: seq<Row>, k: Key): (i: int)
    ensures -1 <= i < |rows|
    ensures i == -1 <==> k !in KeySet(rows)
    ensures i >= 0 ==> rows[i].key == k
    ensures forall j :: i < j < |rows| ==> rows[j].key != k
  {
    if rows == [] then -1
    else
      var i := LastIndex(rows[1..], k);
      assert forall j :: 0 < j < |rows| ==> rows[1..][j - 1] == rows[j];
      if i >= 0 then i + 1 else if rows[0].key == k then 0 else -1
  }

  lemma {:induction false} KeySetHas(rows: seq<Row>, i: int)
    requires 0 <= i < |rows|
    ensures rows[i].key in KeySet(rows)
  {
    if i > 0 { KeySetHas(rows[1..], i - 1); }
  }

  lemma DistinctCons(rows: seq<Row>)
    requires rows != []
    ensures DistinctKeys(rows) <==> rows[0].key !in KeySet(rows[1..]) && DistinctKeys(rows[1..])
  {
    var rest := rows[1..];
    assert forall i :: 0 < i < |rows| ==> rows[i] == rest[i - 1];
    if DistinctKeys(rows) {
      assert FirstIndex(rest, rows[0].key) == -1;
    } else if rows[0].key !in KeySet(rest) {
      forall i | 0 < i < |rows| ensures rows[i].key != rows[0].key {
        KeySetHas(rest, i - 1);
      }
    }
  }

  lemma {:induction false} KeySetConcat(p: seq<Row>, q: seq<Row>)
    ensures KeySet(p + q) == KeySet(p) + KeySet(q)
  {
    if p == [] {
      assert p + q == q;
    } else {
      assert (p + q)[1..] == p[1..] + q;
      KeySetConcat(p[1..], q);
    }
  }

  lemma {:induction false} OverrideKeys(t: Table, rows: seq<Row>)
    ensures Override(t, rows).Keys == t.Keys + KeySet(rows)
    decreases |rows|
  {
    if rows != [] { OverrideKeys(t[rows[0].key := rows[0]], rows[1..]); }
  }

  /** Override keeps untouched keys and stores the last row of every touched one. */
  lemma {:induction false} OverrideAt(t: Table, rows: seq<Row>, k: Key)
    requires k in t || k in KeySet(rows)
    ensures k in Override(t, rows)
    ensures Override(t, rows)[k] == if k in KeySet(rows) then rows[LastIndex(rows, k)] else t[k]
    decreases |rows|
  {
    if rows != [] { OverrideAt(t[rows[0].key := rows[0]], rows[1..], k); }
  }

  lemma {:induction false} InsertKeys(t: Table, rows: seq<Row>)
    ensures InsertDoNothing(t, rows).Keys == t.Keys + KeySet(rows)
    ensures |t| <= |InsertDoNothing(t, rows)| <= |t| + |rows|
    decreases |rows|
  {
    if rows != [] {
      InsertKeys(if rows[0].key in t then t else t[rows[0].key := rows[0]], rows[1..]);
    }
  }

  /** The insert keeps every stored row and takes the first row of a new key. */
  lemma {:induction false} InsertAt(t: Table, rows: seq<Row>, k: Key)
    requires k in t || k in KeySet(rows)
    ensures k in InsertDoNothing(t, rows)
    ensures InsertDoNothing(t, rows)[k] == if k in t then t[k] else rows[FirstIndex(rows, k)]
    decreases |rows|
  {
    if rows != [] {
      InsertAt(if rows[0].key in t then t else t[rows[0].key := rows[0]], rows[1..], k);
    }
  }

  /** When the rowcount of the insert is the number of rows sent, the whole batch was new and
      without repeats, so every row of it is now stored as sent. */
  lemma {:induction false} AllInserted(t: Table, rows: seq<Row>)
    requires |InsertDoNothing(t, rows)| == |t| + |rows|
    ensures DistinctKeys(rows)
    ensures KeySet(rows) !! t.Keys
    decreases |rows|
  {
    if rows != [] {
      var k0 := rows[0].key;
      InsertKeys(if k0 in t then t else t[k0 := rows[0]], rows[1..]);
      assert k0 !in t;
      AllInserted(t[k0 := rows[0]], rows[1..]);
      forall i, j | 0 <= i < j < |rows| ensures rows[i].key != rows[j].key {
        KeySetHas(rows[1..], j - 1);
        assert rows[j] == rows[1..][j - 1];
        if i > 0 { assert rows[i] == rows[1..][i - 1]; }
      }
    }
  }
}
