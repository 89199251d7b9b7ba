/**
 * What a bulk insert does to a table keyed by a primary key: rows are added
 * one after the other, and the insert is refused when a key is already in the
 * table or is repeated among the rows.
 */
module Tables {

  /** The keys of `rows`, as a set. */
  function RowKeys<K, V>(rows: seq<(K, V)>): set<K> {
    set i | 0 <= i < |rows| :: rows[i].0
  }

  /** No two rows share a key. */
  predicate KeysDistinct<K(==), V>(rows: seq<(K, V)>) {
    forall i, j :: 0 <= i < j < |rows| ==> rows[i].0 != rows[j].0
  }

  /** No row's key is already in the table. */
  predicate KeysAbsent<K, V>(table: map<K, V>, rows: seq<(K, V)>) {
    forall i :: 0 <= i < |rows| ==> rows[i].0 !in table
  }

  /** The primary-key constraint holds for inserting `rows` into `table`. */
  predicate CanInsert<K(==), V>(table: map<K, V>, rows: seq<(K, V)>) {
    KeysAbsent(table, rows) && KeysDistinct(rows)
  }

  /** The table after inserting `rows` in order. */
  function BulkInsert<K, V>(table: map<K, V>, rows: seq<(K, V)>): map<K, V>
    decreases |rows|
  {
    if rows == [] then table
    else
      var last := rows[|rows| - 1];
      BulkInsert(table, rows[..|rows| - 1])[last.0 := last.1]
  }

  /** The inserted table has exactly the old keys and the rows' keys. */
  lemma {:induction false} BulkInsertKeys<K, V>(table: map<K, V>, rows: seq<(K, V)>)
    ensures BulkInsert(table, rows).Keys == table.Keys + RowKeys(rows)
    decreases |rows|
  {
    if rows != [] {
      var init := rows[..|rows| - 1];
      BulkInsertKeys(table, init);
      assert RowKeys(rows) == RowKeys(init) + {rows[|rows| - 1].0} by {
        forall k | k in RowKeys(rows) ensures k in RowKeys(init) + {rows[|rows| - 1].0} {
          var i :| 0 <= i < |rows| && rows[i].0 == k;
          if i < |rows| - 1 { assert init[i] == rows[i]; }
        }
        forall k | k in RowKeys(init) ensures k in RowKeys(rows) {
          var i :| 0 <= i < |init| && init[i].0 == k;
          assert rows[i] == init[i];
        }
      }
    }
  }

  /** A key that no row carries keeps its old value. */
  lemma {:induction false} BulkInsertKeepsOthers<K, V>(table: map<K, V>, rows: seq<(K, V)>, k: K)
    requires k in table
    requires k !in RowKeys(rows)
    ensures k in BulkInsert(table, rows) && BulkInsert(table, rows)[k] == table[k]
    decreases |rows|
  {
    if rows != [] {
      var init := rows[..|rows| - 1];
      assert k != rows[|rows| - 1].0;
      assert RowKeys(init) <= RowKeys(rows) by {
        forall k' | k' in RowKeys(init) ensures k' in RowKeys(rows) {
          var i :| 0 <= i < |init| && init[i].0 == k';
          assert rows[i] == init[i];
        }
      }
      BulkInsertKeepsOthers(table, init, k);
    }
  }

  /** When keys are distinct, every row is stored under its key. */
  lemma {:induction false} BulkInsertStoresRows<K, V>(table: map<K, V>, rows: seq<(K, V)>, i: nat)
    requires KeysDistinct(rows)
    requires i < |rows|
    ensures rows[i].0 in BulkInsert(table, rows) && BulkInsert(table, rows)[rows[i].0] == rows[i].1
    decreases |rows|
  {
    var init := rows[..|rows| - 1];
    if i < |rows| - 1 {
      assert init[i] == rows[i];
      assert KeysDistinct(init) by {
        forall a, b | 0 <= a < b < |init| ensures init[a].0 != init[b].0 {
          assert init[a] == rows[a] && init[b] == rows[b];
        }
      }
      BulkInsertStoresRows(table, init, i);
    }
  }

  /** Appending a row keeps keys distinct exactly when its key is new. */
  lemma KeysDistinctSnoc<K, V>(rows: seq<(K, V)>, row: (K, V))
    ensures KeysDistinct(rows + [row]) <==> KeysDistinct(rows) && row.0 !in RowKeys(rows)
  {
    var r := rows + [row];
    if KeysDistinct(r) {
      assert KeysDistinct(rows) by {
        forall a, b | 0 <= a < b < |rows| ensures rows[a].0 != rows[b].0 {
          assert r[a] == rows[a] && r[b] == rows[b];
        }
      }
      forall k | 0 <= k < |rows| ensures rows[k].0 != row.0 {
        assert r[k] == rows[k] && r[|r| - 1] == row;
      }
    }
    if KeysDistinct(rows) && row.0 !in RowKeys(rows) {
      forall a, b | 0 <= a < b < |r| ensures r[a].0 != r[b].0 {
        assert r[a] == rows[a];
        if b < |rows| { assert r[b] == rows[b]; }
        else { assert r[a].0 in RowKeys(rows); }
      }
    }
  }

  /** Inserting one more row of a prefix. */
  lemma BulkInsertSnoc<K, V>(table: map<K, V>, rows: seq<(K, V)>, k: nat)
    requires k < |rows|
    ensures BulkInsert(table, rows[..k + 1]) == BulkInsert(table, rows[..k])[rows[k].0 := rows[k].1]
  {
    assert rows[..k + 1][..k] == rows[..k];
  }

  /** A row whose key the prefix's insert does not hold may follow the prefix. */
  lemma CanInsertSnoc<K, V>(table: map<K, V>, rows: seq<(K, V)>, k: nat)
    requires k < |rows|
    requires CanInsert(table, rows[..k])
    requires rows[k].0 !in BulkInsert(table, rows[..k])
    ensures CanInsert(table, rows[..k + 1])
  {
    BulkInsertKeys(table, rows[..k]);
    KeysDistinctSnoc(rows[..k], rows[k]);
    assert rows[..k + 1] == rows[..k] + [rows[k]];
  }

  /**
   * A row whose key the prefix's insert already holds breaks the key
   * constraint: the key is in the table or carried by an earlier row.
   */
  lemma KeyClash<K, V>(table: map<K, V>, rows: seq<(K, V)>, k: nat)
    requires k < |rows|
    requires rows[k].0 in BulkInsert(table, rows[..k])
    ensures !CanInsert(table, rows)
    ensures rows[k].0 in table || exists i :: 0 <= i < k && rows[i].0 == rows[k].0
  {
    BulkInsertKeys(table, rows[..k]);
    if rows[k].0 !in table {
      var i :| 0 <= i < k && rows[..k][i].0 == rows[k].0;
      assert rows[i].0 == rows[k].0;
    }
  }
}
