/** Repository tables: rows keyed by a generated id, and the derived queries
    (`findByX`, `existsByX`, `deleteByX`) the services run against them. */
module Tables {

  datatype TableRep<V> = TableRep(rows: map<nat, V>, next: nat)

  /** A table whose ids in use all lie below `next`, the id it generates next. */
  type Table<V> = t: TableRep<V> | forall id :: id in t.rows ==> id < t.next
    witness TableRep(map[], 0)

  function Empty<V>(): (t: Table<V>)
    ensures t.rows == map[]
  {
    TableRep(map[], 0)
  }

  /** `save` of a new entity: it is stored under a fresh id, which is `t.next`. */
  function Insert<V>(t: Table<V>, v: V): (r: Table<V>)
    ensures t.next !in t.rows
    ensures r.rows == t.rows[t.next := v] && r.next == t.next + 1
  {
    TableRep(t.rows[t.next := v], t.next + 1)
  }

  /** `save` of an entity already stored under `id`. */
  function Put<V>(t: Table<V>, id: nat, v: V): (r: Table<V>)
    requires id in t.rows
    ensures r.rows == t.rows[id := v] && r.next == t.next
  {
    TableRep(t.rows[id := v], t.next)
  }

  /** `delete` of the rows whose ids are listed; other rows are untouched. */
  function Without<V>(t: Table<V>, ids: seq<nat>): (r: Table<V>)
    ensures r.next == t.next
    ensures forall id :: id in r.rows <==> id in t.rows && id !in ids
    ensures forall id :: id in r.rows ==> r.rows[id] == t.rows[id]
  {
    TableRep(t.rows - (set id | id in ids), t.next)
  }

  /** The ids below `n` of the rows that satisfy `p`, in ascending order. */
  function SelectBelow<V>(rows: map<nat, V>, p: V -> bool, n: nat): (ids: seq<nat>)
    ensures forall k :: 0 <= k < |ids| ==> ids[k] < n && ids[k] in rows && p(rows[ids[k]])
    ensures forall id :: id < n && id in rows && p(rows[id]) ==> id in ids
    ensures forall j, k :: 0 <= j < k < |ids| ==> ids[j] < ids[k]
    ensures ids == [] <==> forall id :: id < n && id in rows ==> !p(rows[id])
  {
    if n == 0 then []
    else
      var prefix := SelectBelow(rows, p, n - 1);
      if n - 1 in rows && p(rows[n - 1]) then prefix + [n - 1] else prefix
  }

  /** A `findByX` query returning a list: the ids of exactly the rows that
      satisfy `p`, each once, in ascending id order. */
  function Select<V>(t: Table<V>, p: V -> bool): (ids: seq<nat>)
    ensures forall id :: id in ids <==> id in t.rows && p(t.rows[id])
    ensures forall j, k :: 0 <= j < k < |ids| ==> ids[j] < ids[k]
    ensures ids == [] <==> forall id :: id in t.rows ==> !p(t.rows[id])
  {
    SelectBelow(t.rows, p, t.next)
  }

  /** Two ascending sequences of ids with the same elements are equal. */
  lemma {:induction false} AscendingUnique(a: seq<nat>, b: seq<nat>)
    requires forall j, k :: 0 <= j < k < |a| ==> a[j] < a[k]
    requires forall j, k :: 0 <= j < k < |b| ==> b[j] < b[k]
    requires forall x :: x in a <==> x in b
    ensures a == b
    decreases |a|
  {
    if |a| > 0 {
      assert a[0] in b;
    }
    if |b| > 0 {
      assert b[0] in a;
    }
    if |a| > 0 && |b| > 0 {
      var k :| 0 <= k < |b| && b[k] == a[0];
      var m :| 0 <= m < |a| && a[m] == b[0];
      assert forall i :: 0 < i < |a| ==> a[0] < a[i];
      assert forall i :: 0 < i < |b| ==> b[0] < b[i];
      assert a[0] == b[0];
      forall x ensures x in a[1..] <==> x in b[1..] {
        if x in a[1..] {
          var i :| 1 <= i < |a| && a[i] == x;
          assert x in a && x in b;
          var j :| 0 <= j < |b| && b[j] == x;
          assert j != 0 && b[1..][j - 1] == x;
        }
        if x in b[1..] {
          var j :| 1 <= j < |b| && b[j] == x;
          assert x in b && x in a;
          var i :| 0 <= i < |a| && a[i] == x;
          assert i != 0 && a[1..][i - 1] == x;
        }
      }
      AscendingUnique(a[1..], b[1..]);
      assert a == [a[0]] + a[1..] && b == [b[0]] + b[1..];
    }
  }

  /** Queries that hold of the same rows list the same ids. */
  lemma SelectAgree<V, W>(t: Table<V>, p: V -> bool, t': Table<W>, p': W -> bool)
    requires forall id :: (id in t.rows && p(t.rows[id])) <==> (id in t'.rows && p'(t'.rows[id]))
    ensures Select(t, p) == Select(t', p')
  {
    AscendingUnique(Select(t, p), Select(t', p'));
  }

  /** A new row that satisfies the query is listed last. */
  lemma SelectInsert<V>(t: Table<V>, v: V, p: V -> bool)
    requires p(v)
    ensures Select(Insert(t, v), p) == Select(t, p) + [t.next]
  {
    var before := Select(t, p);
    var after := before + [t.next];
    forall j, k | 0 <= j < k < |after| ensures after[j] < after[k] {
      if k == |after| - 1 {
        assert after[j] in before;
      }
    }
    AscendingUnique(Select(Insert(t, v), p), after);
  }

  /** An `existsByX` query. */
  predicate Exists<V>(t: Table<V>, p: V -> bool)
  {
    exists id :: id in t.rows && p(t.rows[id])
  }

  /** The outcome of a `findByX` query returning an `Optional`: no row, one
      row, or several rows (which Spring Data reports as an exception). */
  datatype Lookup = Missing | Found(id: nat) | Ambiguous

  function FindOne<V>(t: Table<V>, p: V -> bool): (r: Lookup)
    ensures r.Missing? <==> forall id :: id in t.rows ==> !p(t.rows[id])
    ensures r.Found? ==> r.id in t.rows && p(t.rows[r.id])
    ensures r.Found? ==> forall id :: id in t.rows && p(t.rows[id]) ==> id == r.id
    ensures r.Ambiguous? <==>
      exists i, j :: i in t.rows && j in t.rows && i != j && p(t.rows[i]) && p(t.rows[j])
  {
    var ids := Select(t, p);
    if |ids| == 0 then Missing
    else if |ids| == 1 then
      assert forall id :: id in t.rows && p(t.rows[id]) ==> id == ids[0] by {
        forall id | id in t.rows && p(t.rows[id]) ensures id == ids[0] {
          assert id in ids;
        }
      }
      Found(ids[0])
    else
      assert ids[0] != ids[1];
      Ambiguous
  }
}
