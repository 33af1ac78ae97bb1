/** The change events that flow through the engine, and the net-effect accounting
    that says when a delta sequence accounts for a change of a row list. */
module Deltas {

  /** One change event: `on_add(row)`, `on_remove(row)` or `on_update(old, new)`. */
  datatype Delta<T> = Add(row: T) | Remove(row: T) | Update(oldRow: T, newRow: T)

  /** Rows a delta sequence brings in: each Add row and each Update's new row, in order. */
  function AddedRows<T>(ds: seq<Delta<T>>): (r: seq<T>)
    ensures |r| <= |ds|
  {
    if ds == [] then []
    else
      var rest := AddedRows(ds[1..]);
      match ds[0]
      case Add(x) => [x] + rest
      case Remove(_) => rest
      case Update(_, y) => [y] + rest
  }

  /** Rows a delta sequence takes out: each Remove row and each Update's old row, in order. */
  function RemovedRows<T>(ds: seq<Delta<T>>): (r: seq<T>)
    ensures |r| <= |ds|
  {
    if ds == [] then []
    else
      var rest := RemovedRows(ds[1..]);
      match ds[0]
      case Add(_) => rest
      case Remove(x) => [x] + rest
      case Update(x, _) => [x] + rest
  }

  /** `ds` accounts for the change from the rows `before` to the rows `after`:
      before + added == after + removed, counted with multiplicity. Equivalently
      `after` is `before` with the added rows put in and the removed rows taken out. */
  ghost predicate Explains<T>(before: seq<T>, ds: seq<Delta<T>>, after: seq<T>)
  {
    multiset(before) + multiset(AddedRows(ds)) == multiset(after) + multiset(RemovedRows(ds))
  }

  /** Multisets with the same count everywhere are equal. */
  lemma MultisetExt<T>(m: multiset<T>, n: multiset<T>)
    requires forall x :: m[x] == n[x]
    ensures m == n
  {
  }

  lemma {:induction false} AddedRowsAppend<T>(a: seq<Delta<T>>, b: seq<Delta<T>>)
    ensures AddedRows(a + b) == AddedRows(a) + AddedRows(b)
  {
    if a == [] {
      assert a + b == b;
    } else {
      assert (a + b)[1..] == a[1..] + b;
      AddedRowsAppend(a[1..], b);
    }
  }

  lemma {:induction false} RemovedRowsAppend<T>(a: seq<Delta<T>>, b: seq<Delta<T>>)
    ensures RemovedRows(a + b) == RemovedRows(a) + RemovedRows(b)
  {
    if a == [] {
      assert a + b == b;
    } else {
      assert (a + b)[1..] == a[1..] + b;
      RemovedRowsAppend(a[1..], b);
    }
  }

  /** Net effects compose: the deltas of two consecutive changes, concatenated,
      account for the combined change. This is what lets a consumer replay a
      delta stream to reconstruct its upstream's state. */
  lemma ExplainsTrans<T>(a: seq<T>, ds1: seq<Delta<T>>, b: seq<T>, ds2: seq<Delta<T>>, c: seq<T>)
    requires Explains(a, ds1, b) && Explains(b, ds2, c)
    ensures Explains(a, ds1 + ds2, c)
  {
    AddedRowsAppend(ds1, ds2);
    RemovedRowsAppend(ds1, ds2);
    var a1, r1 := multiset(AddedRows(ds1)), multiset(RemovedRows(ds1));
    var a2, r2 := multiset(AddedRows(ds2)), multiset(RemovedRows(ds2));
    calc {
      multiset(a) + multiset(AddedRows(ds1 + ds2));
      multiset(a) + a1 + a2;
      multiset(b) + r1 + a2;
      (multiset(b) + a2) + r1;
      multiset(c) + r2 + r1;
      multiset(c) + multiset(RemovedRows(ds1 + ds2));
    }
  }
}
