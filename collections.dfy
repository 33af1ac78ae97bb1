/** `Collection`: a publisher over a mutable list of rows, the root mutation point. */
module Collections {
  import opened Deltas
  import opened Errors
  import opened PyLists
  import opened PubSub

  /** What a successful `add` / `remove` / `update` does to the stored rows. */
  function Apply<T(==)>(s: seq<T>, d: Delta<T>): seq<T>
  {
    match d
    case Add(x) => s + [x]
    case Remove(x) => RemoveFirst(s, x)
    case Update(x, y) => ReplaceFirst(s, x, y)
  }

  /** The rows obtained by replaying the deltas `ds`, in order, on `s`. */
  function ApplyAll<T(==)>(s: seq<T>, ds: seq<Delta<T>>): seq<T>
    decreases |ds|
  {
    if ds == [] then s else Apply(ApplyAll(s, ds[..|ds| - 1]), ds[|ds| - 1])
  }

  lemma ApplyAllSnoc<T>(s: seq<T>, ds: seq<Delta<T>>, d: Delta<T>)
    ensures ApplyAll(s, ds + [d]) == Apply(ApplyAll(s, ds), d)
  {
    assert (ds + [d])[..|ds + [d]| - 1] == ds;
  }

  /** A delta the collection accepts: the row to remove or overwrite is stored. */
  predicate Applicable<T(==)>(s: seq<T>, d: Delta<T>)
  {
    match d
    case Add(_) => true
    case Remove(x) => x in s
    case Update(x, _) => x in s
  }

  /** Each accepted delta accounts exactly for the change it makes to the stored rows,
      so a subscriber that applies the delta's net effect stays in step. */
  lemma {:induction false} ApplyExplains<T>(s: seq<T>, d: Delta<T>)
    requires Applicable(s, d)
    ensures Explains(s, [d], Apply(s, d))
  {
    match d
    case Add(x) =>
      assert AddedRows([d]) == [x] && RemovedRows([d]) == [];
    case Remove(x) =>
      assert AddedRows([d]) == [] && RemovedRows([d]) == [x];
      assert multiset(RemoveFirst(s, x)) + multiset{x} == multiset(s);
    case Update(x, y) =>
      assert AddedRows([d]) == [y] && RemovedRows([d]) == [x];
      assert multiset(ReplaceFirst(s, x, y)) + multiset{x} == multiset(s) + multiset{y};
  }

  /** A row list that publishes one delta after each successful mutation. */
  class Collection<T(==)> {
    var data: seq<T>
    const out: Observable<T>
    /** The rows the collection was created with. */
    ghost const initial: seq<T>

    /** Replaying everything the collection has published on its initial rows gives its rows. */
    ghost predicate Valid()
      reads this, out`emitted
    {
      data == ApplyAll(initial, out.emitted)
    }

    constructor (rows: seq<T>)
      ensures data == rows && initial == rows && Valid()
      ensures fresh(out) && out.observers == [] && out.emitted == [] && out.delivered == []
    {
      data := rows;
      initial := rows;
      out := new Observable();
    }

    /** `add`: appends `x`, then publishes `Add(x)`. */
    method Add(x: T)
      requires Valid()
      modifies this`data, out`emitted, out`delivered
      ensures Valid()
      ensures data == old(data) + [x]
      ensures out.State() == Published(old(out.State()), Delta.Add(x))
    {
      ApplyAllSnoc(initial, out.emitted, Delta.Add(x));
      data := data + [x];
      out.PublishAdd(x);
    }

    /** `remove`: drops the first row equal to `x`, then publishes `Remove(x)`;
        with no such row it fails before anything changes or is published. */
    method Remove(x: T) returns (r: Outcome)
      requires Valid()
      modifies this`data, out`emitted, out`delivered
      ensures Valid()
      ensures r == (if x in old(data) then Pass else Fail(NotFound))
      ensures r.Pass? ==> data == RemoveFirst(old(data), x)
      ensures r.Pass? ==> out.State() == Published(old(out.State()), Delta.Remove(x))
      ensures r.Fail? ==> data == old(data) && out.State() == old(out.State())
    {
      if x !in data {
        return Fail(NotFound);
      }
      ApplyAllSnoc(initial, out.emitted, Delta.Remove(x));
      data := RemoveFirst(data, x);
      out.PublishRemove(x);
      r := Pass;
    }

    /** `update`: overwrites the first row equal to `x` with `y` at the same position,
        then publishes `Update(x, y)`; with no such row it fails with nothing changed. */
    method Update(x: T, y: T) returns (r: Outcome)
      requires Valid()
      modifies this`data, out`emitted, out`delivered
      ensures Valid()
      ensures r == (if x in old(data) then Pass else Fail(NotFound))
      ensures r.Pass? ==> data == ReplaceFirst(old(data), x, y)
      ensures r.Pass? ==> out.State() == Published(old(out.State()), Delta.Update(x, y))
      ensures r.Fail? ==> data == old(data) && out.State() == old(out.State())
    {
      if x !in data {
        return Fail(NotFound);
      }
      ApplyAllSnoc(initial, out.emitted, Delta.Update(x, y));
      data := ReplaceFirst(data, x, y);
      out.PublishUpdate(x, y);
      r := Pass;
    }

    /** `pull`: the stored rows in storage order, which are the initial rows with every
        published delta replayed on them. */
    function Pull(): (r: seq<T>)
      reads this, out`emitted
      requires Valid()
      ensures r == ApplyAll(initial, out.emitted)
    {
      data
    }
  }
}
