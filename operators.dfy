/** The stateless operators: `Filter`, `Mapper`, the adapter `CustomSubscriber`,
    and the `filter_on` / `map_on` helpers. Each translates one incoming delta into
    the deltas it re-publishes, and recomputes its snapshot from its upstream's. */
module Operators {
  import opened Deltas
  import opened Errors
  import opened PubSub
  import opened PyLists

  // ---------------------------------------------------------------- Filter

  /** The rows of `s` that satisfy `p`, in order: what `Filter.pull` yields. */
  function FilterRows<T>(p: T -> bool, s: seq<T>): (r: seq<T>)
    ensures |r| <= |s|
    ensures forall x | x in r :: x in s && p(x)
  {
    if s == [] then []
    else
      var rest := FilterRows(p, s[1..]);
      assert s == [s[0]] + s[1..];
      if p(s[0]) then [s[0]] + rest else rest
  }

  /** Filtering keeps every matching row as often as it occurs and drops every other row. */
  lemma {:induction false} FilterRowsCount<T>(p: T -> bool, s: seq<T>, x: T)
    ensures multiset(FilterRows(p, s))[x] == if p(x) then multiset(s)[x] else 0
  {
    if s != [] {
      FilterRowsCount(p, s[1..], x);
      assert s == [s[0]] + s[1..];
    }
  }

  /** Filtering keeps order: it distributes over concatenation. */
  lemma {:induction false} FilterRowsAppend<T>(p: T -> bool, a: seq<T>, b: seq<T>)
    ensures FilterRows(p, a + b) == FilterRows(p, a) + FilterRows(p, b)
  {
    if a == [] {
      assert a + b == b;
    } else {
      assert (a + b)[1..] == a[1..] + b;
      FilterRowsAppend(p, a[1..], b);
    }
  }

  /** The deltas `Filter.on_add` / `on_remove` / `on_update` re-publish for `d`. */
  function FilterEmits<T>(p: T -> bool, d: Delta<T>): (r: seq<Delta<T>>)
    ensures |r| <= 2
    ensures forall e | e in r :: !e.Update? && p(e.row)
    ensures !d.Update? ==> (r == [d] <==> p(d.row)) && (r == [] <==> !p(d.row))
    ensures d.Update? ==> (Remove(d.oldRow) in r <==> p(d.oldRow)) && (Add(d.newRow) in r <==> p(d.newRow))
    ensures d.Update? && |r| == 2 ==> r == [Remove(d.oldRow), Add(d.newRow)]
    ensures d.Update? ==> |r| == (if p(d.oldRow) then 1 else 0) + (if p(d.newRow) then 1 else 0)
  {
    match d
    case Add(x) => if p(x) then [d] else []
    case Remove(x) => if p(x) then [d] else []
    case Update(x, y) => (if p(x) then [Remove(x)] else []) + (if p(y) then [Add(y)] else [])
  }

  /** The deltas a filter re-publishes for a whole delta stream. */
  function FilterAll<T>(p: T -> bool, ds: seq<Delta<T>>): seq<Delta<T>>
  {
    if ds == [] then [] else FilterEmits(p, ds[0]) + FilterAll(p, ds[1..])
  }

  lemma {:induction false} FilterAllRows<T>(p: T -> bool, ds: seq<Delta<T>>)
    ensures AddedRows(FilterAll(p, ds)) == FilterRows(p, AddedRows(ds))
    ensures RemovedRows(FilterAll(p, ds)) == FilterRows(p, RemovedRows(ds))
  {
    if ds != [] {
      var e, rest := FilterEmits(p, ds[0]), FilterAll(p, ds[1..]);
      FilterAllRows(p, ds[1..]);
      AddedRowsAppend(e, rest);
      RemovedRowsAppend(e, rest);
      AddedRowsAppend([ds[0]], ds[1..]);
      RemovedRowsAppend([ds[0]], ds[1..]);
      assert [ds[0]] + ds[1..] == ds;
      FilterRowsAppend(p, AddedRows([ds[0]]), AddedRows(ds[1..]));
      FilterRowsAppend(p, RemovedRows([ds[0]]), RemovedRows(ds[1..]));
      match ds[0]
      case Add(x) =>
      case Remove(x) =>
      case Update(x, y) =>
        AddedRowsAppend(if p(x) then [Remove(x)] else [], if p(y) then [Add(y)] else []);
        RemovedRowsAppend(if p(x) then [Remove(x)] else [], if p(y) then [Add(y)] else []);
    }
  }

  /** Incremental correctness of `Filter`: whenever a delta stream accounts for a change of
      the upstream's rows, the filter's re-published deltas account for the matching change
      of its own snapshot. An `Update` whose both sides match is re-published as
      `Remove(old)` then `Add(new)`, which has the same net effect. */
  lemma FilterKeepsInStep<T>(p: T -> bool, before: seq<T>, ds: seq<Delta<T>>, after: seq<T>)
    requires Explains(before, ds, after)
    ensures Explains(FilterRows(p, before), FilterAll(p, ds), FilterRows(p, after))
  {
    FilterAllRows(p, ds);
    FilterBalance(p, before, AddedRows(ds), after, RemovedRows(ds));
  }

  /** Filtering preserves a balance of row multisets. */
  lemma FilterBalance<T>(p: T -> bool, a: seq<T>, b: seq<T>, c: seq<T>, d: seq<T>)
    requires multiset(a) + multiset(b) == multiset(c) + multiset(d)
    ensures multiset(FilterRows(p, a)) + multiset(FilterRows(p, b))
         == multiset(FilterRows(p, c)) + multiset(FilterRows(p, d))
  {
    var lhs := multiset(FilterRows(p, a)) + multiset(FilterRows(p, b));
    var rhs := multiset(FilterRows(p, c)) + multiset(FilterRows(p, d));
    forall x ensures lhs[x] == rhs[x] {
      FilterRowsCount(p, a, x);
      FilterRowsCount(p, b, x);
      FilterRowsCount(p, c, x);
      FilterRowsCount(p, d, x);
      assert (multiset(a) + multiset(b))[x] == (multiset(c) + multiset(d))[x];
    }
    MultisetExt(lhs, rhs);
  }


  /** `Filter`: re-publishes the deltas whose rows satisfy `condition`. */
  class Filter<T> {
    const condition: T -> bool
    const out: Observable<T>
    const sub: Subscriber<T>

    constructor (condition: T -> bool)
      ensures this.condition == condition
      ensures fresh(out) && out.observers == [] && out.emitted == [] && out.delivered == []
      ensures fresh(sub) && sub.receivingFrom == null
    {
      this.condition := condition;
      out := new Observable();
      sub := new Subscriber();
    }

    /** `on_add`: re-publishes `Add(x)` exactly when `x` matches. */
    method OnAdd(x: T)
      modifies out`emitted, out`delivered
      ensures out.State() == PublishedAll(old(out.State()), FilterEmits(condition, Add(x)))
    {
      if condition(x) {
        out.PublishAdd(x);
        assert [Add(x)] == [] + [Add(x)];
        PublishedAllSnoc(old(out.State()), [], Add(x));
      }
    }

    /** `on_remove`: re-publishes `Remove(x)` exactly when `x` matches. */
    method OnRemove(x: T)
      modifies out`emitted, out`delivered
      ensures out.State() == PublishedAll(old(out.State()), FilterEmits(condition, Remove(x)))
    {
      if condition(x) {
        out.PublishRemove(x);
        assert [Remove(x)] == [] + [Remove(x)];
        PublishedAllSnoc(old(out.State()), [], Remove(x));
      }
    }

    /** `on_update`: `Remove(x)` when `x` matched, then `Add(y)` when `y` matches; never `Update`. */
    method OnUpdate(x: T, y: T)
      modifies out`emitted, out`delivered
      ensures out.State() == PublishedAll(old(out.State()), FilterEmits(condition, Update(x, y)))
    {
      ghost var s0 := old(out.State());
      ghost var first: seq<Delta<T>> := [];
      if condition(x) {
        out.PublishRemove(x);
        PublishedAllSnoc(s0, [], Remove(x));
        assert [] + [Remove(x)] == [Remove(x)];
        first := [Remove(x)];
      }
      assert out.State() == PublishedAll(s0, first);
      if condition(y) {
        out.PublishAdd(y);
        PublishedAllSnoc(s0, first, Add(y));
        assert out.State() == PublishedAll(s0, first + [Add(y)]);
        assert first + [Add(y)] == FilterEmits(condition, Update(x, y));
      } else {
        assert first == FilterEmits(condition, Update(x, y));
      }
    }

    /** `pull`: the upstream's current rows that match, recomputed on every call. */
    function Pull(upstream: seq<T>): (r: seq<T>)
      ensures r == FilterRows(condition, upstream)
      ensures |r| <= |upstream|
      ensures forall x | x in r :: x in upstream && condition(x)
    {
      FilterRows(condition, upstream)
    }
  }

  /** `filter_on`: builds a `Filter` for `p` and subscribes it as `up`'s last observer. */
  method FilterOn<T>(up: Observable<T>, p: T -> bool) returns (f: Filter<T>)
    modifies up`observers
    ensures fresh(f) && fresh(f.out) && fresh(f.sub)
    ensures f.condition == p
    ensures up.observers == old(up.observers) + [f.sub] && f.sub.receivingFrom == up
    ensures f.out.observers == [] && f.out.emitted == [] && f.out.delivered == []
  {
    f := new Filter(p);
    up.Subscribe(f.sub);
  }

  /** `map_on`, as written: it builds a `Filter`, not a `Mapper`, whose predicate is the
      transformer; Python then tests the truthiness (`truthy`) of the transformed row. */
  method MapOn<T, U>(up: Observable<T>, transformer: T -> U, truthy: U -> bool) returns (f: Filter<T>)
    modifies up`observers
    ensures fresh(f) && fresh(f.out) && fresh(f.sub)
    ensures forall x :: f.condition(x) == truthy(transformer(x))
    ensures up.observers == old(up.observers) + [f.sub] && f.sub.receivingFrom == up
    ensures f.out.observers == [] && f.out.emitted == [] && f.out.delivered == []
  {
    f := new Filter(x => truthy(transformer(x)));
    up.Subscribe(f.sub);
  }

  // ---------------------------------------------------------------- Mapper

  /** `[f(x) for x in s]`: what `Mapper.pull` yields. */
  function MapRows<T, U>(f: T -> U, s: seq<T>): (r: seq<U>)
    ensures |r| == |s|
    ensures forall i | 0 <= i < |s| :: r[i] == f(s[i])
  {
    if s == [] then [] else [f(s[0])] + MapRows(f, s[1..])
  }

  lemma MapRowsAppend<T, U>(f: T -> U, a: seq<T>, b: seq<T>)
    ensures MapRows(f, a + b) == MapRows(f, a) + MapRows(f, b)
  {
    assert forall i | 0 <= i < |a + b| :: MapRows(f, a + b)[i] == (MapRows(f, a) + MapRows(f, b))[i];
  }

  /** Taking one row out of a list takes its image out of the mapped list. */
  lemma MapRowsDrop<T, U>(f: T -> U, b: seq<T>, i: nat)
    requires i < |b|
    ensures multiset(MapRows(f, b)) == multiset(MapRows(f, b[..i] + b[i + 1..])) + multiset{f(b[i])}
  {
    SplitAt(b, i);
    MapRowsAppend(f, b[..i], [b[i]] + b[i + 1..]);
    MapRowsAppend(f, [b[i]], b[i + 1..]);
    MapRowsAppend(f, b[..i], b[i + 1..]);
  }

  /** Mapping respects permutations: equal row multisets map to equal row multisets. */
  lemma {:induction false} MapRowsPermutation<T, U>(f: T -> U, a: seq<T>, b: seq<T>)
    requires multiset(a) == multiset(b)
    ensures multiset(MapRows(f, a)) == multiset(MapRows(f, b))
    decreases |a|
  {
    if a == [] {
      assert |multiset(b)| == 0 && b == [];
    } else {
      var x := a[0];
      assert x in multiset(b);
      var i :| 0 <= i < |b| && b[i] == x;
      var b' := b[..i] + b[i + 1..];
      MultisetDrop(b, i);
      assert a == [x] + a[1..];
      assert multiset(a[1..]) == multiset(b');
      MapRowsPermutation(f, a[1..], b');
      MapRowsDrop(f, b, i);
      MapRowsAppend(f, [x], a[1..]);
      var ma, mb := multiset(MapRows(f, a[1..])), multiset(MapRows(f, b'));
      assert multiset(MapRows(f, a)) == multiset{f(x)} + ma;
      UnionSame(multiset(MapRows(f, a)), multiset(MapRows(f, b)), ma, mb, f(x));
    }
  }

  lemma UnionSame<U>(p: multiset<U>, q: multiset<U>, ma: multiset<U>, mb: multiset<U>, y: U)
    requires p == multiset{y} + ma && q == mb + multiset{y} && ma == mb
    ensures p == q
  {
  }

  lemma MultisetDrop<T>(b: seq<T>, i: nat)
    requires i < |b|
    ensures multiset(b[..i] + b[i + 1..]) == multiset(b) - multiset{b[i]}
  {
    assert b == b[..i] + [b[i]] + b[i + 1..];
  }

  /** The delta `Mapper.add` / `remove` / `update` re-publish: the same shape, rows transformed. */
  function MapDelta<T, U>(f: T -> U, d: Delta<T>): (r: Delta<U>)
    ensures r.Add? == d.Add? && r.Remove? == d.Remove? && r.Update? == d.Update?
    ensures !d.Update? ==> r.row == f(d.row)
    ensures d.Update? ==> r.oldRow == f(d.oldRow) && r.newRow == f(d.newRow)
  {
    match d
    case Add(x) => Add(f(x))
    case Remove(x) => Remove(f(x))
    case Update(x, y) => Update(f(x), f(y))
  }

  function MapAll<T, U>(f: T -> U, ds: seq<Delta<T>>): (r: seq<Delta<U>>)
    ensures |r| == |ds|
  {
    if ds == [] then [] else [MapDelta(f, ds[0])] + MapAll(f, ds[1..])
  }

  lemma {:induction false} MapAllRows<T, U>(f: T -> U, ds: seq<Delta<T>>)
    ensures AddedRows(MapAll(f, ds)) == MapRows(f, AddedRows(ds))
    ensures RemovedRows(MapAll(f, ds)) == MapRows(f, RemovedRows(ds))
  {
    if ds != [] {
      MapAllRows(f, ds[1..]);
      AddedRowsAppend([ds[0]], ds[1..]);
      RemovedRowsAppend([ds[0]], ds[1..]);
      AddedRowsAppend([MapDelta(f, ds[0])], MapAll(f, ds[1..]));
      RemovedRowsAppend([MapDelta(f, ds[0])], MapAll(f, ds[1..]));
      assert [ds[0]] + ds[1..] == ds;
      MapRowsAppend(f, AddedRows([ds[0]]), AddedRows(ds[1..]));
      MapRowsAppend(f, RemovedRows([ds[0]]), RemovedRows(ds[1..]));
    }
  }

  /** Incremental correctness of `Mapper`: whenever a delta stream accounts for a change of
      the upstream's rows, the transformed deltas account for the change of the mapped snapshot.
      No de-duplication: equal transformed rows are counted separately. */
  lemma MapKeepsInStep<T, U>(f: T -> U, before: seq<T>, ds: seq<Delta<T>>, after: seq<T>)
    requires Explains(before, ds, after)
    ensures Explains(MapRows(f, before), MapAll(f, ds), MapRows(f, after))
  {
    MapAllRows(f, ds);
    MapRowsAppend(f, before, AddedRows(ds));
    MapRowsAppend(f, after, RemovedRows(ds));
    MapRowsPermutation(f, before + AddedRows(ds), after + RemovedRows(ds));
  }

  /** `Mapper`: re-publishes every delta with its rows transformed. As in the source, its
      hooks are named `add` / `remove` / `update`, not `on_add` / `on_remove` / `on_update`. */
  class Mapper<T, U> {
    const transformer: T -> U
    const out: Observable<U>
    const sub: Subscriber<T>

    constructor (transformer: T -> U)
      ensures this.transformer == transformer
      ensures fresh(out) && out.observers == [] && out.emitted == [] && out.delivered == []
      ensures fresh(sub) && sub.receivingFrom == null
    {
      this.transformer := transformer;
      out := new Observable();
      sub := new Subscriber();
    }

    /** `add`: publishes `Add(transformer(x))`. */
    method Add(x: T)
      modifies out`emitted, out`delivered
      ensures out.State() == Published(old(out.State()), MapDelta(transformer, Delta.Add(x)))
    {
      out.PublishAdd(transformer(x));
    }

    /** `remove`: publishes `Remove(transformer(x))`. */
    method Remove(x: T)
      modifies out`emitted, out`delivered
      ensures out.State() == Published(old(out.State()), MapDelta(transformer, Delta.Remove(x)))
    {
      out.PublishRemove(transformer(x));
    }

    /** `update`: publishes `Update(transformer(x), transformer(y))`. */
    method Update(x: T, y: T)
      modifies out`emitted, out`delivered
      ensures out.State() == Published(old(out.State()), MapDelta(transformer, Delta.Update(x, y)))
    {
      out.PublishUpdate(transformer(x), transformer(y));
    }

    /** `pull`: the upstream's current rows, transformed, in order. */
    function Pull(upstream: seq<T>): (r: seq<U>)
      ensures |r| == |upstream|
      ensures forall i | 0 <= i < |upstream| :: r[i] == transformer(upstream[i])
    {
      MapRows(transformer, upstream)
    }
  }

  // ------------------------------------------------------ CustomSubscriber

  /** `CustomSubscriber`: hands every notification to externally supplied callbacks.
      The callbacks are code outside the core; each call is recorded in `forwarded`
      (`on_add_callback(x)` as `Add(x)`, and so on). */
  class CustomSubscriber<T> {
    const sub: Subscriber<T>
    const pullCallback: Option<Observable?<T> -> seq<T>>
    var forwarded: seq<Delta<T>>

    constructor (pullCallback: Option<Observable?<T> -> seq<T>>)
      ensures this.pullCallback == pullCallback
      ensures fresh(sub) && sub.receivingFrom == null && forwarded == []
    {
      this.pullCallback := pullCallback;
      sub := new Subscriber();
      forwarded := [];
    }

    /** `on_add`: calls `on_add_callback(x)`. */
    method OnAdd(x: T)
      modifies this`forwarded
      ensures forwarded == old(forwarded) + [Add(x)]
    {
      forwarded := forwarded + [Add(x)];
    }

    /** `on_remove`: calls `on_remove_callback(x)`. */
    method OnRemove(x: T)
      modifies this`forwarded
      ensures forwarded == old(forwarded) + [Remove(x)]
    {
      forwarded := forwarded + [Remove(x)];
    }

    /** `on_update`: calls `on_update_callback(x, y)`. */
    method OnUpdate(x: T, y: T)
      modifies this`forwarded
      ensures forwarded == old(forwarded) + [Update(x, y)]
    {
      forwarded := forwarded + [Update(x, y)];
    }

    /** `pull`: raises `NotImplementedError` without a pull strategy; otherwise the
        strategy's rows for the current upstream. */
    function Pull(): (r: Result<seq<T>>)
      reads sub
      ensures r.Failure? <==> pullCallback.None?
      ensures r.Failure? ==> r.error == NotImplemented
      ensures r.Success? ==> r.value == pullCallback.value(sub.receivingFrom)
    {
      match pullCallback
      case None => Failure(NotImplemented)
      case Some(cb) => Success(cb(sub.receivingFrom))
    }
  }
}
