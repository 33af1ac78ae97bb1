/** `LiveJoin`: the incrementally maintained cross product of two publishers. */
module Joins {
  import opened Deltas
  import opened Errors
  import opened PyLists
  import opened PubSub

  // ------------------------------------------------------ joined rows and their deltas

  /** `[combine(x, r2) for r2 in s2]`: side-1 row `x` joined with every side-2 row, in side-2 order. */
  function JoinLeft<T>(combine: (T, T) -> T, x: T, s2: seq<T>): (r: seq<T>)
    ensures |r| == |s2|
    ensures forall j | 0 <= j < |s2| :: r[j] == combine(x, s2[j])
  {
    if s2 == [] then [] else [combine(x, s2[0])] + JoinLeft(combine, x, s2[1..])
  }

  /** `[combine(r1, y) for r1 in s1]`: every side-1 row joined with side-2 row `y`, in side-1 order;
      the side-1 row is always the first argument. */
  function JoinRight<T>(combine: (T, T) -> T, s1: seq<T>, y: T): (r: seq<T>)
    ensures |r| == |s1|
    ensures forall i | 0 <= i < |s1| :: r[i] == combine(s1[i], y)
  {
    if s1 == [] then [] else [combine(s1[0], y)] + JoinRight(combine, s1[1..], y)
  }

  /** What `LiveJoin.pull` yields: side 2 is the outer loop, side 1 the inner one. */
  function JoinPull<T>(combine: (T, T) -> T, s1: seq<T>, s2: seq<T>): seq<T>
  {
    if s2 == [] then [] else JoinRight(combine, s1, s2[0]) + JoinPull(combine, s1, s2[1..])
  }

  /** `pull` has one row per pair of a side-1 and a side-2 row. */
  lemma {:induction false} JoinPullLength<T>(combine: (T, T) -> T, s1: seq<T>, s2: seq<T>)
    ensures |JoinPull(combine, s1, s2)| == |s1| * |s2|
  {
    if s2 != [] {
      JoinPullLength(combine, s1, s2[1..]);
      assert |s1| * |s2| == |s1| + |s1| * |s2[1..]|;
    }
  }

  /** `pull` is the full cross product: the pair (side-1 row i, side-2 row j) sits at
      position `j * |s1| + i`, however the two sides came to hold their rows. */
  lemma JoinPullAt<T>(combine: (T, T) -> T, s1: seq<T>, s2: seq<T>, i: nat, j: nat)
    requires i < |s1| && j < |s2|
    ensures j * |s1| + i < |JoinPull(combine, s1, s2)|
    ensures JoinPull(combine, s1, s2)[j * |s1| + i] == combine(s1[i], s2[j])
  {
    JoinPullCell(combine, s1, s2, i, j, j * |s1| + i);
  }

  /** `JoinPullAt` for the position `p` of the pair (i, j). */
  lemma {:induction false} JoinPullCell<T>(combine: (T, T) -> T, s1: seq<T>, s2: seq<T>, i: nat, j: nat, p: nat)
    requires i < |s1| && j < |s2| && p == j * |s1| + i
    ensures p < |JoinPull(combine, s1, s2)| && JoinPull(combine, s1, s2)[p] == combine(s1[i], s2[j])
  {
    var n := |s1|;
    var left, rest := JoinRight(combine, s1, s2[0]), JoinPull(combine, s1, s2[1..]);
    assert JoinPull(combine, s1, s2) == left + rest;
    RowMajor(i, j, n, |s2|);
    if j > 0 {
      JoinPullCell(combine, s1, s2[1..], i, j - 1, p - n);
      assert (left + rest)[p] == rest[p - n];
      assert s2[1..][j - 1] == s2[j];
    } else {
      assert (left + rest)[p] == left[i];
    }
  }

  /** Row-major positions: cell (i, j) of an n-wide grid of m rows lies inside it, one row
      of n after cell (i, j - 1). */
  lemma RowMajor(i: nat, j: nat, n: nat, m: nat)
    requires i < n && j < m
    ensures j * n + i < n * m
    ensures j > 0 ==> j * n + i == n + ((j - 1) * n + i)
  {
    assert j * n + i < (j + 1) * n <= m * n;
  }

  /** One `Add` per row, in order. */
  function Adds<T>(rows: seq<T>): (r: seq<Delta<T>>)
    ensures |r| == |rows|
    ensures forall k | 0 <= k < |rows| :: r[k] == Add(rows[k])
    ensures AddedRows(r) == rows && RemovedRows(r) == []
  {
    if rows == [] then []
    else
      var rest := Adds(rows[1..]);
      AddedRowsAppend([Add(rows[0])], rest);
      RemovedRowsAppend([Add(rows[0])], rest);
      [Add(rows[0])] + rest
  }

  /** One `Remove` per row, in order. */
  function Removes<T>(rows: seq<T>): (r: seq<Delta<T>>)
    ensures |r| == |rows|
    ensures forall k | 0 <= k < |rows| :: r[k] == Remove(rows[k])
    ensures RemovedRows(r) == rows && AddedRows(r) == []
  {
    if rows == [] then []
    else
      var rest := Removes(rows[1..]);
      AddedRowsAppend([Remove(rows[0])], rest);
      RemovedRowsAppend([Remove(rows[0])], rest);
      [Remove(rows[0])] + rest
  }

  /** `Remove(olds[k])` then `Add(news[k])`, pair by pair, in order. */
  function Swaps<T>(olds: seq<T>, news: seq<T>): (r: seq<Delta<T>>)
    requires |olds| == |news|
    ensures |r| == 2 * |olds|
    ensures forall k | 0 <= k < |olds| :: r[2 * k] == Remove(olds[k]) && r[2 * k + 1] == Add(news[k])
    ensures RemovedRows(r) == olds && AddedRows(r) == news
  {
    if olds == [] then []
    else
      var rest := Swaps(olds[1..], news[1..]);
      var pair := [Remove(olds[0]), Add(news[0])];
      AddedRowsAppend(pair, rest);
      RemovedRowsAppend(pair, rest);
      AddedRowsAppend([Remove(olds[0])], [Add(news[0])]);
      RemovedRowsAppend([Remove(olds[0])], [Add(news[0])]);
      assert pair == [Remove(olds[0])] + [Add(news[0])];
      SwapsCons(olds, news, rest);
      pair + rest
  }

  /** The pair for the first rows, then the swaps for the rest, alternate as `Swaps` says. */
  lemma SwapsCons<T>(olds: seq<T>, news: seq<T>, rest: seq<Delta<T>>)
    requires |olds| == |news| > 0 && |rest| == 2 * (|olds| - 1)
    requires forall k | 0 <= k < |olds| - 1 ::
               rest[2 * k] == Remove(olds[1..][k]) && rest[2 * k + 1] == Add(news[1..][k])
    ensures var r := [Remove(olds[0]), Add(news[0])] + rest;
            forall k | 0 <= k < |olds| :: r[2 * k] == Remove(olds[k]) && r[2 * k + 1] == Add(news[k])
  {
    var r := [Remove(olds[0]), Add(news[0])] + rest;
    forall k | 0 <= k < |olds|
      ensures r[2 * k] == Remove(olds[k]) && r[2 * k + 1] == Add(news[k])
    {
      if k > 0 {
        assert r[2 * k] == rest[2 * (k - 1)] && r[2 * k + 1] == rest[2 * (k - 1) + 1];
        assert olds[1..][k - 1] == olds[k] && news[1..][k - 1] == news[k];
      }
    }
  }

  lemma AddsSnoc<T>(rows: seq<T>, x: T)
    ensures Adds(rows + [x]) == Adds(rows) + [Add(x)]
  {
    assert forall k | 0 <= k < |rows| + 1 :: Adds(rows + [x])[k] == (Adds(rows) + [Add(x)])[k];
  }

  lemma RemovesSnoc<T>(rows: seq<T>, x: T)
    ensures Removes(rows + [x]) == Removes(rows) + [Remove(x)]
  {
    assert forall k | 0 <= k < |rows| + 1 :: Removes(rows + [x])[k] == (Removes(rows) + [Remove(x)])[k];
  }

  lemma {:induction false} SwapsSnoc<T>(olds: seq<T>, news: seq<T>, x: T, y: T)
    requires |olds| == |news|
    ensures Swaps(olds + [x], news + [y]) == Swaps(olds, news) + [Remove(x), Add(y)]
  {
    if olds == [] {
      assert Swaps(olds + [x], news + [y]) == [Remove(x), Add(y)] + Swaps([], []);
    } else {
      assert (olds + [x])[1..] == olds[1..] + [x];
      assert (news + [y])[1..] == news[1..] + [y];
      SwapsSnoc(olds[1..], news[1..], x, y);
    }
  }

  lemma JoinRightAppend<T>(combine: (T, T) -> T, a: seq<T>, b: seq<T>, y: T)
    ensures JoinRight(combine, a + b, y) == JoinRight(combine, a, y) + JoinRight(combine, b, y)
  {
    var l, r := JoinRight(combine, a + b, y), JoinRight(combine, a, y) + JoinRight(combine, b, y);
    forall i | 0 <= i < |l| ensures l[i] == r[i] {
      if i < |a| {
        assert (a + b)[i] == a[i] && r[i] == JoinRight(combine, a, y)[i];
      } else {
        assert (a + b)[i] == b[i - |a|] && r[i] == JoinRight(combine, b, y)[i - |a|];
      }
    }
  }

  // ------------------------------------------------------ the cross product is bilinear

  /** Side 2 is the outer loop, so appending side-2 rows appends their blocks to `pull`. */
  lemma {:induction false} JoinPullAppend2<T>(combine: (T, T) -> T, s1: seq<T>, a: seq<T>, b: seq<T>)
    ensures JoinPull(combine, s1, a + b) == JoinPull(combine, s1, a) + JoinPull(combine, s1, b)
  {
    if a == [] {
      assert a + b == b;
    } else {
      assert (a + b)[1..] == a[1..] + b;
      JoinPullAppend2(combine, s1, a[1..], b);
    }
  }

  lemma JoinPullSingle2<T>(combine: (T, T) -> T, s1: seq<T>, y: T)
    ensures JoinPull(combine, s1, [y]) == JoinRight(combine, s1, y)
  {
    assert [y][1..] == [];
  }

  /** Splitting side 1 splits `pull` into two parts with the same rows between them. */
  lemma {:induction false} JoinPullAppend1<T>(combine: (T, T) -> T, a: seq<T>, b: seq<T>, s2: seq<T>)
    ensures multiset(JoinPull(combine, a + b, s2))
         == multiset(JoinPull(combine, a, s2)) + multiset(JoinPull(combine, b, s2))
  {
    if s2 != [] {
      JoinPullAppend1(combine, a, b, s2[1..]);
      JoinRightAppend(combine, a, b, s2[0]);
    }
  }

  lemma {:induction false} JoinPullSingle1<T>(combine: (T, T) -> T, x: T, s2: seq<T>)
    ensures JoinPull(combine, [x], s2) == JoinLeft(combine, x, s2)
  {
    if s2 != [] {
      JoinPullSingle1(combine, x, s2[1..]);
      assert JoinRight(combine, [x], s2[0]) == [combine(x, s2[0])];
    }
  }

  // ------------------------------------------------------ each handler keeps the join in step

  /** `add_from_1`: the published `Add`s are exactly the new part of the cross product. */
  lemma JoinAddFrom1InStep<T>(combine: (T, T) -> T, s1: seq<T>, s2: seq<T>, x: T)
    ensures Explains(JoinPull(combine, s1, s2), Adds(JoinLeft(combine, x, s2)), JoinPull(combine, s1 + [x], s2))
  {
    JoinPullAppend1(combine, s1, [x], s2);
    JoinPullSingle1(combine, x, s2);
  }

  /** The rows `pull` yields for side 1 `l + [x] + r`: those of `l`, of `r` and of `x` alone. */
  lemma JoinPullAround1<T>(combine: (T, T) -> T, l: seq<T>, x: T, r: seq<T>, s2: seq<T>)
    ensures multiset(JoinPull(combine, l + ([x] + r), s2))
         == multiset(JoinPull(combine, l, s2)) + multiset(JoinPull(combine, r, s2)) + multiset(JoinLeft(combine, x, s2))
  {
    JoinPullAppend1(combine, l, [x] + r, s2);
    JoinPullAppend1(combine, [x], r, s2);
    JoinPullSingle1(combine, x, s2);
  }

  /** A step that takes out `RemovedRows(ds)` and puts in `AddedRows(ds)` around a common part. */
  lemma SpliceExplains<T>(before: seq<T>, ds: seq<Delta<T>>, after: seq<T>, common: multiset<T>)
    requires multiset(before) == common + multiset(RemovedRows(ds))
    requires multiset(after) == common + multiset(AddedRows(ds))
    ensures Explains(before, ds, after)
  {
  }

  /** `remove_from_1`: the published `Remove`s are exactly the part of the cross product that goes. */
  lemma JoinRemoveFrom1InStep<T>(combine: (T, T) -> T, s1: seq<T>, s2: seq<T>, x: T)
    requires x in s1
    ensures Explains(JoinPull(combine, s1, s2), Removes(JoinLeft(combine, x, s2)), JoinPull(combine, RemoveFirst(s1, x), s2))
  {
    var i := IndexOf(s1, x);
    assert s1[i] == x && RemoveFirst(s1, x) == s1[..i] + s1[i + 1..];
    JoinRemoveAt1(combine, s1, i, s2);
  }

  /** `JoinRemoveAround1` at position `i` of side 1. */
  lemma JoinRemoveAt1<T>(combine: (T, T) -> T, s1: seq<T>, i: nat, s2: seq<T>)
    requires i < |s1|
    ensures Explains(JoinPull(combine, s1, s2), Removes(JoinLeft(combine, s1[i], s2)), JoinPull(combine, s1[..i] + s1[i + 1..], s2))
  {
    SplitAt(s1, i);
    JoinRemoveAround1(combine, s1[..i], s1[i], s1[i + 1..], s2);
  }

  /** Taking `x` out of the middle of side 1 takes exactly `x`'s joined rows out of `pull`. */
  lemma JoinRemoveAround1<T>(combine: (T, T) -> T, l: seq<T>, x: T, r: seq<T>, s2: seq<T>)
    ensures Explains(JoinPull(combine, l + ([x] + r), s2), Removes(JoinLeft(combine, x, s2)), JoinPull(combine, l + r, s2))
  {
    JoinPullAround1(combine, l, x, r, s2);
    JoinPullAppend1(combine, l, r, s2);
    SpliceExplains(JoinPull(combine, l + ([x] + r), s2), Removes(JoinLeft(combine, x, s2)), JoinPull(combine, l + r, s2),
                   multiset(JoinPull(combine, l, s2)) + multiset(JoinPull(combine, r, s2)));
  }

  /** `update_from_1`: removing the old joined rows and adding the new ones, pair by pair,
      turns the old cross product into the new one. */
  lemma JoinUpdateFrom1InStep<T>(combine: (T, T) -> T, s1: seq<T>, s2: seq<T>, x: T, y: T)
    requires x in s1
    ensures Explains(JoinPull(combine, s1, s2), Swaps(JoinLeft(combine, x, s2), JoinLeft(combine, y, s2)),
                     JoinPull(combine, ReplaceFirst(s1, x, y), s2))
  {
    var i := IndexOf(s1, x);
    var l, r := s1[..i], s1[i + 1..];
    SplitAt(s1, i);
    ReplaceAt(s1, i, y);
    JoinPullAround1(combine, l, x, r, s2);
    JoinPullAround1(combine, l, y, r, s2);
    SpliceExplains(JoinPull(combine, s1, s2), Swaps(JoinLeft(combine, x, s2), JoinLeft(combine, y, s2)),
                   JoinPull(combine, ReplaceFirst(s1, x, y), s2),
                   multiset(JoinPull(combine, l, s2)) + multiset(JoinPull(combine, r, s2)));
  }

  /** `add_from_2`: the published `Add`s are appended to `pull` exactly, in order. */
  lemma JoinAddFrom2InStep<T>(combine: (T, T) -> T, s1: seq<T>, s2: seq<T>, y: T)
    ensures JoinPull(combine, s1, s2 + [y]) == JoinPull(combine, s1, s2) + AddedRows(Adds(JoinRight(combine, s1, y)))
    ensures Explains(JoinPull(combine, s1, s2), Adds(JoinRight(combine, s1, y)), JoinPull(combine, s1, s2 + [y]))
  {
    JoinPullAppend2(combine, s1, s2, [y]);
    JoinPullSingle2(combine, s1, y);
  }

  /** The rows `pull` yields for side 2 `l + [y] + r`: those of `l`, of `r` and of `y` alone. */
  lemma JoinPullAround2<T>(combine: (T, T) -> T, s1: seq<T>, l: seq<T>, y: T, r: seq<T>)
    ensures multiset(JoinPull(combine, s1, l + ([y] + r)))
         == multiset(JoinPull(combine, s1, l)) + multiset(JoinPull(combine, s1, r)) + multiset(JoinRight(combine, s1, y))
  {
    JoinPullAppend2(combine, s1, l, [y] + r);
    JoinPullAppend2(combine, s1, [y], r);
    JoinPullSingle2(combine, s1, y);
  }

  /** `remove_from_2`: the published `Remove`s are exactly the block of `pull` that goes. */
  lemma JoinRemoveFrom2InStep<T>(combine: (T, T) -> T, s1: seq<T>, s2: seq<T>, y: T)
    requires y in s2
    ensures Explains(JoinPull(combine, s1, s2), Removes(JoinRight(combine, s1, y)), JoinPull(combine, s1, RemoveFirst(s2, y)))
  {
    var j := IndexOf(s2, y);
    assert s2[j] == y && RemoveFirst(s2, y) == s2[..j] + s2[j + 1..];
    JoinRemoveAt2(combine, s1, s2, j);
  }

  /** `JoinRemoveAround2` at position `j` of side 2. */
  lemma JoinRemoveAt2<T>(combine: (T, T) -> T, s1: seq<T>, s2: seq<T>, j: nat)
    requires j < |s2|
    ensures Explains(JoinPull(combine, s1, s2), Removes(JoinRight(combine, s1, s2[j])), JoinPull(combine, s1, s2[..j] + s2[j + 1..]))
  {
    SplitAt(s2, j);
    JoinRemoveAround2(combine, s1, s2[..j], s2[j], s2[j + 1..]);
  }

  /** Taking `y` out of the middle of side 2 takes exactly `y`'s joined rows out of `pull`. */
  lemma JoinRemoveAround2<T>(combine: (T, T) -> T, s1: seq<T>, l: seq<T>, y: T, r: seq<T>)
    ensures Explains(JoinPull(combine, s1, l + ([y] + r)), Removes(JoinRight(combine, s1, y)), JoinPull(combine, s1, l + r))
  {
    JoinPullAround2(combine, s1, l, y, r);
    JoinPullAppend2(combine, s1, l, r);
    SpliceExplains(JoinPull(combine, s1, l + ([y] + r)), Removes(JoinRight(combine, s1, y)), JoinPull(combine, s1, l + r),
                   multiset(JoinPull(combine, s1, l)) + multiset(JoinPull(combine, s1, r)));
  }

  /** `update_from_2`: the old block of `pull` is swapped for the new one, pair by pair. */
  lemma JoinUpdateFrom2InStep<T>(combine: (T, T) -> T, s1: seq<T>, s2: seq<T>, x: T, y: T)
    requires x in s2
    ensures Explains(JoinPull(combine, s1, s2), Swaps(JoinRight(combine, s1, x), JoinRight(combine, s1, y)),
                     JoinPull(combine, s1, ReplaceFirst(s2, x, y)))
  {
    var j := IndexOf(s2, x);
    var l, r := s2[..j], s2[j + 1..];
    SplitAt(s2, j);
    ReplaceAt(s2, j, y);
    JoinPullAround2(combine, s1, l, x, r);
    JoinPullAround2(combine, s1, l, y, r);
    SpliceExplains(JoinPull(combine, s1, s2), Swaps(JoinRight(combine, s1, x), JoinRight(combine, s1, y)),
                   JoinPull(combine, s1, ReplaceFirst(s2, x, y)),
                   multiset(JoinPull(combine, s1, l)) + multiset(JoinPull(combine, s1, r)));
  }

  /** Publishing `Add(rows[i])` after the `Add`s of `rows[..i]` gives the `Add`s of `rows[..i + 1]`. */
  lemma PublishAddStep<T>(s0: PubState<T>, rows: seq<T>, i: nat)
    requires i < |rows|
    ensures Published(PublishedAll(s0, Adds(rows[..i])), Add(rows[i])) == PublishedAll(s0, Adds(rows[..i + 1]))
  {
    PrefixSnoc(rows, i);
    PublishedAllSnoc(s0, Adds(rows[..i]), Add(rows[i]));
    AddsSnoc(rows[..i], rows[i]);
  }

  /** Publishing `Remove(rows[i])` after the `Remove`s of `rows[..i]` gives those of `rows[..i + 1]`. */
  lemma PublishRemoveStep<T>(s0: PubState<T>, rows: seq<T>, i: nat)
    requires i < |rows|
    ensures Published(PublishedAll(s0, Removes(rows[..i])), Remove(rows[i])) == PublishedAll(s0, Removes(rows[..i + 1]))
  {
    PrefixSnoc(rows, i);
    PublishedAllSnoc(s0, Removes(rows[..i]), Remove(rows[i]));
    RemovesSnoc(rows[..i], rows[i]);
  }

  /** Publishing the `Remove`, `Add` pair of position `i` extends the swaps of the first `i` pairs. */
  lemma PublishSwapStep<T>(s0: PubState<T>, olds: seq<T>, news: seq<T>, i: nat)
    requires |olds| == |news| && i < |olds|
    ensures Published(Published(PublishedAll(s0, Swaps(olds[..i], news[..i])), Remove(olds[i])), Add(news[i]))
         == PublishedAll(s0, Swaps(olds[..i + 1], news[..i + 1]))
  {
    PrefixSnoc(olds, i);
    PrefixSnoc(news, i);
    var done := Swaps(olds[..i], news[..i]);
    PublishedAllSnoc(s0, done, Remove(olds[i]));
    PublishedAllSnoc(s0, done + [Remove(olds[i])], Add(news[i]));
    assert done + [Remove(olds[i])] + [Add(news[i])] == done + [Remove(olds[i]), Add(news[i])];
    SwapsSnoc(olds[..i], news[..i], olds[i], news[i]);
  }

  /** Every pair has its place in `pull`. */
  lemma JoinPullPairs<T>(combine: (T, T) -> T, s1: seq<T>, s2: seq<T>)
    ensures forall i, j | 0 <= i < |s1| && 0 <= j < |s2| ::
              j * |s1| + i < |JoinPull(combine, s1, s2)| && JoinPull(combine, s1, s2)[j * |s1| + i] == combine(s1[i], s2[j])
  {
    forall i, j | 0 <= i < |s1| && 0 <= j < |s2|
      ensures j * |s1| + i < |JoinPull(combine, s1, s2)|
      ensures JoinPull(combine, s1, s2)[j * |s1| + i] == combine(s1[i], s2[j])
    {
      JoinPullAt(combine, s1, s2, i, j);
    }
  }

  // ------------------------------------------------------ the live join

  /** `LiveJoin`: keeps the rows collected from both upstreams and publishes the joined rows
      each upstream change adds or takes away. `combine` stands for the row merge `dict_add`. */
  class LiveJoin<T(==)> {
    const combine: (T, T) -> T
    const receiver1: Observable<T>
    const receiver2: Observable<T>
    /** The two forwarding subscribers registered with the receivers. */
    const link1: Subscriber<T>
    const link2: Subscriber<T>
    /** `collected_from_1` and `collected_from_2`. */
    var side1: seq<T>
    var side2: seq<T>
    const out: Observable<T>
    /** What the receivers yielded when the join was built. */
    ghost const initial1: seq<T>
    ghost const initial2: seq<T>

    /** Everything the join has published accounts for the change from the cross product it
        started with to the current one. */
    ghost predicate Valid()
      reads this, out`emitted
    {
      Explains(JoinPull(combine, initial1, initial2), out.emitted, JoinPull(combine, side1, side2))
    }

    /** Registers a forwarding subscriber with each receiver (side 1 first), then keeps what
        each receiver yielded, `snapshot1` and `snapshot2`. */
    constructor (receiver1: Observable<T>, receiver2: Observable<T>, snapshot1: seq<T>, snapshot2: seq<T>, combine: (T, T) -> T)
      modifies receiver1`observers, receiver2`observers
      ensures this.combine == combine && this.receiver1 == receiver1 && this.receiver2 == receiver2
      ensures fresh(link1) && fresh(link2) && link1 != link2
      ensures link1.receivingFrom == receiver1 && link2.receivingFrom == receiver2
      ensures receiver1 != receiver2 ==>
                receiver1.observers == old(receiver1.observers) + [link1] &&
                receiver2.observers == old(receiver2.observers) + [link2]
      ensures receiver1 == receiver2 ==> receiver1.observers == old(receiver1.observers) + [link1, link2]
      ensures side1 == snapshot1 && side2 == snapshot2
      ensures fresh(out) && out.observers == [] && out.emitted == [] && out.delivered == []
      ensures Valid()
    {
      var l1 := new Subscriber();
      var l2 := new Subscriber();
      receiver1.Subscribe(l1);
      receiver2.Subscribe(l2);
      this.combine := combine;
      this.receiver1 := receiver1;
      this.receiver2 := receiver2;
      link1, link2 := l1, l2;
      side1, side2 := snapshot1, snapshot2;
      initial1, initial2 := snapshot1, snapshot2;
      out := new Observable();
    }

    /** The publishing loop of `add_from_*`: `publish_add(row)` for each of `rows`, in order. */
    method PublishAdds(rows: seq<T>)
      modifies out`emitted, out`delivered
      ensures out.State() == PublishedAll(old(out.State()), Adds(rows))
    {
      var i := 0;
      while i < |rows|
        invariant 0 <= i <= |rows|
        invariant out.State() == PublishedAll(old(out.State()), Adds(rows[..i]))
      {
        out.PublishAdd(rows[i]);
        PublishAddStep(old(out.State()), rows, i);
        i := i + 1;
      }
      assert rows[..i] == rows;
    }

    /** The publishing loop of `remove_from_*`: `publish_remove(row)` for each of `rows`, in order. */
    method PublishRemoves(rows: seq<T>)
      modifies out`emitted, out`delivered
      ensures out.State() == PublishedAll(old(out.State()), Removes(rows))
    {
      var i := 0;
      while i < |rows|
        invariant 0 <= i <= |rows|
        invariant out.State() == PublishedAll(old(out.State()), Removes(rows[..i]))
      {
        out.PublishRemove(rows[i]);
        PublishRemoveStep(old(out.State()), rows, i);
        i := i + 1;
      }
      assert rows[..i] == rows;
    }

    /** The publishing loop of `update_from_*`: for each pair, `publish_remove` of the old joined
        row followed by `publish_add` of the new one, in order. */
    method PublishSwaps(olds: seq<T>, news: seq<T>)
      requires |olds| == |news|
      modifies out`emitted, out`delivered
      ensures out.State() == PublishedAll(old(out.State()), Swaps(olds, news))
    {
      var i := 0;
      while i < |olds|
        invariant 0 <= i <= |olds|
        invariant out.State() == PublishedAll(old(out.State()), Swaps(olds[..i], news[..i]))
      {
        out.PublishRemove(olds[i]);
        out.PublishAdd(news[i]);
        PublishSwapStep(old(out.State()), olds, news, i);
        i := i + 1;
      }
      assert olds[..i] == olds && news[..i] == news;
    }

    /** `add_from_1`: appends `x` to side 1, then publishes `Add(combine(x, r2))` for each side-2 row. */
    method AddFrom1(x: T)
      requires Valid()
      modifies this`side1, out`emitted, out`delivered
      ensures Valid()
      ensures side1 == old(side1) + [x] && side2 == old(side2)
      ensures out.State() == PublishedAll(old(out.State()), Adds(JoinLeft(combine, x, side2)))
    {
      JoinAddFrom1InStep(combine, side1, side2, x);
      ExplainsTrans(JoinPull(combine, initial1, initial2), out.emitted, JoinPull(combine, side1, side2),
                    Adds(JoinLeft(combine, x, side2)), JoinPull(combine, side1 + [x], side2));
      side1 := side1 + [x];
      PublishAdds(JoinLeft(combine, x, side2));
    }

    /** `remove_from_1`: drops the first side-1 row equal to `x`, then publishes
        `Remove(combine(x, r2))` for each side-2 row; fails with nothing changed when `x` is absent. */
    method RemoveFrom1(x: T) returns (r: Outcome)
      requires Valid()
      modifies this`side1, out`emitted, out`delivered
      ensures Valid()
      ensures r == (if x in old(side1) then Pass else Fail(NotFound))
      ensures side2 == old(side2)
      ensures r.Pass? ==> side1 == RemoveFirst(old(side1), x)
      ensures r.Pass? ==> out.State() == PublishedAll(old(out.State()), Removes(JoinLeft(combine, x, side2)))
      ensures r.Fail? ==> side1 == old(side1) && out.State() == old(out.State())
    {
      if x in side1 {
        JoinRemoveFrom1InStep(combine, side1, side2, x);
        ExplainsTrans(JoinPull(combine, initial1, initial2), out.emitted, JoinPull(combine, side1, side2),
                      Removes(JoinLeft(combine, x, side2)), JoinPull(combine, RemoveFirst(side1, x), side2));
        side1 := RemoveFirst(side1, x);
        PublishRemoves(JoinLeft(combine, x, side2));
        r := Pass;
      } else {
        r := Fail(NotFound);
      }
    }

    /** `update_from_1`: overwrites the first side-1 row equal to `x` with `y` in place, then for
        each side-2 row publishes `Remove(combine(x, r2))` followed by `Add(combine(y, r2))`;
        fails with nothing changed when `x` is absent. */
    method UpdateFrom1(x: T, y: T) returns (r: Outcome)
      requires Valid()
      modifies this`side1, out`emitted, out`delivered
      ensures Valid()
      ensures r == (if x in old(side1) then Pass else Fail(NotFound))
      ensures side2 == old(side2)
      ensures r.Pass? ==> side1 == old(side1)[IndexOf(old(side1), x) := y]
      ensures r.Pass? ==> out.State() == PublishedAll(old(out.State()), Swaps(JoinLeft(combine, x, side2), JoinLeft(combine, y, side2)))
      ensures r.Fail? ==> side1 == old(side1) && out.State() == old(out.State())
    {
      if x in side1 {
        JoinUpdateFrom1InStep(combine, side1, side2, x, y);
        ExplainsTrans(JoinPull(combine, initial1, initial2), out.emitted, JoinPull(combine, side1, side2),
                      Swaps(JoinLeft(combine, x, side2), JoinLeft(combine, y, side2)), JoinPull(combine, ReplaceFirst(side1, x, y), side2));
        side1 := ReplaceFirst(side1, x, y);
        PublishSwaps(JoinLeft(combine, x, side2), JoinLeft(combine, y, side2));
        r := Pass;
      } else {
        r := Fail(NotFound);
      }
    }

    /** `add_from_2`: appends `y` to side 2, then publishes `Add(combine(r1, y))` for each side-1 row. */
    method AddFrom2(y: T)
      requires Valid()
      modifies this`side2, out`emitted, out`delivered
      ensures Valid()
      ensures side2 == old(side2) + [y] && side1 == old(side1)
      ensures out.State() == PublishedAll(old(out.State()), Adds(JoinRight(combine, side1, y)))
    {
      JoinAddFrom2InStep(combine, side1, side2, y);
      ExplainsTrans(JoinPull(combine, initial1, initial2), out.emitted, JoinPull(combine, side1, side2),
                    Adds(JoinRight(combine, side1, y)), JoinPull(combine, side1, side2 + [y]));
      side2 := side2 + [y];
      PublishAdds(JoinRight(combine, side1, y));
    }

    /** `remove_from_2`: drops the first side-2 row equal to `y`, then publishes
        `Remove(combine(r1, y))` for each side-1 row; fails with nothing changed when `y` is absent. */
    method RemoveFrom2(y: T) returns (r: Outcome)
      requires Valid()
      modifies this`side2, out`emitted, out`delivered
      ensures Valid()
      ensures r == (if y in old(side2) then Pass else Fail(NotFound))
      ensures side1 == old(side1)
      ensures r.Pass? ==> side2 == RemoveFirst(old(side2), y)
      ensures r.Pass? ==> out.State() == PublishedAll(old(out.State()), Removes(JoinRight(combine, side1, y)))
      ensures r.Fail? ==> side2 == old(side2) && out.State() == old(out.State())
    {
      if y in side2 {
        JoinRemoveFrom2InStep(combine, side1, side2, y);
        ExplainsTrans(JoinPull(combine, initial1, initial2), out.emitted, JoinPull(combine, side1, side2),
                      Removes(JoinRight(combine, side1, y)), JoinPull(combine, side1, RemoveFirst(side2, y)));
        side2 := RemoveFirst(side2, y);
        PublishRemoves(JoinRight(combine, side1, y));
        r := Pass;
      } else {
        r := Fail(NotFound);
      }
    }

    /** `update_from_2`: overwrites the first side-2 row equal to `x` with `y` in place, then for
        each side-1 row publishes `Remove(combine(r1, x))` followed by `Add(combine(r1, y))`;
        fails with nothing changed when `x` is absent. */
    method UpdateFrom2(x: T, y: T) returns (r: Outcome)
      requires Valid()
      modifies this`side2, out`emitted, out`delivered
      ensures Valid()
      ensures r == (if x in old(side2) then Pass else Fail(NotFound))
      ensures side1 == old(side1)
      ensures r.Pass? ==> side2 == old(side2)[IndexOf(old(side2), x) := y]
      ensures r.Pass? ==> out.State() == PublishedAll(old(out.State()), Swaps(JoinRight(combine, side1, x), JoinRight(combine, side1, y)))
      ensures r.Fail? ==> side2 == old(side2) && out.State() == old(out.State())
    {
      if x in side2 {
        JoinUpdateFrom2InStep(combine, side1, side2, x, y);
        ExplainsTrans(JoinPull(combine, initial1, initial2), out.emitted, JoinPull(combine, side1, side2),
                      Swaps(JoinRight(combine, side1, x), JoinRight(combine, side1, y)), JoinPull(combine, side1, ReplaceFirst(side2, x, y)));
        side2 := ReplaceFirst(side2, x, y);
        PublishSwaps(JoinRight(combine, side1, x), JoinRight(combine, side1, y));
        r := Pass;
      } else {
        r := Fail(NotFound);
      }
    }

    /** `pull`: every pair of a side-1 and a side-2 row, combined, side 2 outermost; the deltas
        published so far account for it starting from the join's first cross product. */
    function Pull(): (r: seq<T>)
      reads this, out`emitted
      requires Valid()
      ensures |r| == |side1| * |side2|
      ensures forall i, j | 0 <= i < |side1| && 0 <= j < |side2| ::
                j * |side1| + i < |r| && r[j * |side1| + i] == combine(side1[i], side2[j])
      ensures Explains(JoinPull(combine, initial1, initial2), out.emitted, r)
    {
      JoinPullPairs(combine, side1, side2);
      JoinPullLength(combine, side1, side2);
      JoinPull(combine, side1, side2)
    }
  }
}
