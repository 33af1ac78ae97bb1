/** The secondary index of a table, on values: what a `Channel` and an `Index` hold, how each
    table notification changes them, and the invariants that hold while rows are only added. */
module Indexing {
  import opened Deltas
  import opened Errors
  import opened PyLists
  import opened PubSub
  import opened Operators

  /** A cell of a row. A Python `bool` cell is the integer 0 or 1 here: `False == 0` and
      `True == 1` compare and hash alike, so they share a channel and match in `list.index`. */
  datatype Value = Int(i: int) | Str(s: string)

  /** A row: column name to cell (a Python dict). */
  type Row = map<string, Value>

  /** `table.data[i]`, total so that it can be mapped over positions; positions past the end
      never reach it where it matters. */
  function At(data: seq<Row>): nat -> Row
  {
    (i: nat) => if i < |data| then data[i] else map[]
  }

  // ------------------------------------------------------ channels

  /** A channel: the row positions it holds (`row_ids`) and its state as a publisher. */
  datatype ChannelView = ChannelView(rowIds: seq<nat>, pub: PubState<Row>)

  /** A channel as the index's `defaultdict` creates it. */
  function NewChannel(): ChannelView
  {
    ChannelView([], PubState([], [], []))
  }

  /** `when_row_hits_index(id)`: append `id`, then publish `Add(data[id])`; a position past the
      end raises `IndexError` after the append. */
  function Hit(c: ChannelView, data: seq<Row>, id: nat): (ChannelView, Outcome)
  {
    var ids := c.rowIds + [id];
    if id < |data| then (ChannelView(ids, Published(c.pub, Add(data[id]))), Pass)
    else (c.(rowIds := ids), Fail(OutOfRange))
  }

  /** `when_row_misses_index(id)`: remove the first `id` (`ValueError` when absent), then
      publish `Remove(data[id])`. */
  function Miss(c: ChannelView, data: seq<Row>, id: nat): (ChannelView, Outcome)
  {
    if id !in c.rowIds then (c, Fail(NotFound))
    else
      var ids := RemoveFirst(c.rowIds, id);
      if id < |data| then (ChannelView(ids, Published(c.pub, Remove(data[id]))), Pass)
      else (c.(rowIds := ids), Fail(OutOfRange))
  }

  /** `when_row_updates_index(o, n)`: remove the first `o`, append `n`, then publish
      `Remove(data[o])` and `Add(data[n])`. */
  function Move(c: ChannelView, data: seq<Row>, o: nat, n: nat): (ChannelView, Outcome)
  {
    if o !in c.rowIds then (c, Fail(NotFound))
    else
      var ids := RemoveFirst(c.rowIds, o) + [n];
      if o >= |data| then (c.(rowIds := ids), Fail(OutOfRange))
      else
        var pub := Published(c.pub, Remove(data[o]));
        if n >= |data| then (ChannelView(ids, pub), Fail(OutOfRange))
        else (ChannelView(ids, Published(pub, Add(data[n]))), Pass)
  }

  // ------------------------------------------------------ indexes

  /** An index on `col`: its channels by cell value, and the order in which they were created. */
  datatype IndexView = IndexView(col: string, keys: seq<Value>, channels: map<Value, ChannelView>)

  /** `keys` lists each channel once. */
  predicate WellKeyed(ix: IndexView)
  {
    Distinct(ix.keys) && (forall k | k in ix.keys :: k in ix.channels) && (forall k | k in ix.channels :: k in ix.keys)
  }

  /** Reading `channels_by_indexed_col_value[k]`: a missing key gets a new channel, created last. */
  function ChannelFor(ix: IndexView, k: Value): (r: IndexView)
    ensures k in r.channels && r.col == ix.col
    ensures r.channels.Keys == ix.channels.Keys + {k} && r.channels - {k} == ix.channels - {k}
    ensures k in ix.channels ==> r == ix
    ensures k !in ix.channels ==> r.channels[k] == NewChannel() && r.keys == ix.keys + [k]
  {
    if k in ix.channels then ix
    else ix.(keys := ix.keys + [k], channels := ix.channels[k := NewChannel()])
  }

  /** Creating a missing channel keeps `keys` listing each channel once. */
  lemma ChannelForWellKeyed(ix: IndexView, k: Value)
    requires WellKeyed(ix)
    ensures WellKeyed(ChannelFor(ix, k))
  {
    if k !in ix.channels {
      DistinctSnoc(ix.keys, k);
    }
  }

  /** `when_table_adds(r)`: `KeyError` when `r` lacks the column; otherwise the channel for
      `r[col]` (created if need be) takes the position of the first row equal to `r`. */
  function WhenAdds(ix: IndexView, data: seq<Row>, r: Row): (IndexView, Outcome)
  {
    if ix.col !in r then (ix, Fail(KeyMissing))
    else
      var k := r[ix.col];
      var ix1 := ChannelFor(ix, k);
      if r !in data then (ix1, Fail(NotFound))
      else
        var step := Hit(ix1.channels[k], data, IndexOf(data, r));
        (ix1.(channels := ix1.channels[k := step.0]), step.1)
  }

  /** `when_table_removes(r)`: the channel for `r[col]` drops the position of the first row
      still equal to `r` in `data`; `ValueError` when there is none. */
  function WhenRemoves(ix: IndexView, data: seq<Row>, r: Row): (IndexView, Outcome)
  {
    if ix.col !in r then (ix, Fail(KeyMissing))
    else
      var k := r[ix.col];
      var ix1 := ChannelFor(ix, k);
      if r !in data then (ix1, Fail(NotFound))
      else
        var step := Miss(ix1.channels[k], data, IndexOf(data, r));
        (ix1.(channels := ix1.channels[k := step.0]), step.1)
  }

  /** `when_table_updates(x, y)`: only the channel for the OLD value `x[col]` is touched; it
      swaps the position of the first row equal to `x` for that of the first row equal to `y`. */
  function WhenUpdates(ix: IndexView, data: seq<Row>, x: Row, y: Row): (IndexView, Outcome)
  {
    if ix.col !in x || ix.col !in y then (ix, Fail(KeyMissing))
    else
      var k := x[ix.col];
      var ix1 := ChannelFor(ix, k);
      if x !in data || y !in data then (ix1, Fail(NotFound))
      else
        var step := Move(ix1.channels[k], data, IndexOf(data, x), IndexOf(data, y));
        (ix1.(channels := ix1.channels[k := step.0]), step.1)
  }

  /** The positions of all channels, channel by channel in creation order. */
  function Positions(keys: seq<Value>, channels: map<Value, ChannelView>): seq<nat>
    requires forall k | k in keys :: k in channels
  {
    if keys == [] then []
    else Positions(keys[..|keys| - 1], channels) + channels[keys[|keys| - 1]].rowIds
  }

  /** `Index.pull`: the rows of every channel, channels in creation order. */
  function IndexRows(ix: IndexView, data: seq<Row>): (r: Result<seq<Row>>)
    requires forall k | k in ix.keys :: k in ix.channels
    ensures r.Failure? ==> r.error == OutOfRange
  {
    var ids := Positions(ix.keys, ix.channels);
    if forall i | 0 <= i < |ids| :: ids[i] < |data| then Success(MapRows(At(data), ids))
    else Failure(OutOfRange)
  }

  /** The index `Index(col, table)` builds from the first `m` rows of `data`; a row without the
      column raises `KeyError` and ends the build. */
  function Build(col: string, data: seq<Row>, m: nat): (IndexView, Outcome)
    requires m <= |data|
  {
    if m == 0 then (IndexView(col, [], map[]), Pass)
    else
      var prev := Build(col, data, m - 1);
      if prev.1.Fail? then prev else WhenAdds(prev.0, data, data[m - 1])
  }

  /** The table notifying its indexes in order: each runs `step`; the first failure propagates
      and the indexes after it are not notified. */
  function RunAll(step: IndexView -> (IndexView, Outcome), ixs: seq<IndexView>): (r: (seq<IndexView>, Outcome))
    ensures |r.0| == |ixs|
  {
    if ixs == [] then ([], Pass)
    else
      var prev := RunAll(step, ixs[..|ixs| - 1]);
      if prev.1.Fail? then (prev.0 + [ixs[|ixs| - 1]], prev.1)
      else
        var last := step(ixs[|ixs| - 1]);
        (prev.0 + [last.0], last.1)
  }

  /** What each index does when the table publishes `d`: `when_table_adds`,
      `when_table_removes` or `when_table_updates`, against the table's current rows. */
  function Reaction(data: seq<Row>, d: Delta<Row>): IndexView -> (IndexView, Outcome)
  {
    match d
    case Add(r) => ix => WhenAdds(ix, data, r)
    case Remove(r) => ix => WhenRemoves(ix, data, r)
    case Update(x, y) => ix => WhenUpdates(ix, data, x, y)
  }

  lemma RunAllSnoc(step: IndexView -> (IndexView, Outcome), ixs: seq<IndexView>, i: nat)
    requires i < |ixs| && RunAll(step, ixs[..i]).1 == Pass
    ensures RunAll(step, ixs[..i + 1]) == (RunAll(step, ixs[..i]).0 + [step(ixs[i]).0], step(ixs[i]).1)
  {
    assert ixs[..i + 1][..i] == ixs[..i];
  }

  /** Once an index fails, the indexes after it keep their state and the failure is the outcome. */
  lemma {:induction false} RunAllStopped(step: IndexView -> (IndexView, Outcome), ixs: seq<IndexView>, i: nat)
    requires i < |ixs| && RunAll(step, ixs[..i + 1]).1.Fail?
    ensures RunAll(step, ixs) == (RunAll(step, ixs[..i + 1]).0 + ixs[i + 1..], RunAll(step, ixs[..i + 1]).1)
    decreases |ixs|
  {
    if |ixs| == i + 1 {
      assert ixs[..i + 1] == ixs;
      assert ixs[i + 1..] == [];
      assert RunAll(step, ixs).0 + [] == RunAll(step, ixs).0;
    } else {
      var prefix := ixs[..|ixs| - 1];
      assert prefix[..i + 1] == ixs[..i + 1];
      RunAllStopped(step, prefix, i);
      var head := RunAll(step, ixs[..i + 1]).0;
      assert RunAll(step, ixs).0 == (head + prefix[i + 1..]) + [ixs[|ixs| - 1]];
      assert prefix[i + 1..] + [ixs[|ixs| - 1]] == ixs[i + 1..];
      assert (head + prefix[i + 1..]) + [ixs[|ixs| - 1]] == head + ixs[i + 1..];
    }
  }

  /** When the first index fails, the others are not notified. */
  lemma RunAllFirstFails(step: IndexView -> (IndexView, Outcome), ixs: seq<IndexView>)
    requires |ixs| > 0 && step(ixs[0]).1.Fail?
    ensures RunAll(step, ixs) == ([step(ixs[0]).0] + ixs[1..], step(ixs[0]).1)
  {
    var first := step(ixs[0]);
    assert ixs[..1] == [ixs[0]] && [ixs[0]][..0] == [];
    assert RunAll(step, [ixs[0]]) == ([] + [first.0], first.1);
    assert [] + [first.0] == [first.0];
    RunAllStopped(step, ixs, 0);
  }

  /** The views while the table notifies index `i`, the first `i` having passed: notifying it
      replaces its view and extends the run by one. */
  lemma RunAllStep(step: IndexView -> (IndexView, Outcome), start: seq<IndexView>, i: nat)
    requires i < |start| && RunAll(step, start[..i]).1 == Pass
    ensures (RunAll(step, start[..i]).0 + start[i..])[i := step(start[i]).0] == RunAll(step, start[..i + 1]).0 + start[i + 1..]
    ensures step(start[i]).1 == RunAll(step, start[..i + 1]).1
  {
    RunAllSnoc(step, start, i);
    var head, v := RunAll(step, start[..i]).0, step(start[i]).0;
    var l, r := (head + start[i..])[i := v], head + [v] + start[i + 1..];
    assert |l| == |r|;
    forall k | 0 <= k < |l| ensures l[k] == r[k] {
      if k > i {
        assert l[k] == start[i..][k - i] == start[k];
      }
    }
    assert head + [v] + start[i + 1..] == (head + [v]) + start[i + 1..];
  }

  /** The notification loop ends when every index has passed or one has failed: the views it
      holds then are those of the whole run. */
  lemma RunAllDone(step: IndexView -> (IndexView, Outcome), start: seq<IndexView>, i: nat)
    requires i <= |start| && (i == |start| || RunAll(step, start[..i]).1.Fail?)
    ensures RunAll(step, start[..i]).0 + start[i..] == RunAll(step, start).0
    ensures RunAll(step, start[..i]).1 == RunAll(step, start).1
  {
    if i == |start| {
      assert start[..i] == start;
      assert RunAll(step, start).0 + start[i..] == RunAll(step, start).0;
    } else {
      assert start[..0] == [];
      assert i > 0;
      assert start[..i - 1 + 1] == start[..i];
      RunAllStopped(step, start, i - 1);
    }
  }

  // ------------------------------------------------------ what an index should hold

  /** Every position the channel holds is a current row whose cell in `col` is `k`. */
  predicate ChannelSound(c: ChannelView, data: seq<Row>, col: string, k: Value)
  {
    forall id | id in c.rowIds :: id < |data| && col in data[id] && data[id][col] == k
  }

  /** Every stored position is a current row whose cell in the column is its channel's key. */
  predicate Sound(ix: IndexView, data: seq<Row>)
  {
    WellKeyed(ix) && forall k | k in ix.channels :: ChannelSound(ix.channels[k], data, ix.col, k)
  }

  /** Where `list.index` finds each row: `data.index(data[i])` for every position `i`. */
  function FirstPositions(data: seq<Row>): seq<nat>
  {
    seq(|data|, (i: nat) requires i < |data| => IndexOf(data, data[i]))
  }

  /** The index agrees with the rows: it is sound and, over all its channels, holds the
      position `list.index` gives for each row exactly once. */
  predicate Inv(ix: IndexView, data: seq<Row>)
  {
    Sound(ix, data) && multiset(Positions(ix.keys, ix.channels)) == multiset(FirstPositions(data))
  }

  /** The cells of column `col` in the first `m` rows. */
  function ColumnUpTo(col: string, data: seq<Row>, m: nat): (r: seq<Value>)
    requires m <= |data| && forall i | 0 <= i < m :: col in data[i]
    ensures |r| == m && forall i | 0 <= i < m :: r[i] == data[i][col]
  {
    if m == 0 then [] else ColumnUpTo(col, data, m - 1) + [data[m - 1][col]]
  }

  /** Each value once, in the order of its first appearance. */
  function FirstSeen(vs: seq<Value>): (r: seq<Value>)
    ensures Distinct(r)
    ensures forall v | v in r :: v in vs
    ensures forall v | v in vs :: v in r
  {
    if vs == [] then []
    else
      var prefix := vs[..|vs| - 1];
      var p := FirstSeen(prefix);
      assert forall v | v in vs :: v in prefix || v == vs[|vs| - 1] by {
        assert vs == prefix + [vs[|vs| - 1]];
      }
      if vs[|vs| - 1] in p then p
      else
        DistinctSnoc(p, vs[|vs| - 1]);
        p + [vs[|vs| - 1]]
  }

  /** The `list.index` positions of the first `m` rows whose cell in `col` is `k`, in row order. */
  function PositionsWith(data: seq<Row>, col: string, k: Value, m: nat): seq<nat>
    requires m <= |data| && forall i | 0 <= i < m :: col in data[i]
  {
    if m == 0 then []
    else PositionsWith(data, col, k, m - 1) + (if data[m - 1][col] == k then [IndexOf(data, data[m - 1])] else [])
  }

  // ------------------------------------------------------ helper facts

  lemma {:induction false} PositionsFrame(keys: seq<Value>, channels: map<Value, ChannelView>, k: Value, c: ChannelView)
    requires forall k' | k' in keys :: k' in channels
    requires k !in keys
    ensures Positions(keys, channels[k := c]) == Positions(keys, channels)
  {
    if keys != [] {
      PositionsFrame(keys[..|keys| - 1], channels, k, c);
    }
  }

  /** Appending `id` to the channel of a listed key adds `id` once to all positions. */
  lemma {:induction false} PositionsGrow(keys: seq<Value>, channels: map<Value, ChannelView>, k: Value, c: ChannelView, id: nat)
    requires forall k' | k' in keys :: k' in channels
    requires Distinct(keys) && k in keys && c.rowIds == channels[k].rowIds + [id]
    ensures multiset(Positions(keys, channels[k := c])) == multiset(Positions(keys, channels)) + multiset{id}
  {
    var prefix, last := keys[..|keys| - 1], keys[|keys| - 1];
    assert keys == prefix + [last];
    if last == k {
      assert k !in prefix;
      PositionsFrame(prefix, channels, k, c);
    } else {
      PositionsGrow(prefix, channels, k, c, id);
    }
  }

  lemma PositionsNewKey(keys: seq<Value>, channels: map<Value, ChannelView>, k: Value, c: ChannelView)
    requires forall k' | k' in keys :: k' in channels
    requires k !in keys
    ensures Positions(keys + [k], channels[k := c]) == Positions(keys, channels) + c.rowIds
  {
    assert (keys + [k])[..|keys|] == keys;
    PositionsFrame(keys, channels, k, c);
  }

  lemma {:induction false} PositionsMember(keys: seq<Value>, channels: map<Value, ChannelView>, id: nat)
    requires forall k' | k' in keys :: k' in channels
    requires id in Positions(keys, channels)
    ensures exists k | k in keys :: id in channels[k].rowIds
  {
    var prefix, last := keys[..|keys| - 1], keys[|keys| - 1];
    if id !in channels[last].rowIds {
      PositionsMember(prefix, channels, id);
    }
  }

  /** A position held by a listed channel is among the positions of the whole index. */
  lemma {:induction false} PositionsHas(keys: seq<Value>, channels: map<Value, ChannelView>, k: Value, id: nat)
    requires forall k' | k' in keys :: k' in channels
    requires k in keys && id in channels[k].rowIds
    ensures id in Positions(keys, channels)
  {
    var prefix, last := keys[..|keys| - 1], keys[|keys| - 1];
    assert keys == prefix + [last];
    if last != k {
      PositionsHas(prefix, channels, k, id);
    }
  }

  lemma FirstPositionsSnoc(data: seq<Row>, r: Row)
    ensures FirstPositions(data + [r]) == FirstPositions(data) + [IndexOf(data + [r], r)]
  {
    forall i | 0 <= i < |data|
      ensures IndexOf(data + [r], (data + [r])[i]) == IndexOf(data, data[i])
    {
      IndexOfPrefix(data, [r], data[i]);
    }
  }

  /** Looking every row up at its `list.index` position gives the rows back. */
  lemma LookupFirstPositions(data: seq<Row>)
    ensures MapRows(At(data), FirstPositions(data)) == data
  {
  }

  lemma SoundGrow(ix: IndexView, data: seq<Row>, r: Row)
    requires Sound(ix, data)
    ensures Sound(ix, data + [r])
  {
    forall k | k in ix.channels
      ensures ChannelSound(ix.channels[k], data + [r], ix.col, k)
    {
      forall id | id in ix.channels[k].rowIds
        ensures id < |data| && (data + [r])[id] == data[id]
      {
      }
    }
  }

  // ------------------------------------------------------ adding rows

  /** The channel `when_table_adds(r)` files `r` under, as it was before (new if need be). */
  function Before(ix: IndexView, k: Value): ChannelView
  {
    if k in ix.channels then ix.channels[k] else NewChannel()
  }

  lemma AddsShape(ix: IndexView, data: seq<Row>, r: Row)
    requires WellKeyed(ix) && ix.col in r && r in data
    ensures var k := r[ix.col];
            var ix' := WhenAdds(ix, data, r).0;
            WhenAdds(ix, data, r).1 == Pass && ix'.col == ix.col && WellKeyed(ix') &&
            ix'.keys == (if k in ix.channels then ix.keys else ix.keys + [k]) &&
            ix'.channels == ix.channels[k := ChannelView(Before(ix, k).rowIds + [IndexOf(data, r)], Published(Before(ix, k).pub, Add(r)))]
  {
    ChannelForWellKeyed(ix, r[ix.col]);
  }

  lemma AddsSound(ix: IndexView, data: seq<Row>, r: Row)
    requires Sound(ix, data) && ix.col in r && r in data
    ensures Sound(WhenAdds(ix, data, r).0, data)
  {
    var k := r[ix.col];
    AddsShape(ix, data, r);
    var c := WhenAdds(ix, data, r).0.channels[k];
    assert ChannelSound(c, data, ix.col, k);
  }

  lemma AddsPositions(ix: IndexView, data: seq<Row>, r: Row)
    requires WellKeyed(ix) && ix.col in r && r in data
    ensures var ix' := WhenAdds(ix, data, r).0;
            WellKeyed(ix') &&
            multiset(Positions(ix'.keys, ix'.channels)) == multiset(Positions(ix.keys, ix.channels)) + multiset{IndexOf(data, r)}
  {
    var k := r[ix.col];
    AddsShape(ix, data, r);
    var c := WhenAdds(ix, data, r).0.channels[k];
    if k in ix.channels {
      PositionsGrow(ix.keys, ix.channels, k, c, IndexOf(data, r));
    } else {
      PositionsNewKey(ix.keys, ix.channels, k, c);
    }
  }

  /** `when_table_adds(r)` for a row present in `data`: the channel for `r[col]` (new, and
      created last, when the value is new) gains the position of `r` and publishes one
      `Add(r)`; every other channel is unchanged, the index stays sound, and the position is
      added once to the positions of the whole index. */
  lemma AddsToOneChannel(ix: IndexView, data: seq<Row>, r: Row)
    requires Sound(ix, data) && ix.col in r && r in data
    ensures var k := r[ix.col];
            var ix' := WhenAdds(ix, data, r).0;
            WhenAdds(ix, data, r).1 == Pass && Sound(ix', data) && ix'.col == ix.col &&
            ix'.keys == (if k in ix.channels then ix.keys else ix.keys + [k]) &&
            ix'.channels == ix.channels[k := ChannelView(Before(ix, k).rowIds + [IndexOf(data, r)], Published(Before(ix, k).pub, Add(r)))] &&
            multiset(Positions(ix'.keys, ix'.channels)) == multiset(Positions(ix.keys, ix.channels)) + multiset{IndexOf(data, r)}
  {
    AddsShape(ix, data, r);
    AddsSound(ix, data, r);
    AddsPositions(ix, data, r);
  }

  /** `table_add(r)` on one index: appending `r` to the rows and notifying the index keeps it
      in agreement with the rows; the new position is the last one when `r` is a new row. */
  lemma AddKeepsInv(ix: IndexView, data: seq<Row>, r: Row)
    requires Inv(ix, data) && ix.col in r
    ensures WhenAdds(ix, data + [r], r).1 == Pass && Inv(WhenAdds(ix, data + [r], r).0, data + [r])
    ensures r !in data ==> IndexOf(data + [r], r) == |data|
  {
    SoundGrow(ix, data, r);
    AddsSound(ix, data + [r], r);
    AddsPositions(ix, data + [r], r);
    FirstPositionsSnoc(data, r);
  }

  /** `table_add(r)` over all indexes: when every index's column is in `r`, every index is
      notified and each keeps agreeing with the rows. */
  lemma {:induction false} AddAllKeepsInv(ixs: seq<IndexView>, data: seq<Row>, r: Row)
    requires forall i | 0 <= i < |ixs| :: Inv(ixs[i], data) && ixs[i].col in r
    ensures RunAll(Reaction(data + [r], Add(r)), ixs).1 == Pass
    ensures forall i | 0 <= i < |ixs| :: Inv(RunAll(Reaction(data + [r], Add(r)), ixs).0[i], data + [r])
  {
    if ixs != [] {
      var prefix := ixs[..|ixs| - 1];
      AddAllKeepsInv(prefix, data, r);
      AddKeepsInv(ixs[|ixs| - 1], data, r);
    }
  }

  /** `table_add(r)` notifies every index without failure when every index's column is in `r`,
      whatever the indexes hold. */
  lemma {:induction false} AddAllPasses(ixs: seq<IndexView>, data: seq<Row>, r: Row)
    requires forall i | 0 <= i < |ixs| :: ixs[i].col in r
    ensures RunAll(Reaction(data + [r], Add(r)), ixs).1 == Pass
  {
    if ixs != [] {
      var step := Reaction(data + [r], Add(r));
      AddAllPasses(ixs[..|ixs| - 1], data, r);
      assert step(ixs[|ixs| - 1]) == WhenAdds(ixs[|ixs| - 1], data + [r], r);
      assert IndexOf(data + [r], r) < |data + [r]|;
    }
  }

  /** When some index's column is missing from `r`, `table_add` raises `KeyError`, whatever the
      indexes hold. Which indexes were notified before it is `RunAllStopped`'s statement. */
  lemma {:induction false} AddAllMissingColumn(ixs: seq<IndexView>, data: seq<Row>, r: Row)
    requires exists i | 0 <= i < |ixs| :: ixs[i].col !in r
    ensures RunAll(Reaction(data + [r], Add(r)), ixs).1 == Fail(KeyMissing)
  {
    var prefix, last := ixs[..|ixs| - 1], ixs[|ixs| - 1];
    var step := Reaction(data + [r], Add(r));
    if exists i | 0 <= i < |ixs| - 1 :: ixs[i].col !in r {
      var i :| 0 <= i < |ixs| - 1 && ixs[i].col !in r;
      assert prefix[i] == ixs[i];
      AddAllMissingColumn(prefix, data, r);
    } else {
      var i :| 0 <= i < |ixs| && ixs[i].col !in r;
      assert i == |ixs| - 1;
      AddAllPasses(prefix, data, r);
      assert step(last) == WhenAdds(last, data + [r], r);
      assert step(last).1 == Fail(KeyMissing);
    }
  }

  // ------------------------------------------------------ building an index

  /** While no row has failed, the build files one more row at a time. */
  lemma BuildNext(col: string, data: seq<Row>, m: nat)
    requires 0 < m <= |data| && Build(col, data, m - 1).1 == Pass
    ensures Build(col, data, m) == WhenAdds(Build(col, data, m - 1).0, data, data[m - 1])
  {
  }

  lemma BuildHalted(col: string, data: seq<Row>, m: nat)
    requires 0 < m <= |data| && Build(col, data, m - 1).1.Fail?
    ensures Build(col, data, m) == Build(col, data, m - 1)
  {
  }

  /** Induction over the build: a property of the new index that filing any one more row
      preserves holds of the index built from the first `m` rows, and no row fails. */
  lemma {:induction false} BuildInduction(col: string, data: seq<Row>, m: nat, P: (IndexView, nat) -> bool)
    requires m <= |data|
    requires P(IndexView(col, [], map[]), 0)
    requires forall j: nat, ix: IndexView | j < m && P(ix, j) ::
               WhenAdds(ix, data, data[j]).1 == Pass && P(WhenAdds(ix, data, data[j]).0, j + 1)
    ensures Build(col, data, m).1 == Pass && P(Build(col, data, m).0, m)
  {
    if m > 0 {
      var ix := Build(col, data, m - 1).0;
      BuildInduction(col, data, m - 1, P);
      BuildNext(col, data, m);
      assert P(WhenAdds(ix, data, data[m - 1]).0, m - 1 + 1);
    }
  }

  /** Filing row `j` creates a channel exactly when its value is new, so the channels stay in
      first-seen order. */
  lemma AddsKeys(ix: IndexView, col: string, data: seq<Row>, j: nat)
    requires j < |data| && (forall i | 0 <= i <= j :: col in data[i]) && ix.col == col && WellKeyed(ix)
    requires ix.keys == FirstSeen(ColumnUpTo(col, data, j))
    ensures WhenAdds(ix, data, data[j]).0.col == col && WellKeyed(WhenAdds(ix, data, data[j]).0)
    ensures WhenAdds(ix, data, data[j]).0.keys == FirstSeen(ColumnUpTo(col, data, j + 1))
  {
    var vs, k := ColumnUpTo(col, data, j), data[j][col];
    AddsShape(ix, data, data[j]);
    assert ColumnUpTo(col, data, j + 1) == vs + [k];
    assert (vs + [k])[..|vs|] == vs;
    assert k in FirstSeen(vs) <==> k in ix.channels;
  }

  /** Filing row `j` adds its `list.index` position once to the positions of the index. */
  lemma AddsFirstPositions(ix: IndexView, col: string, data: seq<Row>, j: nat)
    requires j < |data| && ix.col == col && col in data[j] && WellKeyed(ix)
    requires multiset(Positions(ix.keys, ix.channels)) == multiset(FirstPositions(data)[..j])
    ensures WhenAdds(ix, data, data[j]).0.col == col
    ensures var ix' := WhenAdds(ix, data, data[j]).0;
            WellKeyed(ix') && multiset(Positions(ix'.keys, ix'.channels)) == multiset(FirstPositions(data)[..j + 1])
  {
    var f := FirstPositions(data);
    AddsPositions(ix, data, data[j]);
    assert f[..j + 1] == f[..j] + [f[j]];
  }

  /** Filing row `j` appends its position to the channel for its cell and to no other. */
  lemma AddsPositionsWith(ix: IndexView, col: string, data: seq<Row>, j: nat)
    requires j < |data| && (forall i | 0 <= i <= j :: col in data[i]) && ix.col == col && WellKeyed(ix)
    requires forall k :: Before(ix, k).rowIds == PositionsWith(data, col, k, j)
    ensures WhenAdds(ix, data, data[j]).0.col == col && WellKeyed(WhenAdds(ix, data, data[j]).0)
    ensures forall k :: Before(WhenAdds(ix, data, data[j]).0, k).rowIds == PositionsWith(data, col, k, j + 1)
  {
    AddsShape(ix, data, data[j]);
    forall k ensures Before(WhenAdds(ix, data, data[j]).0, k).rowIds == PositionsWith(data, col, k, j + 1) {
      assert Before(ix, k).rowIds == PositionsWith(data, col, k, j);
    }
  }

  /** Building over rows that all have the column succeeds with a sound index. */
  lemma BuildSound(col: string, data: seq<Row>, m: nat)
    requires m <= |data| && forall i | 0 <= i < m :: col in data[i]
    ensures Build(col, data, m).1 == Pass && Sound(Build(col, data, m).0, data)
  {
    var P := (ix: IndexView, j: nat) => ix.col == col && Sound(ix, data);
    forall j: nat, ix: IndexView | j < m && P(ix, j)
      ensures WhenAdds(ix, data, data[j]).1 == Pass && P(WhenAdds(ix, data, data[j]).0, j + 1)
    {
      AddsShape(ix, data, data[j]);
      AddsSound(ix, data, data[j]);
    }
    BuildInduction(col, data, m, P);
  }

  /** A built index created its channels in the order their values first appear in the column. */
  lemma BuildKeys(col: string, data: seq<Row>, m: nat)
    requires m <= |data| && forall i | 0 <= i < m :: col in data[i]
    ensures Build(col, data, m).0.keys == FirstSeen(ColumnUpTo(col, data, m))
  {
    var P := (ix: IndexView, j: nat) => KeysSoFar(col, data, m, ix, j);
    KeysSteps(col, data, m);
    var e := IndexView(col, [], map[]);
    assert WellKeyed(e) && e.keys == FirstSeen(ColumnUpTo(col, data, 0));
    assert P(e, 0);
    BuildInduction(col, data, m, P);
  }

  /** Every step of `BuildKeys`, gathered for `BuildInduction`. */
  lemma KeysSteps(col: string, data: seq<Row>, m: nat)
    requires m <= |data| && forall i | 0 <= i < m :: col in data[i]
    ensures forall j: nat, ix: IndexView | j < m && KeysSoFar(col, data, m, ix, j) ::
              WhenAdds(ix, data, data[j]).1 == Pass && KeysSoFar(col, data, m, WhenAdds(ix, data, data[j]).0, j + 1)
  {
    forall j: nat, ix: IndexView | j < m && KeysSoFar(col, data, m, ix, j)
      ensures WhenAdds(ix, data, data[j]).1 == Pass && KeysSoFar(col, data, m, WhenAdds(ix, data, data[j]).0, j + 1)
    {
      KeysStep(col, data, m, j, ix);
    }
  }

  /** What `BuildKeys` carries from row to row: the first `j` rows' values, in first-seen order. */
  ghost predicate KeysSoFar(col: string, data: seq<Row>, m: nat, ix: IndexView, j: nat)
  {
    j <= m <= |data| && (forall i | 0 <= i < j :: col in data[i]) &&
    ix.col == col && WellKeyed(ix) && ix.keys == FirstSeen(ColumnUpTo(col, data, j))
  }

  /** One step of `BuildKeys`: filing row `j` passes and keeps the channels in first-seen order. */
  lemma KeysStep(col: string, data: seq<Row>, m: nat, j: nat, ix: IndexView)
    requires j < m <= |data| && (forall i | 0 <= i < m :: col in data[i])
    requires KeysSoFar(col, data, m, ix, j)
    ensures WhenAdds(ix, data, data[j]).1 == Pass && KeysSoFar(col, data, m, WhenAdds(ix, data, data[j]).0, j + 1)
  {
    AddsShape(ix, data, data[j]);
    AddsKeys(ix, col, data, j);
  }

  /** A built index holds the `list.index` position of each of the first `m` rows once overall. */
  lemma BuildPositions(col: string, data: seq<Row>, m: nat)
    requires m <= |data| && forall i | 0 <= i < m :: col in data[i]
    ensures var ix := Build(col, data, m).0;
            WellKeyed(ix) && multiset(Positions(ix.keys, ix.channels)) == multiset(FirstPositions(data)[..m])
  {
    var P := (ix: IndexView, j: nat) =>
      ix.col == col && WellKeyed(ix) && j <= m &&
      multiset(Positions(ix.keys, ix.channels)) == multiset(FirstPositions(data)[..j]);
    forall j: nat, ix: IndexView | j < m && P(ix, j)
      ensures WhenAdds(ix, data, data[j]).1 == Pass && P(WhenAdds(ix, data, data[j]).0, j + 1)
    {
      AddsShape(ix, data, data[j]);
      AddsFirstPositions(ix, col, data, j);
    }
    var e := IndexView(col, [], map[]);
    assert WellKeyed(e) && multiset(Positions(e.keys, e.channels)) == multiset(FirstPositions(data)[..0]);
    BuildInduction(col, data, m, P);
  }

  /** A built index files under each value `k` the positions of exactly the rows whose cell
      is `k`, in row order; a value no row has gets no channel. */
  lemma BuildChannels(col: string, data: seq<Row>, m: nat)
    requires m <= |data| && forall i | 0 <= i < m :: col in data[i]
    ensures forall k :: Before(Build(col, data, m).0, k).rowIds == PositionsWith(data, col, k, m)
  {
    var P := (ix: IndexView, j: nat) =>
      ix.col == col && WellKeyed(ix) && j <= m &&
      forall k :: Before(ix, k).rowIds == PositionsWith(data, col, k, j);
    forall j: nat, ix: IndexView | j < m && P(ix, j)
      ensures WhenAdds(ix, data, data[j]).1 == Pass && P(WhenAdds(ix, data, data[j]).0, j + 1)
    {
      AddsShape(ix, data, data[j]);
      AddsPositionsWith(ix, col, data, j);
    }
    var e := IndexView(col, [], map[]);
    assert WellKeyed(e) && forall k :: Before(e, k).rowIds == PositionsWith(data, col, k, 0);
    BuildInduction(col, data, m, P);
  }

  /** After a row without the column, the build does nothing more. */
  lemma {:induction false} BuildStopped(col: string, data: seq<Row>, j: nat, m: nat)
    requires j <= m <= |data| && Build(col, data, j).1.Fail?
    ensures Build(col, data, m) == Build(col, data, j)
  {
    if m > j {
      BuildStopped(col, data, j, m - 1);
      BuildHalted(col, data, m);
    }
  }

  /** Each row's position is among those filed under the row's cell. */
  lemma {:induction false} PositionsWithHas(data: seq<Row>, col: string, m: nat, i: nat)
    requires m <= |data| && forall j | 0 <= j < m :: col in data[j]
    requires i < m
    ensures IndexOf(data, data[i]) in PositionsWith(data, col, data[i][col], m)
  {
    var k := data[i][col];
    var prev := PositionsWith(data, col, k, m - 1);
    var tail := if data[m - 1][col] == k then [IndexOf(data, data[m - 1])] else [];
    assert PositionsWith(data, col, k, m) == prev + tail;
    if i < m - 1 {
      PositionsWithHas(data, col, m - 1, i);
    } else {
      assert tail == [IndexOf(data, data[i])];
    }
  }

  /** A built index agrees with the rows. */
  lemma BuildInv(col: string, data: seq<Row>)
    requires forall i | 0 <= i < |data| :: col in data[i]
    ensures Build(col, data, |data|).1 == Pass && Inv(Build(col, data, |data|).0, data)
  {
    BuildSound(col, data, |data|);
    BuildPositions(col, data, |data|);
    assert FirstPositions(data)[..|data|] == FirstPositions(data);
  }

  /** Every row's position ends up in the channel for the row's cell. */
  lemma BuildFilesEachRow(col: string, data: seq<Row>, i: nat)
    requires forall j | 0 <= j < |data| :: col in data[j]
    requires i < |data|
    ensures data[i][col] in Build(col, data, |data|).0.channels
    ensures IndexOf(data, data[i]) in Build(col, data, |data|).0.channels[data[i][col]].rowIds
  {
    BuildChannels(col, data, |data|);
    PositionsWithHas(data, col, |data|, i);
    assert IndexOf(data, data[i]) in Before(Build(col, data, |data|).0, data[i][col]).rowIds;
  }

  /** Whatever happens, the build keeps the index's column. */
  lemma {:induction false} BuildColumn(col: string, data: seq<Row>, m: nat)
    requires m <= |data|
    ensures Build(col, data, m).0.col == col
  {
    if m > 0 {
      BuildColumn(col, data, m - 1);
    }
  }

  /** A build stops with `KeyError` when some row lacks the column. */
  lemma {:induction false} BuildMissingColumn(col: string, data: seq<Row>, m: nat)
    requires m <= |data|
    requires exists i | 0 <= i < m :: col !in data[i]
    ensures Build(col, data, m).1 == Fail(KeyMissing)
  {
    if exists i | 0 <= i < m - 1 :: col !in data[i] {
      BuildMissingColumn(col, data, m - 1);
    } else {
      var i :| 0 <= i < m && col !in data[i];
      assert i == m - 1;
      BuildSound(col, data, m - 1);
      BuildColumn(col, data, m - 1);
      BuildNext(col, data, m);
    }
  }

  // ------------------------------------------------------ what `Index.pull` yields

  lemma {:induction false} RangeCount(n: nat, i: nat)
    requires i < n
    ensures multiset(seq(n, (j: nat) => j))[i] == 1
  {
    var s := seq(n, (j: nat) => j);
    if i < n - 1 {
      RangeCount(n - 1, i);
      assert s == seq(n - 1, (j: nat) => j) + [n - 1];
    } else {
      assert s == seq(n - 1, (j: nat) => j) + [n - 1];
      assert i !in seq(n - 1, (j: nat) => j);
    }
  }

  /** An index that agrees with the rows yields every row, each as often as it is stored
      (rows that are equal are yielded as copies of the first of them). */
  lemma Coverage(ix: IndexView, data: seq<Row>)
    requires Inv(ix, data)
    ensures IndexRows(ix, data).Success?
    ensures multiset(IndexRows(ix, data).value) == multiset(data)
  {
    var ids := Positions(ix.keys, ix.channels);
    forall i | 0 <= i < |ids| ensures ids[i] < |data| {
      PositionsMember(ix.keys, ix.channels, ids[i]);
      var k :| k in ix.keys && ids[i] in ix.channels[k].rowIds;
      assert ChannelSound(ix.channels[k], data, ix.col, k);
    }
    MapRowsPermutation<nat, Row>(At(data), ids, FirstPositions(data));
    LookupFirstPositions(data);
  }

  /** When no two rows are equal, every row position is held by exactly one channel, once. */
  lemma Partition(ix: IndexView, data: seq<Row>)
    requires Inv(ix, data) && Distinct(data)
    ensures forall i | 0 <= i < |data| :: multiset(Positions(ix.keys, ix.channels))[i] == 1
    ensures forall id | id in Positions(ix.keys, ix.channels) :: id < |data|
  {
    FirstPositionsDistinct(data);
    forall i | 0 <= i < |data| ensures multiset(Positions(ix.keys, ix.channels))[i] == 1 {
      RangeCount(|data|, i);
    }
    forall id | id in Positions(ix.keys, ix.channels) ensures id < |data| {
      assert id in multiset(FirstPositions(data));
      FirstPositionsFirst(data, id);
    }
  }

  /** Without repeats, `list.index` finds every row at its own position. */
  lemma FirstPositionsDistinct(data: seq<Row>)
    requires Distinct(data)
    ensures FirstPositions(data) == seq(|data|, (j: nat) => j)
  {
    forall i | 0 <= i < |data| ensures FirstPositions(data)[i] == i {
      IndexOfDistinct(data, i);
    }
  }

  /** A position `list.index` gives for some row is that of the first row equal to the row there. */
  lemma FirstPositionsFirst(data: seq<Row>, q: nat)
    requires q in FirstPositions(data)
    ensures q < |data| && IndexOf(data, data[q]) == q
  {
    var i :| 0 <= i < |data| && FirstPositions(data)[i] == q;
    assert data[q] == data[i];
  }

  // ------------------------------------------------------ the remove and update paths

  /** `table_remove(r)` takes `r` out of the rows before the index looks for it: when `r` was
      the only copy, the index raises `ValueError`, after creating a channel for `r[col]` if it
      had none. */
  lemma RemoveLastCopyFails(ix: IndexView, data: seq<Row>, r: Row)
    requires r in data && multiset(data)[r] == 1 && ix.col in r
    ensures WhenRemoves(ix, RemoveFirst(data, r), r) == (ChannelFor(ix, r[ix.col]), Fail(NotFound))
  {
    assert multiset(RemoveFirst(data, r))[r] == 0;
  }

  /** Over all indexes: the first index whose column `r` has raises `ValueError` and the rest are
      not notified. */
  lemma {:induction false} RemoveAllLastCopyFails(ixs: seq<IndexView>, data: seq<Row>, r: Row)
    requires r in data && multiset(data)[r] == 1
    requires |ixs| > 0 && forall i | 0 <= i < |ixs| :: ixs[i].col in r
    ensures RunAll(Reaction(RemoveFirst(data, r), Remove(r)), ixs).1 == Fail(NotFound)
    ensures RunAll(Reaction(RemoveFirst(data, r), Remove(r)), ixs).0[1..] == ixs[1..]
  {
    var step := Reaction(RemoveFirst(data, r), Remove(r));
    RemoveLastCopyFails(ixs[0], data, r);
    assert step(ixs[0]) == WhenRemoves(ixs[0], RemoveFirst(data, r), r);
    if |ixs| == 1 {
      assert ixs[..0] == [];
    } else {
      var prefix := ixs[..|ixs| - 1];
      RemoveAllLastCopyFails(prefix, data, r);
      assert prefix[1..] == ixs[1..|ixs| - 1];
      assert ixs[1..] == ixs[1..|ixs| - 1] + [ixs[|ixs| - 1]];
    }
  }

  /** `table_update(x, y)` overwrites `x` before the index looks for it: when `x` was the only
      copy and `y` differs from it, the index raises `ValueError`, whatever it holds. */
  lemma UpdateLastCopyFails(ix: IndexView, data: seq<Row>, x: Row, y: Row)
    requires x in data && multiset(data)[x] == 1 && x != y && ix.col in x && ix.col in y
    ensures WhenUpdates(ix, ReplaceFirst(data, x, y), x, y) == (ChannelFor(ix, x[ix.col]), Fail(NotFound))
  {
    assert multiset(ReplaceFirst(data, x, y))[x] == 0;
  }

  /** An index that agrees with the rows holds only `list.index` positions: each position it
      holds is that of the first row equal to the row there. */
  lemma HeldIsFirst(ix: IndexView, data: seq<Row>, k: Value)
    requires Inv(ix, data) && k in ix.channels
    ensures forall q | q in ix.channels[k].rowIds :: q < |data| && IndexOf(data, data[q]) == q
  {
    forall q | q in ix.channels[k].rowIds
      ensures q < |data| && IndexOf(data, data[q]) == q
    {
      PositionsHas(ix.keys, ix.channels, k, q);
      assert q in multiset(FirstPositions(data));
      FirstPositionsFirst(data, q);
    }
  }

  /** `table_update(x, y)` on an index that agrees with the rows always raises `ValueError`
      when `y` differs from `x`: either no copy of `x` is left, or the first one left is a
      later copy, whose position the index does not hold. Nothing but a new empty channel for
      `x[col]` changes. */
  lemma UpdateFails(ix: IndexView, data: seq<Row>, x: Row, y: Row)
    requires Inv(ix, data) && x in data && x != y && ix.col in x && ix.col in y
    ensures WhenUpdates(ix, ReplaceFirst(data, x, y), x, y) == (ChannelFor(ix, x[ix.col]), Fail(NotFound))
  {
    var after := ReplaceFirst(data, x, y);
    var k, p := x[ix.col], IndexOf(data, x);
    var ix1 := ChannelFor(ix, k);
    if x in after {
      var o := IndexOf(after, x);
      assert after[p] == y;
      assert forall j | 0 <= j < p :: after[j] == data[j] != x;
      assert o > p && data[o] == x;
      if k in ix.channels {
        HeldIsFirst(ix, data, k);
      }
      assert o !in ix1.channels[k].rowIds;
      assert ix1.channels[k := ix1.channels[k]] == ix1.channels;
    }
  }

  /** Over all indexes: when the first index agrees with the rows and has its column in `x`
      and `y`, `table_update(x, y)` raises `ValueError` there and the rest are not notified. */
  lemma UpdateAllFails(ixs: seq<IndexView>, data: seq<Row>, x: Row, y: Row)
    requires |ixs| > 0 && Inv(ixs[0], data) && ixs[0].col in x && ixs[0].col in y
    requires x in data && x != y
    ensures RunAll(Reaction(ReplaceFirst(data, x, y), Update(x, y)), ixs).1 == Fail(NotFound)
    ensures RunAll(Reaction(ReplaceFirst(data, x, y), Update(x, y)), ixs).0[1..] == ixs[1..]
  {
    var step := Reaction(ReplaceFirst(data, x, y), Update(x, y));
    UpdateFails(ixs[0], data, x, y);
    assert step(ixs[0]) == WhenUpdates(ixs[0], ReplaceFirst(data, x, y), x, y);
    RunAllFirstFails(step, ixs);
  }

  /** One build step while every row so far has the cell `k`: the single channel gains the
      position of the next row, which has that cell too. */
  lemma BuildOneKey(col: string, data: seq<Row>, m: nat, k: Value, ids: seq<nat>)
    requires 0 < m <= |data| && col in data[m - 1] && data[m - 1][col] == k
    requires Build(col, data, m - 1).1 == Pass
    requires m == 1 || (Build(col, data, m - 1).0.keys == [k] && Build(col, data, m - 1).0.channels.Keys == {k} &&
                        Build(col, data, m - 1).0.channels[k].rowIds == ids)
    requires m == 1 ==> ids == []
    ensures Build(col, data, m).1 == Pass && Build(col, data, m).0.keys == [k] && Build(col, data, m).0.channels.Keys == {k}
    ensures Build(col, data, m).0.channels[k].rowIds == ids + [IndexOf(data, data[m - 1])]
  {
    var prev := Build(col, data, m - 1).0;
    BuildNext(col, data, m);
    BuildColumn(col, data, m - 1);
    assert WellKeyed(prev) by {
      if m == 1 {
        assert prev == IndexView(col, [], map[]);
      }
    }
    AddsShape(prev, data, data[m - 1]);
  }

  /** The index built on `[x, z, x]`, the rows sharing their cell, has one channel, `[0, 1, 0]`. */
  lemma BuildXZX(col: string, x: Row, z: Row)
    requires col in x && col in z && x[col] == z[col] && x != z
    ensures var ix := Build(col, [x, z, x], 3);
            ix.1 == Pass && ix.0.col == col && ix.0.keys == [x[col]] && ix.0.channels.Keys == {x[col]} &&
            ix.0.channels[x[col]].rowIds == [0, 1, 0]
  {
    BuildColumn(col, [x, z, x], 3);
    var data, k := [x, z, x], x[col];
    var ids1 := [] + [IndexOf(data, data[0])];
    var ids2 := ids1 + [IndexOf(data, data[1])];
    BuildOneKey(col, data, 1, k, []);
    BuildOneKey(col, data, 2, k, ids1);
    BuildOneKey(col, data, 3, k, ids2);
    assert IndexOf(data, x) == 0 && IndexOf(data, z) == 1;
    assert ids2 + [IndexOf(data, data[2])] == [0, 1, 0];
  }

  /** A remove that goes through can leave the index disagreeing with the rows. The index built
      on `[x, z, x]`, with `x` and `z` sharing their cell, holds `[0, 1, 0]`; `table_remove(x)`
      leaves the rows `[z, x]`, and looking up `x` there finds position 1, which is `z`'s. The
      channel keeps `[0, 0]`, so `Index.pull` yields `z` twice and never `x`. */
  lemma RemoveMisfiles(col: string, x: Row, z: Row)
    requires col in x && col in z && x[col] == z[col] && x != z
    ensures var ix := Build(col, [x, z, x], 3);
            var after := WhenRemoves(ix.0, RemoveFirst([x, z, x], x), x);
            ix.1 == Pass && Inv(ix.0, [x, z, x]) && x[col] in ix.0.channels && ix.0.channels[x[col]].rowIds == [0, 1, 0] &&
            RemoveFirst([x, z, x], x) == [z, x] && after.1 == Pass &&
            after.0.keys == [x[col]] && x[col] in after.0.channels && after.0.channels[x[col]].rowIds == [0, 0] &&
            IndexRows(after.0, [z, x]) == Success([z, z]) && !Inv(after.0, [z, x])
  {
    var data, k := [x, z, x], x[col];
    assert |data| == 3 && forall i | 0 <= i < |data| :: col in data[i];
    BuildInv(col, data);
    BuildXZX(col, x, z);
    var ix := Build(col, data, 3).0;
    assert RemoveFirst(data, x) == [z, x] by {
      assert IndexOf(data, x) == 0;
      assert data[..0] + data[1..] == [z, x];
    }
    RemoveFromZX(ix, [z, x], x, z);
    var after := WhenRemoves(ix, [z, x], x).0;
    PullsFirstTwice(after, [z, x], x, z);
    MissesSecond(after, [z, x], x, z);
  }

  /** The remove step of `RemoveMisfiles`: on the rows `[z, x]`, `x` is found at position 1,
      which the channel `[0, 1, 0]` gives up. */
  lemma RemoveFromZX(ix: IndexView, data: seq<Row>, x: Row, z: Row)
    requires data == [z, x] && x != z && ix.col in x && ix.keys == [x[ix.col]] && ix.channels.Keys == {x[ix.col]}
    requires ix.channels[x[ix.col]].rowIds == [0, 1, 0]
    ensures var after := WhenRemoves(ix, data, x);
            after.1 == Pass && after.0.col == ix.col && after.0.keys == [x[ix.col]] && x[ix.col] in after.0.channels &&
            after.0.channels[x[ix.col]].rowIds == [0, 0]
  {
    assert IndexOf(data, x) == 1;
    assert IndexOf([0, 1, 0], 1) == 1;
    assert [0, 1, 0][..1] + [0, 1, 0][2..] == [0, 0];
  }

  /** A single channel `[0, 0]` on the rows `[z, x]` pulls `z` twice. */
  lemma PullsFirstTwice(ix: IndexView, data: seq<Row>, x: Row, z: Row)
    requires data == [z, x] && ix.col in x && ix.keys == [x[ix.col]] && x[ix.col] in ix.channels
    requires ix.channels[x[ix.col]].rowIds == [0, 0]
    ensures IndexRows(ix, data) == Success([z, z])
  {
    OneKeyPositions(ix);
    var r := MapRows(At(data), [0, 0]);
    assert r[0] == At(data)(0) == z && r[1] == At(data)(0) == z;
    assert r == [z, z];
  }

  /** A single channel `[0, 0]` does not agree with two different rows `[z, x]`. */
  lemma MissesSecond(ix: IndexView, data: seq<Row>, x: Row, z: Row)
    requires data == [z, x] && x != z && ix.col in x && ix.keys == [x[ix.col]] && x[ix.col] in ix.channels
    requires ix.channels[x[ix.col]].rowIds == [0, 0]
    ensures !Inv(ix, data)
  {
    OneKeyPositions(ix);
    FirstPositionsTwo(z, x);
    assert multiset(Positions(ix.keys, ix.channels))[1] == 0;
  }

  /** An index with one channel holds that channel's positions. */
  lemma OneKeyPositions(ix: IndexView)
    requires |ix.keys| == 1 && ix.keys[0] in ix.channels
    ensures Positions(ix.keys, ix.channels) == ix.channels[ix.keys[0]].rowIds
  {
    assert ix.keys[..0] == [];
  }

  /** Two different rows are found at their own positions. */
  lemma FirstPositionsTwo(z: Row, x: Row)
    requires x != z
    ensures FirstPositions([z, x]) == [0, 1]
  {
    assert IndexOf([z, x], x) == 1 && IndexOf([z, x], z) == 0;
  }

  /** The index built on `[x, x, a, x]`, the rows sharing their cell, has one channel, `[0, 0, 2, 0]`. */
  lemma BuildXXAX(col: string, x: Row, a: Row)
    requires col in x && col in a && x[col] == a[col] && x != a
    ensures var ix := Build(col, [x, x, a, x], 4);
            ix.1 == Pass && ix.0.col == col && ix.0.keys == [x[col]] && ix.0.channels.Keys == {x[col]} &&
            ix.0.channels[x[col]].rowIds == [0, 0, 2, 0]
  {
    var data, k := [x, x, a, x], x[col];
    BuildXXA(col, x, a);
    IndexOfXXAX(x, a);
    assert data[3] == x && IndexOf(data, data[3]) == 0;
    BuildOneKey(col, data, 4, k, [0, 0, 2]);
    BuildColumn(col, data, 4);
  }

  /** The first three steps of `BuildXXAX`. */
  lemma BuildXXA(col: string, x: Row, a: Row)
    requires col in x && col in a && x[col] == a[col] && x != a
    ensures var ix := Build(col, [x, x, a, x], 3);
            ix.1 == Pass && ix.0.keys == [x[col]] && ix.0.channels.Keys == {x[col]} &&
            ix.0.channels[x[col]].rowIds == [0, 0, 2]
  {
    var data, k := [x, x, a, x], x[col];
    var ids1 := [] + [IndexOf(data, data[0])];
    var ids2 := ids1 + [IndexOf(data, data[1])];
    BuildOneKey(col, data, 1, k, []);
    BuildOneKey(col, data, 2, k, ids1);
    BuildOneKey(col, data, 3, k, ids2);
    IndexOfXXAX(x, a);
    assert ids2 + [IndexOf(data, data[2])] == [0, 0, 2];
  }

  /** Where `list.index` finds the rows of `[x, x, a, x]`. */
  lemma IndexOfXXAX(x: Row, a: Row)
    requires x != a
    ensures IndexOf([x, x, a, x], x) == 0 && IndexOf([x, x, a, x], a) == 2
  {
    assert [x, x, a, x][1..] == [x, a, x] && [x, a, x][1..] == [a, x];
  }

  /** Once a remove has left the index disagreeing with the rows, an update can go through and
      misfile a row. The index built on `[x, x, a, x]` (one cell value) holds `[0, 0, 2, 0]`;
      `table_remove(x)` leaves `[x, a, x]` and `[0, 2, 0]`, so position 2, a later copy of `x`,
      is now held; `table_update(x, w)`, with `w`'s cell different, then goes through, and the
      channel for the old value holds `w`'s position 0. */
  lemma UpdateMisfilesReachable(col: string, x: Row, a: Row, w: Row)
    requires col in x && col in a && col in w && x[col] == a[col] && w[col] != x[col] && x != a
    ensures Build(col, [x, x, a, x], 4).1 == Pass && Inv(Build(col, [x, x, a, x], 4).0, [x, x, a, x])
    ensures RemoveFirst([x, x, a, x], x) == [x, a, x] && WhenRemoves(Build(col, [x, x, a, x], 4).0, [x, a, x], x).1 == Pass
    ensures ReplaceFirst([x, a, x], x, w) == [w, a, x]
    ensures var removed := WhenRemoves(Build(col, [x, x, a, x], 4).0, [x, a, x], x).0;
            WhenUpdates(removed, [w, a, x], x, w).1 == Pass && !Sound(WhenUpdates(removed, [w, a, x], x, w).0, [w, a, x])
  {
    RemoveAfterBuildXXAX(col, x, a);
    OverwriteFirstOfXAX(x, a, w);
    UpdateThroughStaleIndex(WhenRemoves(Build(col, [x, x, a, x], 4).0, [x, a, x], x).0, x, a, w);
    BuildXXAXAgrees(col, x, a);
  }

  /** The index built on `[x, x, a, x]` agrees with its rows. */
  lemma BuildXXAXAgrees(col: string, x: Row, a: Row)
    requires col in x && col in a
    ensures Build(col, [x, x, a, x], 4).1 == Pass && Inv(Build(col, [x, x, a, x], 4).0, [x, x, a, x])
  {
    var data := [x, x, a, x];
    assert |data| == 4 && forall i | 0 <= i < |data| :: col in data[i];
    BuildInv(col, data);
  }

  /** The first two steps of `UpdateMisfilesReachable`: the build and the remove. */
  lemma RemoveAfterBuildXXAX(col: string, x: Row, a: Row)
    requires col in x && col in a && x[col] == a[col] && x != a
    ensures var built := Build(col, [x, x, a, x], 4);
            var removed := WhenRemoves(built.0, [x, a, x], x);
            built.1 == Pass && RemoveFirst([x, x, a, x], x) == [x, a, x] &&
            removed.1 == Pass && removed.0.col == col && x[col] in removed.0.channels &&
            removed.0.channels[x[col]].rowIds == [0, 2, 0]
  {
    var data := [x, x, a, x];
    BuildXXAX(col, x, a);
    RemoveFromXAX(Build(col, data, 4).0, x, a);
    assert IndexOf(data, x) == 0;
    assert data[..0] + data[1..] == [x, a, x];
  }

  /** The remove step of `UpdateMisfilesReachable`: on the rows `[x, a, x]`, `x` is found at
      position 0, and the channel `[0, 0, 2, 0]` gives up its first 0. */
  lemma RemoveFromXAX(ix: IndexView, x: Row, a: Row)
    requires ix.col in x && x[ix.col] in ix.channels && ix.channels[x[ix.col]].rowIds == [0, 0, 2, 0]
    ensures var after := WhenRemoves(ix, [x, a, x], x);
            after.1 == Pass && after.0.col == ix.col && x[ix.col] in after.0.channels &&
            after.0.channels[x[ix.col]].rowIds == [0, 2, 0]
  {
    assert IndexOf([x, a, x], x) == 0;
    assert [0, 0, 2, 0][..0] + [0, 0, 2, 0][1..] == [0, 2, 0];
  }

  /** `table_update(x, w)` on the rows `[x, a, x]` overwrites the first `x`. */
  lemma OverwriteFirstOfXAX(x: Row, a: Row, w: Row)
    ensures ReplaceFirst([x, a, x], x, w) == [w, a, x]
  {
  }

  /** The update step of `UpdateMisfilesReachable`: a single channel `[0, 2, 0]` on the rows
      `[w, a, x]`. */
  lemma UpdateThroughStaleIndex(ix: IndexView, x: Row, a: Row, w: Row)
    requires ix.col in x && ix.col in w && w[ix.col] != x[ix.col] && x != a
    requires x[ix.col] in ix.channels && ix.channels[x[ix.col]].rowIds == [0, 2, 0]
    ensures WhenUpdates(ix, [w, a, x], x, w).1 == Pass && !Sound(WhenUpdates(ix, [w, a, x], x, w).0, [w, a, x])
  {
    var data := [w, a, x];
    assert w != x;
    assert IndexOf(data, x) == 2 && IndexOf(data, w) == 0;
    assert 2 in ix.channels[x[ix.col]].rowIds;
    UpdateMisfiles(ix, data, x, w);
  }

  /** `when_table_updates` only touches the channel for the old value: when the update changes
      the indexed cell and goes through, the channel for the old value now holds the position of
      a row whose cell is the new value, so the index is no longer sound. By `UpdateFails` this
      needs an index that already disagrees with the rows. */
  lemma UpdateMisfiles(ix: IndexView, data: seq<Row>, x: Row, y: Row)
    requires ix.col in x && ix.col in y && x[ix.col] != y[ix.col]
    requires WhenUpdates(ix, data, x, y).1 == Pass
    ensures !Sound(WhenUpdates(ix, data, x, y).0, data)
  {
    var k := x[ix.col];
    var ix' := WhenUpdates(ix, data, x, y).0;
    var n := IndexOf(data, y);
    assert n in ix'.channels[k].rowIds;
    assert data[n][ix.col] != k;
  }
}
