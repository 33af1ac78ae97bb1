/** The database layer as objects: a `Channel` per indexed value, an `Index` per indexed
    column and a `Table` that owns its rows and notifies its indexes. Every method is proved
    against the value-level functions of `Indexing`, where the invariants are proved. */
module Database {
  import opened Deltas
  import opened Errors
  import opened PyLists
  import opened PubSub
  import opened Operators
  import opened Collections
  import opened Indexing

  /** The rows of a table that hold one value in an indexed column, kept as positions into the
      table's rows, and a publisher of their changes. The table's rows are passed in as `data`. */
  class Channel {
    var rowIds: seq<nat>
    const out: Observable<Row>

    ghost function View(): ChannelView
      reads this, out
    {
      ChannelView(rowIds, out.State())
    }

    constructor ()
      ensures fresh(out) && View() == NewChannel()
    {
      rowIds := [];
      out := new Observable();
    }

    /** `when_row_hits_index`. */
    method WhenRowHitsIndex(data: seq<Row>, id: nat) returns (r: Outcome)
      modifies this`rowIds, out`emitted, out`delivered
      ensures (View(), r) == Hit(old(View()), data, id)
    {
      rowIds := rowIds + [id];
      if id >= |data| {
        return Fail(OutOfRange);
      }
      out.PublishAdd(data[id]);
      r := Pass;
    }

    /** `when_row_misses_index`. */
    method WhenRowMissesIndex(data: seq<Row>, id: nat) returns (r: Outcome)
      modifies this`rowIds, out`emitted, out`delivered
      ensures (View(), r) == Miss(old(View()), data, id)
    {
      if id !in rowIds {
        return Fail(NotFound);
      }
      rowIds := RemoveFirst(rowIds, id);
      if id >= |data| {
        return Fail(OutOfRange);
      }
      out.PublishRemove(data[id]);
      r := Pass;
    }

    /** `when_row_updates_index`. */
    method WhenRowUpdatesIndex(data: seq<Row>, o: nat, n: nat) returns (r: Outcome)
      modifies this`rowIds, out`emitted, out`delivered
      ensures (View(), r) == Move(old(View()), data, o, n)
    {
      if o !in rowIds {
        return Fail(NotFound);
      }
      rowIds := RemoveFirst(rowIds, o);
      rowIds := rowIds + [n];
      if o >= |data| {
        return Fail(OutOfRange);
      }
      out.PublishRemove(data[o]);
      if n >= |data| {
        return Fail(OutOfRange);
      }
      out.PublishAdd(data[n]);
      r := Pass;
    }

    /** `pull`: the table's rows at the channel's positions, in the channel's order;
        `IndexError` when a position is past the end of the rows. */
    function Pull(data: seq<Row>): (r: Result<seq<Row>>)
      reads this
      ensures r.Success? <==> forall i | 0 <= i < |rowIds| :: rowIds[i] < |data|
      ensures r.Success? ==> |r.value| == |rowIds| && forall i | 0 <= i < |rowIds| :: r.value[i] == data[rowIds[i]]
      ensures r.Failure? ==> r.error == OutOfRange
    {
      if forall i | 0 <= i < |rowIds| :: rowIds[i] < |data| then Success(MapRows(At(data), rowIds))
      else Failure(OutOfRange)
    }
  }

  lemma MapExtend<K, V>(before: map<K, V>, now: map<K, V>, k: K, v: V)
    requires now.Keys == before.Keys + {k} && now[k] == v
    requires forall k' | k' in before && k' != k :: now[k'] == before[k']
    ensures now == before[k := v]
  {
  }

  /** Each channel and its publisher lie in `repr` and are owned by the channel's value, so no
      two values share a channel or a publisher. */
  predicate Owns(channels: map<Value, Channel>, owner: map<object, Value>, repr: set<object>)
  {
    forall k | k in channels ::
      channels[k] in repr && channels[k].out in repr &&
      channels[k] in owner && owner[channels[k]] == k && channels[k].out in owner && owner[channels[k].out] == k
  }

  /** A channel and publisher from outside `repr`, owned by a new value, keep the ownership. */
  lemma OwnsExtend(channels: map<Value, Channel>, owner: map<object, Value>, repr: set<object>, k: Value, c: Channel)
    requires Owns(channels, owner, repr) && k !in channels && c !in repr && c.out !in repr
    ensures Owns(channels[k := c], owner[c := k][c.out := k], repr + {c, c.out})
  {
  }

  /** `keys` lists exactly the values that have a channel. */
  ghost predicate Listed(keys: seq<Value>, channels: map<Value, Channel>)
  {
    forall k :: k in keys <==> k in channels
  }

  /** An index on one column: a channel per value seen in the column, in creation order. */
  class Index {
    const col: string
    /** The keys of `channels_by_indexed_col_value` in insertion order. */
    var keys: seq<Value>
    var channels: map<Value, Channel>
    ghost var Repr: set<object>
    /** The value whose channel each channel object and publisher belongs to. */
    ghost var owner: map<object, Value>

    ghost predicate Valid()
      reads this, Repr
    {
      this in Repr && Owns(channels, owner, Repr) && Listed(keys, channels)
    }

    ghost function View(): (v: IndexView)
      reads this, Repr
      requires Valid()
    {
      IndexView(col, keys, map k | k in channels :: channels[k].View())
    }

    /** An index with no channel yet; `Create` fills it from the table's rows. */
    constructor (col: string)
      ensures Valid() && fresh(Repr)
      ensures View() == IndexView(col, [], map[])
    {
      this.col := col;
      keys := [];
      channels := map[];
      Repr := {this};
      owner := map[];
    }

    /** Reading `channels_by_indexed_col_value[k]`, which creates the channel when missing. */
    method ChannelAt(k: Value) returns (c: Channel)
      requires Valid()
      modifies this`keys, this`channels, this`Repr, this`owner
      ensures Valid() && fresh(Repr - old(Repr))
      ensures k in channels && c == channels[k]
      ensures View() == ChannelFor(old(View()), k)
    {
      if k in channels {
        c := channels[k];
      } else {
        c := AddChannel(k);
      }
    }

    /** The `defaultdict` creating the missing channel for `k`, last in key order. */
    method AddChannel(k: Value) returns (c: Channel)
      requires Valid() && k !in channels
      modifies this`keys, this`channels, this`Repr, this`owner
      ensures Valid() && fresh(Repr - old(Repr))
      ensures k in channels && c == channels[k]
      ensures View() == old(View()).(keys := old(keys) + [k], channels := old(View()).channels[k := NewChannel()])
    {
      c := new Channel();
      Attach(k, c);
    }

    /** Files the new channel `c` under `k`: the view gains an empty channel for `k`, last. */
    method Attach(k: Value, c: Channel)
      requires Valid() && k !in channels && c !in Repr && c.out !in Repr && c.View() == NewChannel()
      modifies this`keys, this`channels, this`Repr, this`owner
      ensures Valid() && Repr == old(Repr) + {c, c.out}
      ensures k in channels && c == channels[k]
      ensures View() == old(View()).(keys := old(keys) + [k], channels := old(View()).channels[k := NewChannel()])
    {
      OwnsExtend(channels, owner, Repr, k, c);
      channels := channels[k := c];
      keys := keys + [k];
      Repr := Repr + {c, c.out};
      owner := owner[c := k][c.out := k];
      ChannelAttached(k, c);
    }

    /** The view after filing a new empty channel under `k`, when no old channel changed. */
    twostate lemma ChannelAttached(k: Value, new c: Channel)
      requires old(Valid()) && Valid() && k !in old(channels)
      requires channels == old(channels)[k := c] && keys == old(keys) + [k] && c.View() == NewChannel()
      requires forall k' | k' in old(channels) :: channels[k'].View() == old(channels[k'].View())
      ensures View() == old(View()).(keys := old(keys) + [k], channels := old(View()).channels[k := NewChannel()])
    {
      var before, now := old(View().channels), View().channels;
      assert forall k' | k' in before :: now[k'] == before[k'];
      MapExtend(before, now, k, NewChannel());
    }

    /** Only the channel for `k` changed: the view changes at `k` alone. */
    twostate lemma OneChannelChanged(k: Value)
      requires old(Valid()) && Valid() && unchanged(this) && k in channels
      requires forall k' | k' in channels && k' != k :: channels[k'].View() == old(channels[k'].View())
      ensures View() == old(View()).(channels := old(View()).channels[k := channels[k].View()])
    {
      var before, now := old(View().channels), View().channels;
      MapExtend(before, now, k, channels[k].View());
    }

    /** The channel for `k` runs `when_row_hits_index(id)`. */
    method HitAt(k: Value, data: seq<Row>, id: nat) returns (res: Outcome)
      requires Valid() && k in channels
      modifies channels[k], channels[k].out
      ensures Valid() && unchanged(this)
      ensures View() == old(View()).(channels := old(View()).channels[k := Hit(old(View()).channels[k], data, id).0])
      ensures res == Hit(old(View()).channels[k], data, id).1
    {
      var c := channels[k];
      res := c.WhenRowHitsIndex(data, id);
      forall k' | k' in channels && k' != k
        ensures channels[k'].View() == old(channels[k'].View())
      {
        assert owner[channels[k']] == k' && owner[channels[k'].out] == k';
      }
      OneChannelChanged(k);
    }

    /** The channel for `k` runs `when_row_misses_index(id)`. */
    method MissAt(k: Value, data: seq<Row>, id: nat) returns (res: Outcome)
      requires Valid() && k in channels
      modifies channels[k], channels[k].out
      ensures Valid() && unchanged(this)
      ensures View() == old(View()).(channels := old(View()).channels[k := Miss(old(View()).channels[k], data, id).0])
      ensures res == Miss(old(View()).channels[k], data, id).1
    {
      var c := channels[k];
      res := c.WhenRowMissesIndex(data, id);
      forall k' | k' in channels && k' != k
        ensures channels[k'].View() == old(channels[k'].View())
      {
        assert owner[channels[k']] == k' && owner[channels[k'].out] == k';
      }
      OneChannelChanged(k);
    }

    /** The channel for `k` runs `when_row_updates_index(o, n)`. */
    method MoveAt(k: Value, data: seq<Row>, o: nat, n: nat) returns (res: Outcome)
      requires Valid() && k in channels
      modifies channels[k], channels[k].out
      ensures Valid() && unchanged(this)
      ensures View() == old(View()).(channels := old(View()).channels[k := Move(old(View()).channels[k], data, o, n).0])
      ensures res == Move(old(View()).channels[k], data, o, n).1
    {
      var c := channels[k];
      res := c.WhenRowUpdatesIndex(data, o, n);
      forall k' | k' in channels && k' != k
        ensures channels[k'].View() == old(channels[k'].View())
      {
        assert owner[channels[k']] == k' && owner[channels[k'].out] == k';
      }
      OneChannelChanged(k);
    }

    /** `when_table_adds(r)`. */
    method WhenTableAdds(data: seq<Row>, r: Row) returns (res: Outcome)
      requires Valid()
      modifies Repr
      ensures Valid() && fresh(Repr - old(Repr))
      ensures (View(), res) == WhenAdds(old(View()), data, r)
    {
      if col !in r {
        return Fail(KeyMissing);
      }
      var c := ChannelAt(r[col]);
      if r !in data {
        return Fail(NotFound);
      }
      res := HitAt(r[col], data, IndexOf(data, r));
    }

    /** `when_table_removes(r)`. */
    method WhenTableRemoves(data: seq<Row>, r: Row) returns (res: Outcome)
      requires Valid()
      modifies Repr
      ensures Valid() && fresh(Repr - old(Repr))
      ensures (View(), res) == WhenRemoves(old(View()), data, r)
    {
      if col !in r {
        return Fail(KeyMissing);
      }
      var c := ChannelAt(r[col]);
      if r !in data {
        return Fail(NotFound);
      }
      res := MissAt(r[col], data, IndexOf(data, r));
    }

    /** `when_table_updates(x, y)`: the new value `y[col]` is read (a `KeyError` when missing)
        but only the channel for the old value is touched. */
    method WhenTableUpdates(data: seq<Row>, x: Row, y: Row) returns (res: Outcome)
      requires Valid()
      modifies Repr
      ensures Valid() && fresh(Repr - old(Repr))
      ensures (View(), res) == WhenUpdates(old(View()), data, x, y)
    {
      if col !in x || col !in y {
        return Fail(KeyMissing);
      }
      var c := ChannelAt(x[col]);
      if x !in data || y !in data {
        return Fail(NotFound);
      }
      res := MoveAt(x[col], data, IndexOf(data, x), IndexOf(data, y));
    }

    /** The index's reaction to the table publishing `d`. */
    method WhenTable(data: seq<Row>, d: Delta<Row>) returns (res: Outcome)
      requires Valid()
      modifies Repr
      ensures Valid() && fresh(Repr - old(Repr))
      ensures (View(), res) == Reaction(data, d)(old(View()))
    {
      match d
      case Add(r) => res := WhenTableAdds(data, r);
      case Remove(r) => res := WhenTableRemoves(data, r);
      case Update(x, y) => res := WhenTableUpdates(data, x, y);
    }

    /** `Index(col, table)`: a new index that files every row of `data` in order; a row without
        the column raises `KeyError` and no index is returned to the caller. */
    static method Create(col: string, data: seq<Row>) returns (ix: Index, res: Outcome)
      ensures fresh(ix.Repr) && ix.Valid() && ix.col == col
      ensures (ix.View(), res) == Build(col, data, |data|)
    {
      ix := new Index(col);
      res := ix.FileRows(data);
    }

    /** The constructor's loop over the table's rows. */
    method FileRows(data: seq<Row>) returns (res: Outcome)
      requires Valid() && View() == IndexView(col, [], map[])
      modifies Repr
      ensures Valid() && fresh(Repr - old(Repr))
      ensures (View(), res) == Build(col, data, |data|)
    {
      var i := 0;
      res := Pass;
      while i < |data| && res == Pass
        invariant i <= |data|
        invariant Valid() && fresh(Repr - old(Repr))
        invariant (View(), res) == Build(col, data, i)
      {
        res := FileNext(data, i + 1);
        i := i + 1;
      }
      if res.Fail? {
        BuildStopped(col, data, i, |data|);
      }
    }

    /** One step of the constructor's loop: `when_table_adds(data[m - 1])`. */
    method FileNext(data: seq<Row>, m: nat) returns (res: Outcome)
      requires Valid() && 0 < m <= |data| && Build(col, data, m - 1).1 == Pass && View() == Build(col, data, m - 1).0
      modifies Repr
      ensures Valid() && fresh(Repr - old(Repr))
      ensures (View(), res) == Build(col, data, m)
    {
      BuildNext(col, data, m);
      res := WhenTableAdds(data, data[m - 1]);
    }

    /** The positions of the channels for `ks`, channel after channel. */
    function Ids(ks: seq<Value>): (ids: seq<nat>)
      reads this, Repr
      requires Valid() && forall k | k in ks :: k in channels
      ensures ids == Positions(ks, View().channels)
    {
      if ks == [] then [] else Ids(ks[..|ks| - 1]) + channels[ks[|ks| - 1]].rowIds
    }

    /** `pull`: the rows of every channel, channels in creation order. */
    function Pull(data: seq<Row>): (r: Result<seq<Row>>)
      reads this, Repr
      requires Valid()
      ensures r == IndexRows(View(), data)
    {
      var ids := Ids(keys);
      if forall i | 0 <= i < |ids| :: ids[i] < |data| then Success(MapRows(At(data), ids))
      else Failure(OutOfRange)
    }
  }

  // ------------------------------------------------------ the table

  /** `verify_row` accepts `row`: every key is a declared column and every declared column
      other than `"id"` is present. */
  predicate RowFits(columns: seq<string>, row: Row)
  {
    (forall c | c in row :: c in columns) && (forall c | c in columns :: c == "id" || c in row)
  }

  /** The first declared column, other than `"id"`, that `row` lacks. */
  function FirstMissing(columns: seq<string>, row: Row): (r: Option<string>)
    ensures r.None? <==> forall c | c in columns :: c == "id" || c in row
    ensures r.Some? ==> r.value in columns && r.value != "id" && r.value !in row
    ensures r.Some? ==> forall j | 0 <= j < IndexOf(columns, r.value) :: columns[j] == "id" || columns[j] in row
  {
    if columns == [] then None
    else if columns[0] != "id" && columns[0] !in row then Some(columns[0])
    else
      var r := FirstMissing(columns[1..], row);
      assert forall c | c in columns :: c == columns[0] || c in columns[1..];
      r
  }

  /** The row `insert` stores: `row` with `"id"` set to the number of rows already stored. */
  function Stamped(row: Row, count: nat): (r: Row)
    ensures "id" in r && r["id"] == Int(count)
    ensures forall c | c in row && c != "id" :: c in r && r[c] == row[c]
    ensures r.Keys == row.Keys + {"id"}
  {
    row["id" := Int(count)]
  }

  /** Where `index_on` finds an index on `col`: the first one, or the end of the list. */
  function FindIndex(views: seq<IndexView>, col: string): (i: nat)
    ensures i <= |views|
    ensures i < |views| ==> views[i].col == col
    ensures forall j | 0 <= j < i :: views[j].col != col
  {
    if views == [] then 0
    else if views[0].col == col then 0
    else 1 + FindIndex(views[1..], col)
  }

  /** A `Table`: a collection of rows (`Collection`, which publishes each change) with a name,
      declared columns and the indexes built on it so far. */
  class Table {
    const name: string
    const columns: seq<string>
    /** The inherited collection: `data` and the table's own publisher. */
    const rows: Collection<Row>
    var indexes: seq<Index>
    /** The indexes as values, index by index. */
    ghost var views: seq<IndexView>
    ghost var Repr: set<object>

    /** The rows replay the table's publications, each index is valid, lies in `Repr` apart from
        the table and its rows and from every other index, and `views` says what each holds. */
    ghost predicate Valid()
      reads this, Repr
    {
      this in Repr && rows in Repr && rows.out in Repr && rows.Valid() &&
      |views| == |indexes| &&
      (forall i | 0 <= i < |indexes| ::
         indexes[i] in Repr && indexes[i].Repr <= Repr && this !in indexes[i].Repr &&
         rows !in indexes[i].Repr && rows.out !in indexes[i].Repr &&
         indexes[i].Valid() && indexes[i].View() == views[i]) &&
      (forall i, j | 0 <= i < j < |indexes| :: indexes[i].Repr !! indexes[j].Repr)
    }

    /** `Table(name, columns, data)`: the rows as given and no index. */
    constructor (name: string, columns: seq<string>, data: seq<Row>)
      ensures Valid() && fresh(Repr)
      ensures this.name == name && this.columns == columns
      ensures rows.data == data && rows.out.emitted == [] && indexes == [] && views == []
    {
      this.name := name;
      this.columns := columns;
      var c := new Collection(data);
      rows := c;
      indexes := [];
      views := [];
      Repr := {this, c, c.out};
    }

    /** `index_on(col)`: the first index on `col` when there is one, with nothing changed;
        otherwise a new index built from the rows, appended last. A row without `col` makes
        the build raise `KeyError` and no index is kept. */
    method IndexOn(col: string) returns (ix: Index?, res: Outcome)
      requires Valid()
      modifies this`indexes, this`views, this`Repr
      ensures Valid() && fresh(Repr - old(Repr))
      ensures FindIndex(old(views), col) < |old(views)| ==>
                res == Pass && indexes == old(indexes) && views == old(views) && ix == indexes[FindIndex(old(views), col)]
      ensures FindIndex(old(views), col) == |old(views)| ==> res == Build(col, rows.data, |rows.data|).1
      ensures FindIndex(old(views), col) == |old(views)| && res.Pass? ==>
                ix != null && fresh(ix) && indexes == old(indexes) + [ix] &&
                views == old(views) + [Build(col, rows.data, |rows.data|).0]
      ensures res.Fail? ==> ix == null && indexes == old(indexes) && views == old(views)
      ensures res.Pass? ==> FindIndex(views, col) < |views| && ix == indexes[FindIndex(views, col)]
    {
      var i := Find(col);
      if i < |indexes| {
        ix, res := indexes[i], Pass;
      } else {
        ix, res := AddIndex(col);
      }
    }

    /** The `else` branch of `index_on`: build an index on `col` over the current rows and
        keep it when the build succeeds; the new index is then the first one on `col`. */
    method AddIndex(col: string) returns (ix: Index?, res: Outcome)
      requires Valid() && FindIndex(views, col) == |views|
      modifies this`indexes, this`views, this`Repr
      ensures Valid() && fresh(Repr - old(Repr))
      ensures res == Build(col, rows.data, |rows.data|).1
      ensures res.Pass? ==> ix != null && fresh(ix) && indexes == old(indexes) + [ix] &&
                            views == old(views) + [Build(col, rows.data, |rows.data|).0] &&
                            FindIndex(views, col) == |old(views)|
      ensures res.Fail? ==> ix == null && indexes == old(indexes) && views == old(views)
    {
      var made;
      made, res := Index.Create(col, rows.data);
      if res.Pass? {
        FindIndexSnoc(views, col, made.View());
        Append(made, made.View());
        ix := made;
      } else {
        ix := null;
      }
    }

    /** The search loop of `index_on`: the position of the first index on `col`, or the
        number of indexes when there is none. */
    method Find(col: string) returns (i: nat)
      requires Valid()
      ensures i == FindIndex(views, col)
    {
      i := 0;
      while i < |indexes| && indexes[i].col != col
        invariant i <= |indexes| && i <= FindIndex(views, col)
      {
        i := i + 1;
      }
    }

    /** `self.indexes.append(index)`, for an index whose objects are all new to the table. */
    method Append(ix: Index, ghost v: IndexView)
      requires Valid() && ix.Valid() && ix.Repr !! Repr && ix.View() == v
      modifies this`indexes, this`views, this`Repr
      ensures Valid() && Repr == old(Repr) + ix.Repr
      ensures indexes == old(indexes) + [ix] && views == old(views) + [v]
    {
      indexes := indexes + [ix];
      views := views + [v];
      Repr := Repr + ix.Repr;
    }

    /** `table_add(r)`: the rows take `r` last and publish `Add(r)`, then every index in turn
        files it; the first index that raises stops the loop and its error is the outcome. */
    method TableAdd(r: Row) returns (res: Outcome)
      requires Valid()
      modifies Repr
      ensures Valid() && fresh(Repr - old(Repr)) && indexes == old(indexes)
      ensures rows.data == old(rows.data) + [r]
      ensures rows.out.State() == Published(old(rows.out.State()), Delta.Add(r))
      ensures (views, res) == RunAll(Reaction(rows.data, Delta.Add(r)), old(views))
    {
      rows.Add(r);
      res := NotifyIndexes(Delta.Add(r));
    }

    /** `table_remove(r)`: the rows drop the first copy of `r` (`ValueError`, with nothing changed,
        when there is none) and publish `Remove(r)`, then every index in turn reacts, looking
        `r` up in the rows as they are after the removal. */
    method TableRemove(r: Row) returns (res: Outcome)
      requires Valid()
      modifies Repr
      ensures Valid() && fresh(Repr - old(Repr)) && indexes == old(indexes)
      ensures r !in old(rows.data) ==>
                res == Fail(NotFound) && rows.data == old(rows.data) && rows.out.State() == old(rows.out.State()) && views == old(views)
      ensures r in old(rows.data) ==>
                rows.data == RemoveFirst(old(rows.data), r) &&
                rows.out.State() == Published(old(rows.out.State()), Delta.Remove(r)) &&
                (views, res) == RunAll(Reaction(rows.data, Delta.Remove(r)), old(views))
    {
      res := rows.Remove(r);
      if res.Pass? {
        res := NotifyIndexes(Delta.Remove(r));
      }
    }

    /** `table_update(x, y)`: the rows overwrite the first copy of `x` with `y` (`ValueError`, with
        nothing changed, when there is none) and publish `Update(x, y)`, then every index in
        turn reacts against the updated rows. */
    method TableUpdate(x: Row, y: Row) returns (res: Outcome)
      requires Valid()
      modifies Repr
      ensures Valid() && fresh(Repr - old(Repr)) && indexes == old(indexes)
      ensures x !in old(rows.data) ==>
                res == Fail(NotFound) && rows.data == old(rows.data) && rows.out.State() == old(rows.out.State()) && views == old(views)
      ensures x in old(rows.data) ==>
                rows.data == ReplaceFirst(old(rows.data), x, y) &&
                rows.out.State() == Published(old(rows.out.State()), Delta.Update(x, y)) &&
                (views, res) == RunAll(Reaction(rows.data, Delta.Update(x, y)), old(views))
    {
      res := rows.Update(x, y);
      if res.Pass? {
        res := NotifyIndexes(Delta.Update(x, y));
      }
    }

    /** The loop of `table_add` / `table_remove` / `table_update` over the indexes, in list order,
        against the current rows; it stops at the first index that raises. */
    method NotifyIndexes(d: Delta<Row>) returns (res: Outcome)
      requires Valid()
      modifies this`views, this`Repr, Repr - {this, rows, rows.out}
      ensures Valid() && fresh(Repr - old(Repr))
      ensures (views, res) == RunAll(Reaction(rows.data, d), old(views))
    {
      ghost var start := views;
      ghost var step := Reaction(rows.data, d);
      var i := 0;
      res := Pass;
      while i < |indexes| && res.Pass?
        invariant i <= |indexes|
        invariant Valid() && fresh(Repr - old(Repr))
        invariant views == RunAll(step, start[..i]).0 + start[i..] && res == RunAll(step, start[..i]).1
      {
        res := NotifyNext(i, d, step, start);
        i := i + 1;
      }
      RunAllDone(step, start, i);
    }

    /** One round of that loop: index `i` reacts, and the run over the first `i + 1` indexes
        is what `RunAll` gives for them. */
    method NotifyNext(i: nat, d: Delta<Row>, ghost step: IndexView -> (IndexView, Outcome), ghost start: seq<IndexView>)
        returns (res: Outcome)
      requires Valid() && i < |indexes| && step == Reaction(rows.data, d) && |start| == |indexes|
      requires views == RunAll(step, start[..i]).0 + start[i..] && RunAll(step, start[..i]).1 == Pass
      modifies this`views, this`Repr, Repr - {this, rows, rows.out}
      ensures Valid() && fresh(Repr - old(Repr))
      ensures views == RunAll(step, start[..i + 1]).0 + start[i + 1..] && res == RunAll(step, start[..i + 1]).1
    {
      RunAllStep(step, start, i);
      res := NotifyOne(i, d);
    }

    /** Index `i` reacts to `d`; no other index, and nothing of the table but `views` and
        `Repr`, changes. */
    method NotifyOne(i: nat, d: Delta<Row>) returns (res: Outcome)
      requires Valid() && i < |indexes|
      modifies this`views, this`Repr, indexes[i].Repr
      ensures Valid() && fresh(Repr - old(Repr))
      ensures views == old(views)[i := Reaction(rows.data, d)(old(views)[i]).0]
      ensures res == Reaction(rows.data, d)(old(views)[i]).1
    {
      var ix := indexes[i];
      views := views[i := Reaction(rows.data, d)(views[i]).0];
      res := ix.WhenTable(rows.data, d);
      Repr := Repr + ix.Repr;
      OneIndexChanged(i);
    }

    /** Only index `i` changed, and its new objects are fresh: the table is still valid. */
    twostate lemma OneIndexChanged(i: nat)
      requires old(Valid()) && i < |indexes| && indexes == old(indexes) && |views| == |indexes|
      requires Repr == old(Repr) + indexes[i].Repr && fresh(indexes[i].Repr - old(indexes[i].Repr))
      requires indexes[i].Valid() && views[i] == indexes[i].View() && views == old(views)[i := views[i]]
      requires forall o | o in old(Repr) && o !in old(indexes[i].Repr) && o != this :: unchanged(o)
      ensures Valid()
    {
      assert unchanged(rows, rows.out);
      forall j | 0 <= j < |indexes| && j != i
        ensures unchanged(indexes[j]) && unchanged(indexes[j].Repr)
      {
        assert old(indexes[j].Repr) !! old(indexes[i].Repr);
      }
    }

    /** `verify_row(row)`: `ValueError` naming a key of `row` that is not a declared column, or
        else naming the first declared column other than `"id"` that `row` lacks. */
    method VerifyRow(row: Row) returns (r: Outcome)
      ensures r.Pass? <==> RowFits(columns, row)
      ensures (exists c | c in row :: c !in columns) ==>
                r.Fail? && r.error.UnknownColumn? && r.error.column in row && r.error.column !in columns
      ensures (forall c | c in row :: c in columns) ==>
                r == if FirstMissing(columns, row).None? then Pass else Fail(MissingColumn(FirstMissing(columns, row).value))
    {
      var keys := row.Keys;
      while keys != {}
        invariant keys <= row.Keys
        invariant forall c | c in row.Keys - keys :: c in columns
        decreases |keys|
      {
        var c :| c in keys;
        if c !in columns {
          return Fail(UnknownColumn(c));
        }
        keys := keys - {c};
      }
      var i := 0;
      while i < |columns|
        invariant i <= |columns|
        invariant FirstMissing(columns[i..], row) == FirstMissing(columns, row)
      {
        if columns[i] != "id" && columns[i] !in row {
          return Fail(MissingColumn(columns[i]));
        }
        assert columns[i..][1..] == columns[i + 1..];
        i := i + 1;
      }
      r := Pass;
    }

    /** `insert(row)`: a row `verify_row` rejects changes nothing; otherwise the row, its `"id"`
        set to the number of rows stored before it, goes through `table_add`. */
    method Insert(row: Row) returns (res: Outcome)
      requires Valid()
      modifies Repr
      ensures Valid() && fresh(Repr - old(Repr)) && indexes == old(indexes)
      ensures !RowFits(columns, row) ==>
                res.Fail? && (res.error.UnknownColumn? || res.error.MissingColumn?) &&
                rows.data == old(rows.data) && rows.out.State() == old(rows.out.State()) && views == old(views)
      ensures RowFits(columns, row) ==>
                rows.data == old(rows.data) + [Stamped(row, |old(rows.data)|)] &&
                rows.out.State() == Published(old(rows.out.State()), Delta.Add(Stamped(row, |old(rows.data)|))) &&
                (views, res) == RunAll(Reaction(rows.data, Delta.Add(Stamped(row, |old(rows.data)|))), old(views))
    {
      res := VerifyRow(row);
      if res.Pass? {
        res := TableAdd(Stamped(row, |rows.data|));
      }
    }

    /** `pull`: the stored rows, which are the initial rows with every published delta replayed. */
    function Pull(): (r: seq<Row>)
      reads this, Repr
      requires Valid()
      ensures r == ApplyAll(rows.initial, rows.out.emitted)
    {
      rows.Pull()
    }
  }

  /** An index on `col` appended where none was found is the one found next time. */
  lemma {:induction false} FindIndexSnoc(views: seq<IndexView>, col: string, v: IndexView)
    requires FindIndex(views, col) == |views| && v.col == col
    ensures FindIndex(views + [v], col) == |views|
  {
    if views != [] {
      assert (views + [v])[1..] == views[1..] + [v];
      FindIndexSnoc(views[1..], col, v);
    }
  }
}
