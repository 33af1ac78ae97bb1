# Reactive SQL prototype: the delta-propagation core in Dafny

This project models the in-memory engine of the reactive SQL prototype.

- A `Collection` (and the `Table` built on it) owns a list of rows. After each successful
  mutation it publishes exactly one delta, `Add(row)`, `Remove(row)` or `Update(old, new)`,
  to its observers in subscription order.
- Derived nodes keep their own views in step by translating each incoming delta:
  - `Filter` and `Mapper` are stateless translators;
  - `CustomSubscriber` forwards to callbacks;
  - `LiveJoin` keeps the cross product of two sides;
  - `Index` splits a table's row positions into one `Channel` per value of a column.
- `Table` adds schema checking (`verify_row`), auto-numbered `insert` and lookup-or-build
  `index_on`.

The model follows the Python classes one for one:

| Dafny module | Python source | form |
|---|---|---|
| `PubSub` | `pub_sub_base.py` | classes `Observable`, `Subscriber` |
| `Collections` | `implementations.py` (`Collection`) | class over `seq` |
| `Operators` | `implementations.py` (`Filter`, `Mapper`, `CustomSubscriber`), `filter_on`, `map_on` | classes and pure functions |
| `Joins` | `implementations.py` (`LiveJoin`) | class with publishing loops |
| `Indexing` | `database_pub_sub_implementations.py`, as values | datatypes, functions, lemmas |
| `Database` | `database_pub_sub_implementations.py` (`Channel`, `Index`, `Table`) | classes with `Repr` footprints |
| `PyLists`, `Deltas`, `Errors` | Python's `list.index` / `list.remove`, the delta events, the exceptions | functions and datatypes |

Python inheritance becomes composition:
- every publisher holds an `Observable` (`out`);
- every consumer holds a `Subscriber` handle (`sub`, whose `receivingFrom` is `receiving_from`);
- a `Table` holds its `Collection` (`rows`).

How the model is built:
- **Publishing.** A publish does not run the observers' code. It records the delta in the
  publisher's `emitted` log and one `Notification(observer, delta)` per observer, in list
  order, in its `delivered` log. What each kind of node does when notified is modelled by
  that node's own methods.
- **Exceptions.** Every exception the core's own code raises is a `Fail(error)` /
  `Failure(error)` outcome, on the path where Python raises it. Exceptions raised by
  observer hooks during a publish are not modelled (see "## Left out").
- **Incremental correctness.** This is stated with `Explains(before, ds, after)`: the rows
  `after` are the rows `before` with the rows the deltas `ds` add put in and the rows they
  remove taken out, counted with multiplicity. The model proves:
  - every accepted `Collection` mutation is explained by the delta it publishes;
  - `Filter` and `Mapper` turn any explained change of their upstream into an explained
    change of their own `pull`;
  - every `LiveJoin` handler keeps all it has published explaining its cross product.
- **Indexes.** The `Index` and `Channel` objects are proved against value-level functions
  (`Indexing.WhenAdds`, `Build`, `RunAll`, …). The index invariants (soundness, each row
  position once overall, channels in first-seen order) are proved about those functions.

Three behaviours of the code are modelled as written, and the lemmas exhibit them:
- `table_remove` and `table_update` change the rows first. The indexes then look the old row
  up in the changed rows:
  - removing the last copy of a row makes the first index raise `ValueError`
    (`RemoveLastCopyFails`, `RemoveAllLastCopyFails`);
  - on an index that agrees with the rows, every update to a different row makes it raise
    `ValueError`, whether or not copies are left (`UpdateFails`, `UpdateAllFails`). An index
    that agrees holds only the position `list.index` gives for each row (`HeldIsFirst`), and
    the first copy left after the overwrite is a later one;
  - a remove of a row with copies can go through and still leave the index disagreeing with
    the rows: built on `[x, z, x]` with `x` and `z` sharing their cell, the index pulls
    `[z, z]` after `table_remove(x)` (`RemoveMisfiles`).
- `when_table_updates` touches only the channel for the old value. An update that changes
  the indexed cell and goes through leaves a position filed under the wrong value
  (`UpdateMisfiles`). Adds keep an index in agreement (`AddKeepsInv`) and updates from
  agreement raise, so this needs an index that already disagrees with the rows. A remove
  that goes through can leave one, and so can any remove or update that raised after the
  rows had changed. `UpdateMisfilesReachable` shows a run: build on `[x, x, a, x]`, remove `x`,
  then update `x` to `w`.
- `map_on` builds a `Filter` whose predicate is the transformer (`MapOn`).

## Model

| member | source | states |
|---|---|---|
| PyLists.IndexOf | implementations.py:23 | `list.index`: the first position holding `x`, below the length exactly when `x` occurs, and no earlier position holds it |
| PyLists.RemoveFirst | implementations.py:19 | `list.remove`: when `x` occurs, the list loses exactly its first occurrence (one shorter, the rest in order); the multiset loses one `x` |
| PyLists.ReplaceFirst | implementations.py:23 | `data[data.index(x)] = y`: same length, position of the first `x` now `y`, every other position unchanged; unchanged when `x` is absent |
| PyLists.IndexOfDistinct | database_pub_sub_implementations.py:49-51 | in a list without repeats, `list.index` of the row at position `j` is `j` |
| PubSub.Subscriber.constructor | pub_sub_base.py:58-59 | a new subscriber has no upstream yet |
| PubSub.Fanout | pub_sub_base.py:21-22 | one hook call per observer, the i-th addressed to the i-th observer with the published delta |
| PubSub.Observable.constructor | pub_sub_base.py:8-9 | a new publisher has no observers and has published nothing |
| PubSub.Observable.Subscribe | pub_sub_base.py:11-15 | `o` becomes the last observer, earlier observers unchanged, and `o.receiving_from` is this publisher |
| PubSub.Observable.Unsubscribe | pub_sub_base.py:17-18 | removes the first occurrence of `o` (list one shorter); `ValueError` with nothing changed when `o` is not subscribed |
| PubSub.Observable.Publish | pub_sub_base.py:20-30 | the loop over observers: the delta is logged once and each observer is notified exactly once, in list order |
| PubSub.Observable.PublishAdd | pub_sub_base.py:20-22 | `on_add(x)` to every observer, in order |
| PubSub.Observable.PublishRemove | pub_sub_base.py:24-26 | `on_remove(x)` to every observer, in order |
| PubSub.Observable.PublishUpdate | pub_sub_base.py:28-30 | `on_update(x, y)` to every observer with both arguments unchanged, in order |
| Collections.ApplyExplains | implementations.py:14-24 | each accepted `add` / `remove` / `update` is explained by exactly the one delta it publishes |
| Collections.Collection.constructor | implementations.py:10-12 | the rows as given, a publisher with no observers and nothing published |
| Collections.Collection.Add | implementations.py:14-16 | `x` appended with the earlier rows as prefix, then exactly one `Add(x)` published; replaying the publications on the initial rows still gives the rows |
| Collections.Collection.Remove | implementations.py:18-20 | first equal row removed, then one `Remove(x)` published; an absent row fails before anything changes or is published |
| Collections.Collection.Update | implementations.py:22-24 | first equal row overwritten in place, then one `Update(x, y)` published; an absent row fails with nothing changed |
| Collections.Collection.Pull | implementations.py:26-28 | the rows in storage order, equal to the initial rows with every published delta replayed |
| Operators.FilterRows | implementations.py:53-56 | the filtered rows come from the input and satisfy the predicate |
| Operators.FilterRowsCount | implementations.py:53-56 | filtering keeps each matching row exactly as often as it occurs and drops every other row |
| Operators.FilterRowsAppend | implementations.py:53-56 | filtering keeps order: it distributes over concatenation |
| Operators.FilterEmits | implementations.py:39-51 | `on_add` / `on_remove` re-publish the same delta iff the row matches; `on_update` emits `Remove(old)` iff `old` matches, then `Add(new)` iff `new` matches, and nothing else, never an `Update` |
| Operators.FilterAllRows | implementations.py:39-51 | over a delta stream, the rows the filter adds and removes are the upstream's added and removed rows, filtered |
| Operators.FilterKeepsInStep | implementations.py:39-56 | whenever deltas explain a change of the upstream's rows, the filter's re-published deltas explain the change of its `pull` |
| Operators.Filter.constructor | implementations.py:35-37 | keeps the predicate; a fresh publisher with no observers and no upstream yet |
| Operators.Filter.OnAdd | implementations.py:39-41 | publishes exactly `FilterEmits` of `Add(x)` |
| Operators.Filter.OnRemove | implementations.py:43-45 | publishes exactly `FilterEmits` of `Remove(x)` |
| Operators.Filter.OnUpdate | implementations.py:47-51 | publishes exactly `FilterEmits` of `Update(x, y)`: the optional `Remove(x)`, then the optional `Add(y)` |
| Operators.Filter.Pull | implementations.py:53-56 | `FilterRows` of the upstream's rows: only rows of upstream that satisfy the predicate, no more rows than upstream; its count and order facts are `FilterRowsCount` and `FilterRowsAppend` |
| Operators.FilterOn | pub_sub_base.py:37-41 | returns a new Filter for `p` that is now the upstream's last observer and whose upstream is that publisher; the Filter has no observers and has published and delivered nothing |
| Operators.MapOn | pub_sub_base.py:42-46 | returns a new `Filter` (not a `Mapper`) whose predicate is the truthiness of the transformed row, subscribed last, with nothing published or delivered |
| Operators.MapRows | implementations.py:76-78 | the images of the rows, position by position |
| Operators.MapRowsPermutation | implementations.py:76-78 | equal row multisets map to equal image multisets |
| Operators.MapDelta | implementations.py:67-74 | the same delta shape with every row transformed |
| Operators.MapAllRows | implementations.py:67-74 | over a delta stream, added and removed rows are the upstream's, transformed |
| Operators.MapKeepsInStep | implementations.py:67-78 | whenever deltas explain a change of the upstream's rows, the transformed deltas explain the change of the mapped `pull` |
| Operators.Mapper.constructor | implementations.py:63-65 | keeps the transformer; a fresh publisher with no observers |
| Operators.Mapper.Add | implementations.py:67-68 | publishes `Add(transformer(x))` |
| Operators.Mapper.Remove | implementations.py:70-71 | publishes `Remove(transformer(x))` |
| Operators.Mapper.Update | implementations.py:73-74 | publishes `Update(transformer(x), transformer(y))` |
| Operators.Mapper.Pull | implementations.py:76-78 | the upstream's rows transformed, position by position |
| Operators.CustomSubscriber.constructor | implementations.py:92-97 | no upstream yet, the pull strategy kept, no callback called |
| Operators.CustomSubscriber.OnAdd | implementations.py:99-100 | forwards `x` unchanged to the add callback, once |
| Operators.CustomSubscriber.OnRemove | implementations.py:102-103 | forwards `x` unchanged to the remove callback, once |
| Operators.CustomSubscriber.OnUpdate | implementations.py:105-106 | forwards `(x, y)` unchanged to the update callback, once |
| Operators.CustomSubscriber.Pull | implementations.py:108-111 | `NotImplementedError` exactly when there is no pull strategy; otherwise the strategy applied to the upstream |
| Joins.JoinLeft | implementations.py:131-132 | side-1 row `x` combined with each side-2 row, side-1 row first, in side-2 order |
| Joins.JoinRight | implementations.py:148-149 | each side-1 row combined with side-2 row `y`, side-1 row first, in side-1 order |
| Joins.JoinPullLength | implementations.py:166-169 | `pull` yields `|side1| * |side2|` rows |
| Joins.JoinPullAt | implementations.py:166-169 | `pull` yields `combine(side1[i], side2[j])` at position `j * |side1| + i`: side 2 is the outer loop |
| Joins.JoinPullAppend2 | implementations.py:166-169 | rows appended to side 2 append their blocks to `pull` |
| Joins.Swaps | implementations.py:141-143 | the update loop's deltas: `Remove(old_k)` then `Add(new_k)`, pair by pair; they remove exactly the old rows and add exactly the new ones |
| Joins.JoinAddFrom1InStep | implementations.py:129-132 | the `Add`s of `add_from_1` explain the change of the cross product |
| Joins.JoinRemoveFrom1InStep | implementations.py:134-137 | the `Remove`s of `remove_from_1` explain the change of the cross product |
| Joins.JoinUpdateFrom1InStep | implementations.py:139-143 | the swaps of `update_from_1` explain the change of the cross product |
| Joins.JoinAddFrom2InStep | implementations.py:146-149 | the `Add`s of `add_from_2` are appended to `pull` exactly, in order, and explain the change |
| Joins.JoinRemoveFrom2InStep | implementations.py:151-154 | the `Remove`s of `remove_from_2` explain the change of the cross product |
| Joins.JoinUpdateFrom2InStep | implementations.py:156-162 | the swaps of `update_from_2` explain the change of the cross product |
| Joins.LiveJoin.constructor | implementations.py:120-127 | one forwarding subscriber registered with each receiver, side 1 first; the sides are what the receivers yielded; nothing published |
| Joins.LiveJoin.PublishAdds | implementations.py:131-132 | the `add_from_*` loop: one `Add` per joined row, in order |
| Joins.LiveJoin.PublishRemoves | implementations.py:136-137 | the `remove_from_*` loop: one `Remove` per joined row, in order |
| Joins.LiveJoin.PublishSwaps | implementations.py:141-143 | the `update_from_*` loop: `Remove(old)` then `Add(new)` for each pair, in order |
| Joins.LiveJoin.AddFrom1 | implementations.py:129-132 | `x` appended to side 1, then `Add(combine(x, r2))` for each side-2 row; the join stays explained |
| Joins.LiveJoin.RemoveFrom1 | implementations.py:134-137 | first equal side-1 row removed, then `Remove(combine(x, r2))` for each side-2 row; an absent row fails with nothing changed |
| Joins.LiveJoin.UpdateFrom1 | implementations.py:139-143 | first equal side-1 row overwritten in place, then `Remove(combine(x, r2))`, `Add(combine(y, r2))` for each side-2 row; an absent row fails with nothing changed |
| Joins.LiveJoin.AddFrom2 | implementations.py:146-149 | `y` appended to side 2, then `Add(combine(r1, y))` for each side-1 row |
| Joins.LiveJoin.RemoveFrom2 | implementations.py:151-154 | first equal side-2 row removed, then `Remove(combine(r1, y))` for each side-1 row; an absent row fails with nothing changed |
| Joins.LiveJoin.UpdateFrom2 | implementations.py:156-162 | first equal side-2 row overwritten in place, then the remove/add pair for each side-1 row; an absent row fails with nothing changed |
| Joins.LiveJoin.Pull | implementations.py:166-169 | every pair combined at its row-major place, `|side1| * |side2|` rows, explained by everything published since the join was built |
| Indexing.ChannelFor | database_pub_sub_implementations.py:41-43 | reading the `defaultdict` keeps the column and every existing channel; an existing key leaves the keys as they were, a missing key gets one new empty channel, listed last |
| Indexing.ChannelForWellKeyed | database_pub_sub_implementations.py:41-43 | the read keeps `keys` listing every channel exactly once |
| Indexing.IndexRows | database_pub_sub_implementations.py:71-74 | `Index.pull` fails only with `IndexError` |
| Indexing.AddsToOneChannel | database_pub_sub_implementations.py:47-51 | `when_table_adds(r)`: only the channel for `r[col]` changes (created last when new); it gains the row's position and publishes one `Add(r)`; the index stays sound and the position is added once overall |
| Indexing.AddKeepsInv | database_pub_sub_implementations.py:92-95 | appending `r` and notifying one index keeps it in agreement with the rows; a new row's position is the last one |
| Indexing.AddAllKeepsInv | database_pub_sub_implementations.py:92-95 | when every index's column is in `r`, `table_add` notifies every index and each keeps agreeing with the rows |
| Indexing.AddAllPasses | database_pub_sub_implementations.py:92-95 | when every index's column is in `r`, `table_add` notifies every index without error, whatever the indexes hold |
| Indexing.AddAllMissingColumn | database_pub_sub_implementations.py:92-95 | when some index's column is missing from `r`, `table_add` ends in `KeyError`, whatever the indexes hold |
| Indexing.RunAllStep | database_pub_sub_implementations.py:94-95 | notifying index `i` after the first `i` passed extends the run of the loop by one |
| Indexing.RunAllDone | database_pub_sub_implementations.py:94-95 | once every index passed or one raised, the loop's state is that of the whole run |
| Indexing.RunAllStopped | database_pub_sub_implementations.py:94-95 | after the first index that raises, the later indexes keep their state and that error is the outcome |
| Indexing.BuildSound | database_pub_sub_implementations.py:38-45 | building over rows that all have the column succeeds with every position filed under its row's cell |
| Indexing.BuildKeys | database_pub_sub_implementations.py:38-45 | a built index created its channels in the order values first appear in the column |
| Indexing.BuildPositions | database_pub_sub_implementations.py:38-51 | a built index holds the `list.index` position of each row once overall |
| Indexing.BuildChannels | database_pub_sub_implementations.py:38-51 | a built index files under each value exactly the positions of the rows having it, in row order; other values have no channel |
| Indexing.BuildInv | database_pub_sub_implementations.py:38-45 | a build over rows that all have the column agrees with the rows |
| Indexing.BuildFilesEachRow | database_pub_sub_implementations.py:38-51 | every row's position ends up in the channel for the row's cell |
| Indexing.BuildStopped | database_pub_sub_implementations.py:44-45 | after a row without the column the build does nothing more |
| Indexing.BuildMissingColumn | database_pub_sub_implementations.py:44-48 | a build over rows of which one lacks the column raises `KeyError` |
| Indexing.Coverage | database_pub_sub_implementations.py:71-74 | an index that agrees with the rows pulls every row, as often as it is stored |
| Indexing.Partition | database_pub_sub_implementations.py:38-51 | when no two rows are equal, every row position is held by exactly one channel, once, and no other position is held |
| Indexing.RemoveLastCopyFails | database_pub_sub_implementations.py:53-57 | the index looks up a removed row in the rows after the removal: for the last copy it raises `ValueError` |
| Indexing.RemoveAllLastCopyFails | database_pub_sub_implementations.py:97-100 | removing the last copy of a row makes `table_remove` raise at the first index; the others are not notified |
| Indexing.UpdateLastCopyFails | database_pub_sub_implementations.py:102-105 | overwriting the last copy of `x` with a different `y` makes the index raise `ValueError` |
| Indexing.HeldIsFirst | database_pub_sub_implementations.py:47-51 | an index that agrees with the rows holds only positions `p` with `data.index(data[p]) == p` |
| Indexing.UpdateFails | database_pub_sub_implementations.py:59-64 | on an index that agrees with the rows, `when_table_updates(x, y)` after the overwrite raises `ValueError` for every `y != x`, only a new empty channel for `x[col]` being created |
| Indexing.UpdateAllFails | database_pub_sub_implementations.py:102-105 | when the first index agrees with the rows, `table_update(x, y)` raises there and the later indexes are not notified |
| Indexing.RemoveMisfiles | database_pub_sub_implementations.py:97-100 | built on `[x, z, x]` (shared cell), the index holds `[0, 1, 0]`; `table_remove(x)` goes through, leaving `[0, 0]` over rows `[z, x]`, so `Index.pull` yields `[z, z]` and the index no longer agrees with the rows |
| Indexing.UpdateMisfiles | database_pub_sub_implementations.py:59-64 | an update that changes the indexed cell and goes through leaves the index unsound |
| Indexing.UpdateMisfilesReachable | database_pub_sub_implementations.py:97-105 | build on `[x, x, a, x]` (shared cell), `table_remove(x)`, then `table_update(x, w)` with `w`'s cell different: the remove and the update both go through and the index ends unsound |
| Database.Channel.constructor | database_pub_sub_implementations.py:12-15 | no positions, a fresh publisher with nothing published |
| Database.Channel.WhenRowHitsIndex | database_pub_sub_implementations.py:17-19 | position appended, then `Add(data[id])` published; `IndexError` after the append for a position past the end |
| Database.Channel.WhenRowMissesIndex | database_pub_sub_implementations.py:21-23 | first equal position removed (`ValueError` when absent), then `Remove(data[id])` published |
| Database.Channel.WhenRowUpdatesIndex | database_pub_sub_implementations.py:25-29 | old position removed, new appended, then `Remove(data[old])` and `Add(data[new])` published, each `IndexError` where Python raises it |
| Database.Channel.Pull | database_pub_sub_implementations.py:31-33 | the rows at the channel's positions in append order; `IndexError` exactly when a position is past the end |
| Database.Index.constructor | database_pub_sub_implementations.py:38-43 | an index on the column with no channel |
| Database.Index.ChannelAt | database_pub_sub_implementations.py:41-43 | the `defaultdict` read: the channel for `k`, created last when missing |
| Database.Index.AddChannel | database_pub_sub_implementations.py:41-43 | a new empty channel for `k`, listed last, no other channel touched |
| Database.Index.HitAt | database_pub_sub_implementations.py:49-51 | only the channel for `k` runs `when_row_hits_index` |
| Database.Index.MissAt | database_pub_sub_implementations.py:55-57 | only the channel for `k` runs `when_row_misses_index` |
| Database.Index.MoveAt | database_pub_sub_implementations.py:62-64 | only the channel for `k` runs `when_row_updates_index` |
| Database.Index.WhenTableAdds | database_pub_sub_implementations.py:47-51 | the index becomes `WhenAdds` of its old view, with the same outcome |
| Database.Index.WhenTableRemoves | database_pub_sub_implementations.py:53-57 | the index becomes `WhenRemoves` of its old view, with the same outcome |
| Database.Index.WhenTableUpdates | database_pub_sub_implementations.py:59-64 | the index becomes `WhenUpdates` of its old view: only the old value's channel is touched |
| Database.Index.WhenTable | database_pub_sub_implementations.py:92-105 | the reaction matching the delta the table published |
| Database.Index.Create | database_pub_sub_implementations.py:38-45 | `Index(col, table)` is the value-level build over all rows, with its outcome |
| Database.Index.FileRows | database_pub_sub_implementations.py:44-45 | the constructor's loop files the rows in order and stops at the first `KeyError` |
| Database.Index.Pull | database_pub_sub_implementations.py:71-74 | the rows of every channel, channels in creation order, as `IndexRows` of the view |
| Database.FirstMissing | database_pub_sub_implementations.py:118-124 | the first declared non-`id` column the row lacks; none exactly when every declared column is `id` or present |
| Database.Stamped | database_pub_sub_implementations.py:129 | the row with `id` set to the row count, every other cell unchanged |
| Database.FindIndex | database_pub_sub_implementations.py:85-87 | the position of the first index on the column, or the end |
| Database.FindIndexSnoc | database_pub_sub_implementations.py:84-90 | an index appended where none was found is the one found next time |
| Database.Table.constructor | database_pub_sub_implementations.py:78-82 | name, columns and rows as given, no index, nothing published |
| Database.Table.IndexOn | database_pub_sub_implementations.py:84-90 | the existing first index for the column with nothing changed; otherwise the build's outcome, and on success exactly one new index appended and returned; a second call finds it |
| Database.Table.Find | database_pub_sub_implementations.py:85-87 | the search loop ends at the first index on the column, or the end |
| Database.Table.AddIndex | database_pub_sub_implementations.py:88-90 | builds from the current rows; on success the new index is appended last and is the first on its column; on `KeyError` nothing is kept |
| Database.Table.Append | database_pub_sub_implementations.py:89 | one index appended, its view recorded, the table still valid |
| Database.Table.TableAdd | database_pub_sub_implementations.py:92-95 | `r` appended, one `Add(r)` published, then the indexes notified in order until one raises |
| Database.Table.TableRemove | database_pub_sub_implementations.py:97-100 | an absent row fails with nothing changed; otherwise first copy removed, `Remove(r)` published, indexes notified against the rows after removal |
| Database.Table.TableUpdate | database_pub_sub_implementations.py:102-105 | an absent row fails with nothing changed; otherwise first copy overwritten, `Update(x, y)` published, indexes notified against the updated rows |
| Database.Table.NotifyIndexes | database_pub_sub_implementations.py:94-95 | the loop over the indexes, in order, against the current rows, stopping at the first that raises |
| Database.Table.NotifyNext | database_pub_sub_implementations.py:94-95 | one round of that loop extends the run by one index |
| Database.Table.NotifyOne | database_pub_sub_implementations.py:95 | index `i` reacts; no other index changes |
| Database.Table.Pull | database_pub_sub_implementations.py:107-108 | the stored rows, equal to the initial rows with every published delta replayed |
| Database.Table.VerifyRow | database_pub_sub_implementations.py:112-124 | passes exactly when every key is declared and every declared non-`id` column is present; an unknown key is named first, else the first missing column |
| Database.Table.Insert | database_pub_sub_implementations.py:126-131 | a rejected row changes no rows, publication or index; an accepted row is stored last with `id` equal to the previous row count and goes through `table_add` |

## Left out

- The `print` calls in `subscribe` and `insert`, `display_on` and `Printer`: they only write to the console.
- Dynamic dispatch: a publish records which observer is notified of which delta, but does not run the observer's hook. Each node's reaction is its own method, and the per-node logs stand in for the call chain. Exceptions a hook raises are therefore not modelled either (see the line on `Publish` below).
- `receiving_from.pull()` is a call through an arbitrary upstream, so `Filter.Pull`, `Mapper.Pull` and the `LiveJoin` constructor take the upstream's rows as a parameter. Generators become sequences.
- `CustomSubscriber`'s callbacks are code outside the core: each call is recorded in `forwarded`, and the pull strategy is a function parameter.
- `dict_add` (`utils.py`) is not part of this model: `LiveJoin` takes an uninterpreted `combine`.
- `Channel` keeps a reference to its table: its methods take the table's rows as `data`.
- Database.Table.Insert: Python writes `id` into the caller's own dict and stores that same object, so later changes through either reference are shared. The model stores a new value and does not capture this aliasing.
- Collections.Collection.constructor: `data or []` makes an empty list argument a new list; rows are values here, so sharing the caller's list is not modelled.
- Database.Table.VerifyRow: with several unknown keys, Python names the first in the dict's insertion order; the model names one of them, unspecified.
- PubSub.Observable.Unsubscribe: observers are compared by identity. `Filter`, `Channel` and `Index` are `@dataclass` classes without fields, so Python compares any two of the same class as equal, and `remove` may take out a different Filter that happens to come first. `CustomSubscriber` is a `@dataclass` too: its `==` compares `receiving_from` and the four callbacks, so `remove` may take out an equal but different `CustomSubscriber` that comes first.
- Operators.Mapper.constructor: Python cannot instantiate `Mapper`, whose `Subscriber` hooks `on_add` / `on_remove` / `on_update` stay abstract. The model constructs it in order to state what its `add` / `remove` / `update` do.
- The object-level `Index` invariant keeps keys and channels in one-to-one correspondence but not that `keys` has no repeats. That fact (`WellKeyed`), and the agreement with the rows (`Inv`), are proved on the value-level view instead.
- PubSub.Observable.Publish, Database.Table.TableAdd, Database.Table.TableRemove, Database.Table.TableUpdate: the model assumes every observer hook returns. In Python a hook that raises (a `Filter` predicate raising `KeyError` on a row without its column, a `LiveJoin` remove of a row it does not hold) stops `publish_*` before the later observers are notified, and inside `table_add` / `table_remove` / `table_update` it also skips the index loop, after the rows have already changed. The model's publish always reaches every observer, and the table methods always run the index loop.
- Error messages: only the exception kind and the named column are kept. Python raises the same `ValueError`, with the same message text, for both `verify_row` failures; the model tells them apart as `UnknownColumn` and `MissingColumn`.
- Cells are integers and strings. A Python `bool` cell is the integer 0 or 1, since `False == 0` and `True == 1` compare and hash alike. Floats (`1.0 == 1`), `None` and nested values are not modelled.
