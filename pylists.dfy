/** Python's list primitives that the core relies on: `list.index`,
    `list.remove` (first equal element) and `lst[lst.index(x)] = y`. */
module PyLists {

  /** Position of the first element equal to `x`; `|s|` when there is none. */
  function IndexOf<T(==)>(s: seq<T>, x: T): (i: nat)
    ensures i <= |s|
    ensures i < |s| <==> x in s
    ensures i < |s| ==> s[i] == x
    ensures forall j | 0 <= j < i :: s[j] != x
  {
    if s == [] then 0
    else if s[0] == x then 0
    else 1 + IndexOf(s[1..], x)
  }

  /** `list.remove(x)`: drop the first element equal to `x`; no change when there is none. */
  function RemoveFirst<T(==)>(s: seq<T>, x: T): (r: seq<T>)
    ensures x in s ==> |r| == |s| - 1
    ensures x in s ==> r == s[..IndexOf(s, x)] + s[IndexOf(s, x) + 1..]
    ensures x !in s ==> r == s
    ensures multiset(r) == multiset(s) - multiset{x}
  {
    var i := IndexOf(s, x);
    if i < |s| then
      assert s == s[..i] + [x] + s[i + 1..];
      s[..i] + s[i + 1..]
    else s
  }

  /** `s[s.index(x)] = y`: overwrite the first element equal to `x` in place; no change when there is none. */
  function ReplaceFirst<T(==)>(s: seq<T>, x: T, y: T): (r: seq<T>)
    ensures |r| == |s|
    ensures x in s ==> r == s[IndexOf(s, x) := y]
    ensures x in s ==> multiset(r) == multiset(s) - multiset{x} + multiset{y}
    ensures x !in s ==> r == s
    ensures forall j | 0 <= j < |s| && j != IndexOf(s, x) :: r[j] == s[j]
  {
    var i := IndexOf(s, x);
    if i < |s| then
      assert s == s[..i] + [x] + s[i + 1..];
      assert s[i := y] == s[..i] + [y] + s[i + 1..];
      s[i := y]
    else s
  }

  /** No element occurs twice: the last one is not among the others, which have no repeats. */
  predicate Distinct<T(==)>(s: seq<T>)
    decreases |s|
  {
    s == [] || (Distinct(s[..|s| - 1]) && s[|s| - 1] !in s[..|s| - 1])
  }

  /** In a list without repeats, elements at different positions differ. */
  lemma {:induction false} DistinctAt<T>(s: seq<T>, i: nat, j: nat)
    requires Distinct(s) && i < j < |s|
    ensures s[i] != s[j]
    decreases |s|
  {
    var prefix := s[..|s| - 1];
    if j < |s| - 1 {
      DistinctAt(prefix, i, j);
    } else {
      assert s[i] == prefix[i];
    }
  }

  /** Appending an element not yet present keeps a list without repeats. */
  lemma DistinctSnoc<T>(s: seq<T>, x: T)
    requires Distinct(s) && x !in s
    ensures Distinct(s + [x])
  {
    assert (s + [x])[..|s|] == s;
  }

  /** In a list without repeats, `list.index` finds an element at its own position. */
  lemma IndexOfDistinct<T>(s: seq<T>, j: nat)
    requires Distinct(s) && j < |s|
    ensures IndexOf(s, s[j]) == j
  {
    var i := IndexOf(s, s[j]);
    if i < j {
      DistinctAt(s, i, j);
    }
  }

  /** A prefix one longer is the prefix with the next element appended. */
  lemma PrefixSnoc<T>(s: seq<T>, i: nat)
    requires i < |s|
    ensures s[..i + 1] == s[..i] + [s[i]]
  {
  }

  lemma SplitAt<T>(s: seq<T>, i: nat)
    requires i < |s|
    ensures s == s[..i] + ([s[i]] + s[i + 1..])
  {
  }

  lemma ReplaceAt<T>(s: seq<T>, i: nat, y: T)
    requires i < |s|
    ensures s[i := y] == s[..i] + ([y] + s[i + 1..])
  {
    var r := s[..i] + ([y] + s[i + 1..]);
    assert forall k | 0 <= k < |s| :: s[i := y][k] == r[k];
  }

  /** Appending elements does not move the first occurrence of an element already present. */
  lemma IndexOfPrefix<T>(s: seq<T>, t: seq<T>, x: T)
    requires x in s
    ensures IndexOf(s + t, x) == IndexOf(s, x)
  {
    var i, j := IndexOf(s, x), IndexOf(s + t, x);
    assert (s + t)[i] == x;
    if j < i {
      assert s[j] == (s + t)[j];
    }
  }
}
