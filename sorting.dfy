/** The column sort of `handleSort` and `sortData` (app.js:823-856): the key a
    record sorts by, the order the comparator asks for, and a sorting
    function that returns a key-ordered permutation. */
module Sorting {
  import opened Text
  import opened Records

  datatype Direction = Asc | Desc

  function Toggle(d: Direction): (r: Direction)
    ensures r != d
  {
    if d == Asc then Desc else Asc
  }

  /** The value a comparator call computes for one record: the timestamp for
      the date column (NaN and a missing date both become 0), the lower-cased
      text (a missing field becomes '') for every other column. */
  datatype Key = TimeKey(t: int) | TextKey(s: string)

  function SortKey(r: Record, field: string, parse: string -> Option<int>): (k: Key)
    ensures field == "date" <==> k.TimeKey?
    ensures field == "date" ==> k.t == (if HasValue(r, "date") && parse(r["date"]).Some? then parse(r["date"]).value else 0)
    ensures field != "date" ==> k.s == Lower(Get(r, field))
  {
    if field == "date" then TimeKey(Timestamp(r, parse).GetOr(0)) else TextKey(Lower(Get(r, field)))
  }

  /** `a <= b` on keys; within one column the keys are all of one kind, the
      mixed case only makes the order total. */
  predicate KeyLe(a: Key, b: Key) {
    match (a, b)
    case (TimeKey(x), TimeKey(y)) => x <= y
    case (TextKey(x), TextKey(y)) => LexLe(x, y)
    case (TimeKey(_), TextKey(_)) => true
    case (TextKey(_), TimeKey(_)) => false
  }

  /** The key function of one column. */
  function ColumnKey(field: string, parse: string -> Option<int>): Record -> Key {
    (r: Record) => SortKey(r, field, parse)
  }

  lemma KeyLeTotal(a: Key, b: Key)
    ensures KeyLe(a, b) || KeyLe(b, a)
  {
    if a.TextKey? && b.TextKey? { LexLeTotal(a.s, b.s); }
  }

  lemma KeyLeTrans(a: Key, b: Key, c: Key)
    requires KeyLe(a, b) && KeyLe(b, c)
    ensures KeyLe(a, c)
  {
    if a.TextKey? && b.TextKey? && c.TextKey? { LexLeTrans(a.s, b.s, c.s); }
  }

  lemma KeyLeAntisymmetric(a: Key, b: Key)
    requires KeyLe(a, b) && KeyLe(b, a)
    ensures a == b
  {
    if a.TextKey? && b.TextKey? { LexLeAntisymmetric(a.s, b.s); }
  }

  /** `x` may come before `y`: the comparator never puts `y` first, that is
      it returns 1 for (x, y) only when x's key is above (ascending) or below
      (descending) y's. */
  predicate Precedes(x: Record, y: Record, key: Record -> Key, dir: Direction) {
    if dir == Asc then KeyLe(key(x), key(y)) else KeyLe(key(y), key(x))
  }

  lemma PrecedesTotal(x: Record, y: Record, key: Record -> Key, dir: Direction)
    ensures Precedes(x, y, key, dir) || Precedes(y, x, key, dir)
  {
    KeyLeTotal(key(x), key(y));
  }

  lemma PrecedesTrans(x: Record, y: Record, z: Record, key: Record -> Key, dir: Direction)
    requires Precedes(x, y, key, dir) && Precedes(y, z, key, dir)
    ensures Precedes(x, z, key, dir)
  {
    var kx, ky, kz := key(x), key(y), key(z);
    if dir == Asc { KeyLeTrans(kx, ky, kz); } else { KeyLeTrans(kz, ky, kx); }
  }

  predicate Sorted(s: seq<Record>, key: Record -> Key, dir: Direction) {
    forall i, j :: 0 <= i < j < |s| ==> Precedes(s[i], s[j], key, dir)
  }

  /** A record that may precede every element of a sorted list may head it. */
  lemma ConsSorted(x: Record, s: seq<Record>, key: Record -> Key, dir: Direction)
    requires Sorted(s, key, dir)
    requires forall y :: y in s ==> Precedes(x, y, key, dir)
    ensures Sorted([x] + s, key, dir)
  {
    var r := [x] + s;
    forall i, j | 0 <= i < j < |r|
      ensures Precedes(r[i], r[j], key, dir)
    {
      if i == 0 {
        assert r[j] == s[j - 1];
      } else {
        assert r[i] == s[i - 1] && r[j] == s[j - 1];
      }
    }
  }

  /** The head of a sorted list may precede each of its elements. */
  lemma HeadPrecedes(s: seq<Record>, key: Record -> Key, dir: Direction)
    requires Sorted(s, key, dir) && |s| > 0
    ensures forall y :: y in s ==> Precedes(s[0], y, key, dir)
  {
    forall y | y in s
      ensures Precedes(s[0], y, key, dir)
    {
      var j :| 0 <= j < |s| && s[j] == y;
      if j == 0 {
        PrecedesTotal(y, y, key, dir);
      }
    }
  }

  /** Places `x` before the first element it may precede. */
  function Insert(x: Record, s: seq<Record>, key: Record -> Key, dir: Direction): (r: seq<Record>)
    requires Sorted(s, key, dir)
    ensures multiset(r) == multiset(s) + multiset{x}
    ensures forall y :: y in r <==> y in s || y == x
    ensures Sorted(r, key, dir)
    decreases |s|
  {
    if |s| == 0 then [x]
    else if Precedes(x, s[0], key, dir) then
      PrependSorted(x, s, key, dir);
      [x] + s
    else
      SortedTail(s, key, dir);
      var rest := Insert(x, s[1..], key, dir);
      PrecedesTotal(x, s[0], key, dir);
      HeadPrecedes(s, key, dir);
      assert s == [s[0]] + s[1..];
      ConsSorted(s[0], rest, key, dir);
      [s[0]] + rest
  }

  /** A record that may precede the head of a sorted list may head it. */
  lemma PrependSorted(x: Record, s: seq<Record>, key: Record -> Key, dir: Direction)
    requires Sorted(s, key, dir) && |s| > 0 && Precedes(x, s[0], key, dir)
    ensures Sorted([x] + s, key, dir)
  {
    HeadPrecedes(s, key, dir);
    forall y | y in s ensures Precedes(x, y, key, dir) {
      PrecedesTrans(x, s[0], y, key, dir);
    }
    ConsSorted(x, s, key, dir);
  }

  lemma SortedTail(s: seq<Record>, key: Record -> Key, dir: Direction)
    requires Sorted(s, key, dir) && |s| > 0
    ensures Sorted(s[1..], key, dir)
  {
    forall i, j | 0 <= i < j < |s[1..]| ensures Precedes(s[1..][i], s[1..][j], key, dir) {
      assert s[1..][i] == s[i + 1] && s[1..][j] == s[j + 1];
    }
  }

  /** `data.sort(comparator)` for one column and direction: a permutation of
      `s` in which every record may precede every later one. */
  function SortBy(s: seq<Record>, key: Record -> Key, dir: Direction): (r: seq<Record>)
    ensures multiset(r) == multiset(s)
    ensures |r| == |s|
    ensures Sorted(r, key, dir)
    decreases |s|
  {
    if |s| == 0 then []
    else
      assert s == [s[0]] + s[1..];
      Insert(s[0], SortBy(s[1..], key, dir), key, dir)
  }

  /** No two different records of `s` share a key. Then the comparator
      answers (a, b) and (b, a) oppositely for every pair of different
      records, and a list of such records has only one key-ordered
      arrangement. */
  predicate DistinctKeys(s: seq<Record>, key: Record -> Key) {
    forall x, y :: x in s && y in s && key(x) == key(y) ==> x == y
  }

  /** Two key-ordered permutations of one list of records with distinct
      keys are the same list. */
  lemma {:induction false} SortedPermutationUnique(a: seq<Record>, b: seq<Record>, key: Record -> Key, dir: Direction)
    requires multiset(a) == multiset(b)
    requires Sorted(a, key, dir) && Sorted(b, key, dir)
    requires DistinctKeys(a, key)
    ensures a == b
    decreases |a|
  {
    assert |a| == |multiset(a)| == |b|;
    if |a| > 0 {
      SameHead(a, b, key, dir);
      SameTails(a, b);
      SortedTail(a, key, dir);
      SortedTail(b, key, dir);
      forall z | z in a[1..] ensures z in a { }
      SortedPermutationUnique(a[1..], b[1..], key, dir);
      assert a == [a[0]] + a[1..] && b == [b[0]] + b[1..];
    }
  }

  /** Each head may precede the other, so with distinct keys the two heads
      are one record. */
  lemma SameHead(a: seq<Record>, b: seq<Record>, key: Record -> Key, dir: Direction)
    requires multiset(a) == multiset(b) && |a| > 0 && |b| > 0
    requires Sorted(a, key, dir) && Sorted(b, key, dir)
    requires DistinctKeys(a, key)
    ensures a[0] == b[0]
  {
    var x, y := a[0], b[0];
    assert x in multiset(b) && y in multiset(a);
    HeadPrecedes(a, key, dir);
    HeadPrecedes(b, key, dir);
    if dir == Asc {
      KeyLeAntisymmetric(key(x), key(y));
    } else {
      KeyLeAntisymmetric(key(y), key(x));
    }
  }

  lemma SameTails(a: seq<Record>, b: seq<Record>)
    requires multiset(a) == multiset(b) && |a| > 0 && |b| > 0 && a[0] == b[0]
    ensures multiset(a[1..]) == multiset(b[1..])
  {
    var x := a[0];
    assert a == [x] + a[1..] && b == [x] + b[1..];
    assert multiset(a[1..]) == multiset(a) - multiset{x};
    assert multiset(b[1..]) == multiset(b) - multiset{x};
  }

  /** With distinct keys, every sort that returns a key-ordered permutation
      (as `data.sort` with a consistent comparator does) returns the list
      `SortBy` returns. */
  lemma SortByUnique(s: seq<Record>, r: seq<Record>, key: Record -> Key, dir: Direction)
    requires DistinctKeys(s, key)
    requires multiset(r) == multiset(s) && Sorted(r, key, dir)
    ensures r == SortBy(s, key, dir)
  {
    forall x | x in r ensures x in s {
      assert x in multiset(r);
    }
    SortedPermutationUnique(r, SortBy(s, key, dir), key, dir);
  }

  /** A list of records with distinct keys that is already in order is
      returned as it is. */
  lemma SortBySorted(s: seq<Record>, key: Record -> Key, dir: Direction)
    requires DistinctKeys(s, key)
    requires Sorted(s, key, dir)
    ensures SortBy(s, key, dir) == s
  {
    SortByUnique(s, s, key, dir);
  }

  /** With distinct keys, sorting twice by the same column and direction is
      sorting once. */
  lemma SortByIdempotent(s: seq<Record>, key: Record -> Key, dir: Direction)
    requires DistinctKeys(s, key)
    ensures SortBy(SortBy(s, key, dir), key, dir) == SortBy(s, key, dir)
  {
    var r := SortBy(s, key, dir);
    forall x | x in r ensures x in s {
      assert x in multiset(r);
    }
    SortBySorted(r, key, dir);
  }

  /** JavaScript's `>` on two values of one column: numbers by value, strings
      as `LexLe` fails. */
  predicate KeyGreater(a: Key, b: Key) {
    match (a, b)
    case (TimeKey(x), TimeKey(y)) => x > y
    case (TextKey(x), TextKey(y)) => !LexLe(x, y)
    case (TimeKey(_), TextKey(_)) => false
    case (TextKey(_), TimeKey(_)) => true
  }

  /** The comparator `sortData` hands to `sort`: 1 puts `b` first, -1 puts
      `a` first; it never answers 0. */
  function Comparator(a: Record, b: Record, field: string, dir: Direction, parse: string -> Option<int>): (c: int)
    ensures c == 1 || c == -1
  {
    var ka := SortKey(a, field, parse);
    var kb := SortKey(b, field, parse);
    if dir == Asc then (if KeyGreater(ka, kb) then 1 else -1)
    else (if KeyGreater(kb, ka) then 1 else -1)
  }

  /** `a` may precede `b` exactly when the comparator asks for `a` first; so
      in the output of `SortBy` the comparator never asks to swap any pair. */
  lemma ComparatorAgrees(a: Record, b: Record, field: string, dir: Direction, parse: string -> Option<int>)
    ensures Precedes(a, b, ColumnKey(field, parse), dir) <==> Comparator(a, b, field, dir, parse) == -1
  {
    var ka := SortKey(a, field, parse);
    var kb := SortKey(b, field, parse);
    KeyLeTotal(ka, kb);
  }

  lemma SortedMeansNoSwap(s: seq<Record>, field: string, dir: Direction, parse: string -> Option<int>)
    ensures var r := SortBy(s, ColumnKey(field, parse), dir);
      forall i, j :: 0 <= i < j < |r| ==> Comparator(r[i], r[j], field, dir, parse) == -1
  {
    var r := SortBy(s, ColumnKey(field, parse), dir);
    forall i, j | 0 <= i < j < |r|
      ensures Comparator(r[i], r[j], field, dir, parse) == -1
    {
      ComparatorAgrees(r[i], r[j], field, dir, parse);
    }
  }

  /** `handleSort(field)`: a click on the current column flips the direction,
      a click on another column selects it in descending order. */
  function NextSort(current: string, dir: Direction, clicked: string): (r: (string, Direction))
    ensures r.0 == clicked
    ensures clicked == current ==> r.1 == Toggle(dir)
    ensures clicked != current ==> r.1 == Desc
  {
    if clicked == current then (current, Toggle(dir)) else (clicked, Desc)
  }

  /** Two clicks on the same column restore its direction. */
  lemma TwoClicksRestore(current: string, dir: Direction, clicked: string)
    ensures var (f1, d1) := NextSort(current, dir, clicked);
            NextSort(f1, d1, clicked) == (clicked, if clicked == current then dir else Asc)
  {
  }
}
