/** Records as the CSV parser delivers them (one string map per row), the
    dataset kinds of the export, and the order-preserving `filter` every
    derived view is built with. */
module Records {
  import opened Text

  datatype Option<T> = None | Some(value: T) {
    function GetOr(default: T): T {
      match this
      case Some(v) => v
      case None => default
    }

    /** This value when there is one, otherwise `other`. */
    function OrElse(other: Option<T>): Option<T> {
      if this.Some? then this else other
    }
  }

  /** One parsed row: header-derived field name to string value. */
  type Record = map<string, string>

  /** The eleven datasets of the export (the `type` strings of `processData`). */
  datatype Kind =
    | Posts | Comments | Messages | PostVotes | CommentVotes
    | SavedPosts | SavedComments | HiddenPosts | Statistics | Subscriptions | Preferences

  /** `r[key]`: `None` plays the part of JavaScript's `undefined`. */
  function Lookup(r: Record, key: string): Option<string> {
    if key in r then Some(r[key]) else None
  }

  /** `r[key]` is truthy: present and not the empty string. */
  predicate HasValue(r: Record, key: string) {
    key in r && r[key] != ""
  }

  /** `r[key] || ''`. */
  function Get(r: Record, key: string): (v: string)
    ensures HasValue(r, key) <==> v != ""
    ensures HasValue(r, key) ==> v == r[key]
  {
    if key in r then r[key] else ""
  }

  /** The title the export gives a post its author deleted. */
  const DeletedTitle := "[deleted by user]"

  predicate IsDeleted(r: Record) {
    Lookup(r, "title") == Some(DeletedTitle)
  }

  predicate NotDeleted(r: Record) {
    !IsDeleted(r)
  }

  /** `new Date(r.date).getTime()` for a record with a date, where `parse`
      stands for the engine's date parser and `None` for NaN. A missing or
      empty date is invalid. */
  function Timestamp(r: Record, parse: string -> Option<int>): (t: Option<int>)
    ensures !HasValue(r, "date") ==> t == None
  {
    if HasValue(r, "date") then parse(r["date"]) else None
  }

  /** `s.filter(keep)`: a new list, in the original order. */
  function Filter<T(!new)>(s: seq<T>, keep: T -> bool): (r: seq<T>)
    ensures |r| <= |s|
    ensures forall x :: x in r <==> x in s && keep(x)
    decreases |s|
  {
    if |s| == 0 then []
    else if keep(s[0]) then [s[0]] + Filter(s[1..], keep)
    else Filter(s[1..], keep)
  }

  /** `a` is `b` with some elements left out and the rest in their order. */
  predicate IsSubsequence<T(==)>(a: seq<T>, b: seq<T>)
    decreases |b|
  {
    |a| == 0 || (|b| > 0 && ((a[0] == b[0] && IsSubsequence(a[1..], b[1..])) || IsSubsequence(a, b[1..])))
  }

  /** Filtering keeps an order-preserving subsequence. */
  lemma {:induction false} FilterIsSubsequence<T(!new)>(s: seq<T>, keep: T -> bool)
    ensures IsSubsequence(Filter(s, keep), s)
    decreases |s|
  {
    if |s| > 0 {
      FilterIsSubsequence(s[1..], keep);
      var r := Filter(s, keep);
      if keep(s[0]) {
        assert r[0] == s[0] && r[1..] == Filter(s[1..], keep);
      }
    }
  }

  /** Filtering takes no element more often than the list holds it. */
  lemma {:induction false} FilterMultiset<T(!new)>(s: seq<T>, keep: T -> bool)
    ensures multiset(Filter(s, keep)) <= multiset(s)
    decreases |s|
  {
    if |s| > 0 {
      FilterMultiset(s[1..], keep);
      assert s == [s[0]] + s[1..];
    }
  }

  /** A filter keeps every copy of an element it accepts and none of one it
      rejects. */
  lemma {:induction false} FilterCount<T(!new)>(s: seq<T>, keep: T -> bool, x: T)
    ensures multiset(Filter(s, keep))[x] == if keep(x) then multiset(s)[x] else 0
    decreases |s|
  {
    if |s| > 0 {
      FilterCount(s[1..], keep, x);
      assert s == [s[0]] + s[1..];
    }
  }

  /** Filtering by one test keeps a sub-multiset relation between two lists. */
  lemma FilterMonotone<T(!new)>(a: seq<T>, b: seq<T>, keep: T -> bool)
    requires multiset(a) <= multiset(b)
    ensures multiset(Filter(a, keep)) <= multiset(Filter(b, keep))
  {
    forall x
      ensures multiset(Filter(a, keep))[x] <= multiset(Filter(b, keep))[x]
    {
      FilterCount(a, keep, x);
      FilterCount(b, keep, x);
    }
  }

  /** A filter that keeps every element returns the list unchanged. */
  lemma {:induction false} FilterKeepsAll<T(!new)>(s: seq<T>, keep: T -> bool)
    requires forall x :: x in s ==> keep(x)
    ensures Filter(s, keep) == s
    decreases |s|
  {
    if |s| > 0 {
      assert forall x :: x in s[1..] ==> x in s;
      FilterKeepsAll(s[1..], keep);
    }
  }

  /** Two filters in a row are one filter by the conjunction. */
  lemma {:induction false} FilterFilter<T(!new)>(s: seq<T>, f: T -> bool, g: T -> bool)
    ensures Filter(Filter(s, f), g) == Filter(s, x => f(x) && g(x))
    decreases |s|
  {
    if |s| > 0 {
      FilterFilter(s[1..], f, g);
      if f(s[0]) {
        assert Filter(s, f) == [s[0]] + Filter(s[1..], f);
        assert ([s[0]] + Filter(s[1..], f))[1..] == Filter(s[1..], f);
      }
    }
  }

  /** Two positions that pass both of two filters in a row leave at least
      two elements. */
  lemma {:induction false} FilterFilterTwo<T(!new)>(s: seq<T>, f: T -> bool, g: T -> bool, i: int, j: int)
    requires 0 <= i < j < |s|
    requires f(s[i]) && g(s[i]) && f(s[j]) && g(s[j])
    ensures |Filter(Filter(s, f), g)| >= 2
    decreases |s|
  {
    var tail := s[1..];
    assert s[j] == tail[j - 1];
    if f(s[0]) {
      assert Filter(s, f) == [s[0]] + Filter(tail, f);
      assert ([s[0]] + Filter(tail, f))[1..] == Filter(tail, f);
      if i == 0 {
        assert s[j] in Filter(Filter(tail, f), g);
      } else {
        assert s[i] == tail[i - 1];
        FilterFilterTwo(tail, f, g, i - 1, j - 1);
      }
    } else {
      assert s[i] == tail[i - 1];
      FilterFilterTwo(tail, f, g, i - 1, j - 1);
    }
  }

  /** Filters that agree on the list's elements give the same result. */
  lemma {:induction false} FilterExt<T(!new)>(s: seq<T>, f: T -> bool, g: T -> bool)
    requires forall x :: x in s ==> f(x) == g(x)
    ensures Filter(s, f) == Filter(s, g)
    decreases |s|
  {
    if |s| > 0 {
      assert forall x :: x in s[1..] ==> x in s;
      FilterExt(s[1..], f, g);
    }
  }

  /** Filtering a filtered list again by the same test changes nothing. */
  lemma FilterIdempotent<T(!new)>(s: seq<T>, keep: T -> bool)
    ensures Filter(Filter(s, keep), keep) == Filter(s, keep)
  {
    FilterKeepsAll(Filter(s, keep), keep);
  }
}
