/** The date index: one ascending timeline of distinct timestamps gathered
    from posts, comments and messages, and the two 0-100 sliders that pick a
    window of it (`initDateRangeSlider`, `handleDateRangeChange` and the
    bound computation of `applyFilters`). */
module DateIndex {
  import opened Records

  predicate StrictlyIncreasing(s: seq<int>) {
    forall i, j :: 0 <= i < j < |s| ==> s[i] < s[j]
  }

  /** The records that give a valid timestamp. */
  function Dated(parse: string -> Option<int>): Record -> bool {
    (r: Record) => Timestamp(r, parse).Some?
  }

  /** The valid timestamps of a list's records with a date, in list order:
      one per dated record, duplicates kept. */
  function ValidTimes(rs: seq<Record>, parse: string -> Option<int>): (ts: seq<int>)
    ensures forall t :: t in ts <==> exists r :: r in rs && Timestamp(r, parse) == Some(t)
    ensures |ts| == |Filter(rs, Dated(parse))|
    decreases |rs|
  {
    if |rs| == 0 then []
    else
      var rest := ValidTimes(rs[1..], parse);
      assert forall r :: r in rs <==> r == rs[0] || r in rs[1..];
      match Timestamp(rs[0], parse)
      case Some(t) => [t] + rest
      case None => rest
  }

  /** Every timestamp the slider is built from, before sorting and
      de-duplication: non-deleted posts first, then comments, then
      messages. */
  function CollectTimestamps(posts: seq<Record>, comments: seq<Record>, messages: seq<Record>,
                             parse: string -> Option<int>): (ts: seq<int>)
    ensures |ts| == |Filter(Filter(posts, NotDeleted), Dated(parse))| + |Filter(comments, Dated(parse))|
      + |Filter(messages, Dated(parse))|
  {
    ValidTimes(Filter(posts, NotDeleted), parse) + ValidTimes(comments, parse) + ValidTimes(messages, parse)
  }

  /** A timestamp is collected exactly when some non-deleted post, some
      comment or some message has a date that parses to it. */
  lemma CollectMembership(posts: seq<Record>, comments: seq<Record>, messages: seq<Record>,
                          parse: string -> Option<int>, t: int)
    ensures t in CollectTimestamps(posts, comments, messages, parse) <==>
      (exists p :: p in posts && !IsDeleted(p) && Timestamp(p, parse) == Some(t))
      || (exists c :: c in comments && Timestamp(c, parse) == Some(t))
      || (exists m :: m in messages && Timestamp(m, parse) == Some(t))
  {
    var live := Filter(posts, NotDeleted);
    assert forall p :: p in live <==> p in posts && !IsDeleted(p);
  }

  /** Inserts `x` into an ascending list of distinct values, unless it is
      there already. */
  function InsertUnique(sorted: seq<int>, x: int): (r: seq<int>)
    requires StrictlyIncreasing(sorted)
    ensures StrictlyIncreasing(r)
    ensures forall t :: t in r <==> t in sorted || t == x
    ensures |r| > 0 && (r[0] == x || (|sorted| > 0 && r[0] == sorted[0]))
    decreases |sorted|
  {
    if |sorted| == 0 then [x]
    else if x < sorted[0] then [x] + sorted
    else if x == sorted[0] then sorted
    else
      var rest := InsertUnique(sorted[1..], x);
      assert forall t :: t in sorted <==> t == sorted[0] || t in sorted[1..];
      [sorted[0]] + rest
  }

  /** `[...new Set(ts.sort((a, b) => a - b))]`: the distinct values of `ts`
      in ascending order. */
  function SortedUnique(ts: seq<int>): (r: seq<int>)
    ensures StrictlyIncreasing(r)
    ensures forall t :: t in r <==> t in ts
    decreases |ts|
  {
    if |ts| == 0 then []
    else
      assert forall t :: t in ts <==> t == ts[0] || t in ts[1..];
      InsertUnique(SortedUnique(ts[1..]), ts[0])
  }

  /** An ascending list of distinct values is determined by its elements, so
      any sort followed by any de-duplication yields `SortedUnique`. */
  lemma {:induction false} StrictlyIncreasingUnique(a: seq<int>, b: seq<int>)
    requires StrictlyIncreasing(a) && StrictlyIncreasing(b)
    requires forall t :: t in a <==> t in b
    ensures a == b
    decreases |a|
  {
    assert |a| > 0 ==> a[0] in a && a[0] in b;
    assert |b| > 0 ==> b[0] in b && b[0] in a;
    if |a| > 0 {
      var i :| 0 <= i < |a| && a[i] == b[0];
      var j :| 0 <= j < |b| && b[j] == a[0];
      assert a[0] <= a[i] && b[0] <= b[j];
      assert a[0] == b[0];
      forall t
        ensures t in a[1..] <==> t in b[1..]
      {
        assert t in a[1..] <==> t in a && t != a[0];
        assert t in b[1..] <==> t in b && t != b[0];
      }
      StrictlyIncreasingUnique(a[1..], b[1..]);
      assert a == [a[0]] + a[1..];
      assert b == [b[0]] + b[1..];
    }
  }

  /** `state.dateRange`: the timeline and the two slider positions (0-100). */
  datatype DateRange = DateRange(allDates: seq<int>, minIndex: int, maxIndex: int)

  const InitialRange := DateRange([], 0, 100)

  /** `initDateRangeSlider` given the collected timestamps: with fewer than
      two of them (counted before de-duplication) nothing changes; otherwise
      the timeline is replaced and both sliders reset. */
  function InitDateRange(dr: DateRange, ts: seq<int>): (r: DateRange)
    ensures |ts| < 2 ==> r == dr
    ensures |ts| >= 2 ==> r.minIndex == 0 && r.maxIndex == 100
    ensures |ts| >= 2 ==> StrictlyIncreasing(r.allDates) && forall t :: t in r.allDates <==> t in ts
    ensures StrictlyIncreasing(dr.allDates) ==> StrictlyIncreasing(r.allDates)
  {
    if |ts| < 2 then dr else DateRange(SortedUnique(ts), 0, 100)
  }

  /** Two equal timestamps pass the "at least two" test, so the timeline may
      end up with a single entry, which leaves date filtering off. */
  lemma DuplicateTimestampsGiveShortTimeline(dr: DateRange, t: int)
    ensures InitDateRange(dr, [t, t]).allDates == [t]
  {
    StrictlyIncreasingUnique(InitDateRange(dr, [t, t]).allDates, [t]);
  }

  /** Two non-deleted posts with valid dates are enough for a new timeline,
      even when their dates are equal: the test counts records, not
      distinct dates. */
  lemma TwoDatedPostsResetSliders(dr: DateRange, posts: seq<Record>, comments: seq<Record>,
                                  messages: seq<Record>, parse: string -> Option<int>, i: int, j: int)
    requires 0 <= i < j < |posts|
    requires NotDeleted(posts[i]) && Timestamp(posts[i], parse).Some?
    requires NotDeleted(posts[j]) && Timestamp(posts[j], parse).Some?
    ensures var ts := CollectTimestamps(posts, comments, messages, parse);
      var r := InitDateRange(dr, ts);
      |ts| >= 2 && r.minIndex == 0 && r.maxIndex == 100 && forall t :: t in r.allDates <==> t in ts
  {
    FilterFilterTwo(posts, NotDeleted, Dated(parse), i, j);
  }

  datatype Slider = MinSlider | MaxSlider

  /** `handleDateRangeChange`: the slider that moved takes `value`, the other
      keeps its position; if the minimum would come within 5 of the maximum,
      only the slider that moved is pushed back. */
  function SlideTo(dr: DateRange, moved: Slider, value: int): (r: DateRange)
    ensures r.allDates == dr.allDates
    ensures r.maxIndex - r.minIndex >= 5
    ensures moved == MinSlider ==> r.maxIndex == dr.maxIndex
    ensures moved == MaxSlider ==> r.minIndex == dr.minIndex
    ensures moved == MinSlider ==> r.minIndex == (if value > dr.maxIndex - 5 then dr.maxIndex - 5 else value)
    ensures moved == MaxSlider ==> r.maxIndex == (if dr.minIndex > value - 5 then dr.minIndex + 5 else value)
  {
    var minVal := if moved == MinSlider then value else dr.minIndex;
    var maxVal := if moved == MaxSlider then value else dr.maxIndex;
    if minVal > maxVal - 5 then
      if moved == MinSlider then dr.(minIndex := maxVal - 5)
      else dr.(maxIndex := minVal + 5)
    else dr.(minIndex := minVal, maxIndex := maxVal)
  }

  /** Slider positions the page can show: both in 0..100, at least 5 apart. */
  predicate SlidersInRange(dr: DateRange) {
    0 <= dr.minIndex && dr.minIndex + 5 <= dr.maxIndex <= 100
  }

  /** Moving a slider within 0..100 keeps both positions in range. */
  lemma SlideKeepsRange(dr: DateRange, moved: Slider, value: int)
    requires SlidersInRange(dr)
    requires 0 <= value <= 100
    ensures SlidersInRange(SlideTo(dr, moved, value))
  {
  }

  /** `Math.floor((pct / 100) * (n - 1))`, in exact arithmetic. */
  function BoundIndex(n: int, pct: int): int {
    (pct * (n - 1)) / 100
  }

  lemma BoundIndexInRange(n: int, pct: int)
    requires n >= 1 && 0 <= pct <= 100
    ensures 0 <= BoundIndex(n, pct) < n
  {
    assert pct * (n - 1) <= 100 * (n - 1) by {
      MulMono(pct, 100, n - 1);
    }
  }

  lemma BoundIndexMonotone(n: int, p: int, q: int)
    requires n >= 1 && p <= q
    ensures BoundIndex(n, p) <= BoundIndex(n, q)
  {
    MulMono(p, q, n - 1);
  }

  lemma MulMono(a: int, b: int, c: int)
    requires a <= b && c >= 0
    ensures a * c <= b * c
  {
    assert b * c - a * c == (b - a) * c;
  }

  /** `dates[idx]`; an index outside the list gives `undefined`. */
  function DateAt(dates: seq<int>, idx: int): Option<int> {
    if 0 <= idx < |dates| then Some(dates[idx]) else None
  }

  /** The date window `applyFilters` applies. */
  datatype Window = Unbounded | Between(lo: Option<int>, hi: Option<int>)

  function WindowOf(dr: DateRange): (w: Window)
    ensures w == Unbounded <==> |dr.allDates| < 2
  {
    var n := |dr.allDates|;
    if n < 2 then Unbounded
    else Between(DateAt(dr.allDates, BoundIndex(n, dr.minIndex)), DateAt(dr.allDates, BoundIndex(n, dr.maxIndex)))
  }

  /** `!isNaN(t) && t >= minDate && t <= maxDate`; a comparison with
      `undefined` is false. */
  predicate InWindow(w: Window, t: Option<int>) {
    match w
    case Unbounded => true
    case Between(lo, hi) => t.Some? && lo.Some? && hi.Some? && lo.value <= t.value <= hi.value
  }

  /** With the sliders in range and a timeline of at least two dates, the
      window is the closed interval between the dates the two slider
      positions select, and it is never empty. */
  lemma WindowBounds(dr: DateRange)
    requires SlidersInRange(dr) && StrictlyIncreasing(dr.allDates) && |dr.allDates| >= 2
    ensures 0 <= BoundIndex(|dr.allDates|, dr.minIndex) <= BoundIndex(|dr.allDates|, dr.maxIndex) < |dr.allDates|
    ensures WindowOf(dr) == Between(Some(dr.allDates[BoundIndex(|dr.allDates|, dr.minIndex)]),
                                    Some(dr.allDates[BoundIndex(|dr.allDates|, dr.maxIndex)]))
    ensures WindowOf(dr).lo.value <= WindowOf(dr).hi.value
  {
    var n := |dr.allDates|;
    BoundIndexInRange(n, dr.minIndex);
    BoundIndexInRange(n, dr.maxIndex);
    BoundIndexMonotone(n, dr.minIndex, dr.maxIndex);
  }

  /** Three dates with the sliders at 0 and 50 select the first two
      (`floor(0.5 * 2) = 1`). */
  lemma ThreeDatesHalfRange(a: int, b: int, c: int)
    ensures WindowOf(DateRange([a, b, c], 0, 50)) == Between(Some(a), Some(b))
  {
  }
}
