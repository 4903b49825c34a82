/** The predicates `applyFilters` chains, and the five filtered views it
    rebuilds from the raw lists (app.js:727-820). */
module Filters {
  import opened Text
  import opened Records
  import opened DateIndex

  /** The post-type select: 'all', 'text' or 'link'. */
  datatype PostKind = AllKinds | TextPosts | LinkPosts

  /** The filter settings of the state object; `query` is already lower-cased
      and trimmed by the search handler. */
  datatype Settings = Settings(query: string, kind: PostKind, subreddit: string)

  /** The subreddit select's "no filter" value. */
  const AllSubreddits := "all"

  const PostSearchFields := ["subreddit", "title", "body"]
  const CommentSearchFields := ["subreddit", "body"]
  const MessageSearchFields := ["from", "to", "subject", "body"]
  const VoteSearchFields := ["permalink"]

  /** `post.body && post.body.trim().length > 0`. */
  predicate HasBody(p: Record) {
    HasValue(p, "body") && Trim(p["body"]) != ""
  }

  /** `!post.url || post.url.includes('reddit.com') || post.url.startsWith('/r/')`. */
  predicate IsSelfPost(p: Record) {
    !HasValue(p, "url") || Contains(p["url"], "reddit.com") || StartsWith(p["url"], "/r/")
  }

  predicate IsTextPost(p: Record) {
    HasBody(p) || IsSelfPost(p)
  }

  /** A link post has a non-empty url that names no reddit.com page and is no
      `/r/` path: exactly the posts that are not self posts. */
  predicate IsLinkPost(p: Record)
    ensures IsLinkPost(p) <==> !IsSelfPost(p)
  {
    HasValue(p, "url") && !Contains(p["url"], "reddit.com") && !StartsWith(p["url"], "/r/")
  }

  predicate KindKeeps(kind: PostKind, p: Record) {
    match kind
    case AllKinds => true
    case TextPosts => IsTextPost(p)
    case LinkPosts => IsLinkPost(p)
  }

  /** `post.subreddit === sub`: exact and case-sensitive. */
  predicate InSubreddit(p: Record, sub: string) {
    Lookup(p, "subreddit") == Some(sub)
  }

  predicate SubredditKeeps(sub: string, p: Record) {
    sub == AllSubreddits || InSubreddit(p, sub)
  }

  /** `r[key]?.toLowerCase().includes(q)`: a missing field is `undefined`
      and never matches. */
  predicate FieldMatches(r: Record, key: string, q: string) {
    key in r && Contains(Lower(r[key]), q)
  }

  /** Some field of `fields` matches the query. */
  predicate SearchMatches(r: Record, fields: seq<string>, q: string) {
    exists i :: 0 <= i < |fields| && FieldMatches(r, fields[i], q)
  }

  /** A field that is absent or empty never matches a non-empty query. */
  lemma MissingFieldNeverMatches(r: Record, key: string, q: string)
    requires !HasValue(r, key) && q != ""
    ensures !FieldMatches(r, key, q)
  {
    if key in r {
      assert Lower(r[key]) == "";
      EmptyContainsNothing(q);
    }
  }

  predicate QueryKeeps(q: string, fields: seq<string>, r: Record) {
    q == "" || SearchMatches(r, fields, q)
  }

  function DateOf(r: Record, parse: string -> Option<int>): Option<int> {
    Timestamp(r, parse)
  }

  /** One `filter` step the source takes only when its setting is on. */
  function Stage(s: seq<Record>, on: bool, keep: Record -> bool): seq<Record> {
    if on then Filter(s, keep) else s
  }

  function KindTest(kind: PostKind): Record -> bool {
    (p: Record) => KindKeeps(kind, p)
  }

  function SubredditTest(sub: string): Record -> bool {
    (p: Record) => InSubreddit(p, sub)
  }

  function DateTest(w: Window, parse: string -> Option<int>): Record -> bool {
    (r: Record) => InWindow(w, Timestamp(r, parse))
  }

  function QueryTest(fields: seq<string>, q: string): Record -> bool {
    (r: Record) => SearchMatches(r, fields, q)
  }

  /** The posts pipeline, one `filter` at a time in the order of the source:
      the deleted sentinel, the post type, the subreddit, the date window and
      the search. */
  function FilterPosts(posts: seq<Record>, s: Settings, w: Window, parse: string -> Option<int>): seq<Record> {
    var p0 := Filter(posts, NotDeleted);
    var p1 := Stage(p0, s.kind != AllKinds, KindTest(s.kind));
    var p2 := Stage(p1, s.subreddit != AllSubreddits, SubredditTest(s.subreddit));
    var p3 := Stage(p2, w.Between?, DateTest(w, parse));
    Stage(p3, s.query != "", QueryTest(PostSearchFields, s.query))
  }

  /** Comments and messages: the search (or a whole copy), then the date window. */
  function FilterDated(rs: seq<Record>, fields: seq<string>, q: string, w: Window,
                       parse: string -> Option<int>): seq<Record> {
    Stage(Stage(rs, q != "", QueryTest(fields, q)), w.Between?, DateTest(w, parse))
  }

  /** Votes: the search on the permalink, or a whole copy; never a date window. */
  function FilterVotes(votes: seq<Record>, q: string): seq<Record> {
    Stage(votes, q != "", QueryTest(VoteSearchFields, q))
  }

  /** What decides whether a post is shown: all five tests at once. */
  predicate PostVisible(p: Record, s: Settings, w: Window, parse: string -> Option<int>) {
    NotDeleted(p) && KindKeeps(s.kind, p) && SubredditKeeps(s.subreddit, p)
    && InWindow(w, Timestamp(p, parse)) && QueryKeeps(s.query, PostSearchFields, p)
  }

  predicate DatedVisible(r: Record, fields: seq<string>, q: string, w: Window, parse: string -> Option<int>) {
    QueryKeeps(q, fields, r) && InWindow(w, Timestamp(r, parse))
  }

  /** A filter followed by a step that may be off is one filter by the
      combined test. */
  lemma StageAfterFilter(s: seq<Record>, f: Record -> bool, on: bool, g: Record -> bool, h: Record -> bool)
    requires forall x :: h(x) == (f(x) && (!on || g(x)))
    ensures Stage(Filter(s, f), on, g) == Filter(s, h)
  {
    if on {
      FilterFilter(s, f, g);
      FilterExt(s, x => f(x) && g(x), h);
    } else {
      FilterExt(s, f, h);
    }
  }

  /** A step that may be off is a filter by a test that is true when it is off. */
  lemma StageIsFilter(s: seq<Record>, on: bool, g: Record -> bool, h: Record -> bool)
    requires forall x :: h(x) == (!on || g(x))
    ensures Stage(s, on, g) == Filter(s, h)
  {
    if on {
      FilterExt(s, g, h);
    } else {
      FilterKeepsAll(s, h);
    }
  }

  /** The chain of post filters is a single filter by `PostVisible`. */
  lemma PostsAreOneFilter(posts: seq<Record>, s: Settings, w: Window, parse: string -> Option<int>)
    ensures FilterPosts(posts, s, w, parse) == Filter(posts, (p: Record) => PostVisible(p, s, w, parse))
  {
    var h1 := (p: Record) => NotDeleted(p) && KindKeeps(s.kind, p);
    var h2 := (p: Record) => h1(p) && SubredditKeeps(s.subreddit, p);
    var h3 := (p: Record) => h2(p) && InWindow(w, Timestamp(p, parse));
    var h4 := (p: Record) => PostVisible(p, s, w, parse);
    StageAfterFilter(posts, NotDeleted, s.kind != AllKinds, KindTest(s.kind), h1);
    StageAfterFilter(posts, h1, s.subreddit != AllSubreddits, SubredditTest(s.subreddit), h2);
    StageAfterFilter(posts, h2, w.Between?, DateTest(w, parse), h3);
    StageAfterFilter(posts, h3, s.query != "", QueryTest(PostSearchFields, s.query), h4);
  }

  lemma DatedIsOneFilter(rs: seq<Record>, fields: seq<string>, q: string, w: Window, parse: string -> Option<int>)
    ensures FilterDated(rs, fields, q, w, parse) == Filter(rs, (r: Record) => DatedVisible(r, fields, q, w, parse))
  {
    var h1 := (r: Record) => QueryKeeps(q, fields, r);
    StageIsFilter(rs, q != "", QueryTest(fields, q), h1);
    StageAfterFilter(rs, h1, w.Between?, DateTest(w, parse), (r: Record) => DatedVisible(r, fields, q, w, parse));
  }

  lemma VotesAreOneFilter(votes: seq<Record>, q: string)
    ensures FilterVotes(votes, q) == Filter(votes, (r: Record) => QueryKeeps(q, VoteSearchFields, r))
  {
    StageIsFilter(votes, q != "", QueryTest(VoteSearchFields, q), (r: Record) => QueryKeeps(q, VoteSearchFields, r));
  }

  /** The posts view: an order-preserving subsequence of the raw posts that
      keeps a post exactly when it passes all five tests, so it never holds a
      deleted post. */
  lemma PostsView(posts: seq<Record>, s: Settings, w: Window, parse: string -> Option<int>)
    ensures IsSubsequence(FilterPosts(posts, s, w, parse), posts)
    ensures multiset(FilterPosts(posts, s, w, parse)) <= multiset(posts)
    ensures forall p :: p in FilterPosts(posts, s, w, parse) <==> p in posts && PostVisible(p, s, w, parse)
    ensures forall p :: p in FilterPosts(posts, s, w, parse) ==> !IsDeleted(p)
  {
    PostsAreOneFilter(posts, s, w, parse);
    FilterIsSubsequence(posts, (p: Record) => PostVisible(p, s, w, parse));
    FilterMultiset(posts, (p: Record) => PostVisible(p, s, w, parse));
  }

  /** The comments and messages views: an order-preserving subsequence of the
      raw list, keeping a record exactly when the query (if any) matches one
      of the searched fields and its date lies in the window (if any). */
  lemma DatedView(rs: seq<Record>, fields: seq<string>, q: string, w: Window, parse: string -> Option<int>)
    ensures IsSubsequence(FilterDated(rs, fields, q, w, parse), rs)
    ensures multiset(FilterDated(rs, fields, q, w, parse)) <= multiset(rs)
    ensures forall r :: r in FilterDated(rs, fields, q, w, parse) <==> r in rs && DatedVisible(r, fields, q, w, parse)
    ensures q == "" && w == Unbounded ==> FilterDated(rs, fields, q, w, parse) == rs
  {
    DatedIsOneFilter(rs, fields, q, w, parse);
    FilterIsSubsequence(rs, (r: Record) => DatedVisible(r, fields, q, w, parse));
    FilterMultiset(rs, (r: Record) => DatedVisible(r, fields, q, w, parse));
  }

  /** The vote views: an order-preserving subsequence, keeping a vote exactly
      when the query is empty or occurs in its lower-cased permalink. */
  lemma VotesView(votes: seq<Record>, q: string)
    ensures IsSubsequence(FilterVotes(votes, q), votes)
    ensures multiset(FilterVotes(votes, q)) <= multiset(votes)
    ensures forall r :: r in FilterVotes(votes, q) <==>
      r in votes && (q == "" || ("permalink" in r && Contains(Lower(r["permalink"]), q)))
  {
    VotesAreOneFilter(votes, q);
    var qk := (r: Record) => QueryKeeps(q, VoteSearchFields, r);
    FilterIsSubsequence(votes, qk);
    FilterMultiset(votes, qk);
    forall r
      ensures SearchMatches(r, VoteSearchFields, q) <==> "permalink" in r && Contains(Lower(r["permalink"]), q)
    {
      if "permalink" in r && Contains(Lower(r["permalink"]), q) {
        assert FieldMatches(r, VoteSearchFields[0], q);
      }
    }
  }

  /** Every post is a text post or a link post, so the 'text' and 'link'
      views together hold every post of the 'all' view (both may hold a post
      with a body and an outside url). */
  lemma TextAndLinkCoverAll(posts: seq<Record>, s: Settings, w: Window, parse: string -> Option<int>, p: Record)
    ensures p in FilterPosts(posts, s.(kind := AllKinds), w, parse) <==>
      p in FilterPosts(posts, s.(kind := TextPosts), w, parse) || p in FilterPosts(posts, s.(kind := LinkPosts), w, parse)
  {
    PostsView(posts, s.(kind := AllKinds), w, parse);
    PostsView(posts, s.(kind := TextPosts), w, parse);
    PostsView(posts, s.(kind := LinkPosts), w, parse);
  }

  /** With a timeline of at least two dates and the sliders in range, every
      post, comment and message kept has a valid date between the two
      selected timeline entries. */
  lemma KeptDatesInWindow(r: Record, dr: DateRange, parse: string -> Option<int>)
    requires SlidersInRange(dr) && StrictlyIncreasing(dr.allDates) && |dr.allDates| >= 2
    requires InWindow(WindowOf(dr), Timestamp(r, parse))
    ensures Timestamp(r, parse).Some?
    ensures dr.allDates[BoundIndex(|dr.allDates|, dr.minIndex)] <= Timestamp(r, parse).value
            <= dr.allDates[BoundIndex(|dr.allDates|, dr.maxIndex)]
  {
    WindowBounds(dr);
  }

  /** Re-filtering a view with the same settings changes nothing. */
  lemma PostsFilterIdempotent(posts: seq<Record>, s: Settings, w: Window, parse: string -> Option<int>)
    ensures FilterPosts(FilterPosts(posts, s, w, parse), s, w, parse) == FilterPosts(posts, s, w, parse)
  {
    var v := (p: Record) => PostVisible(p, s, w, parse);
    PostsAreOneFilter(posts, s, w, parse);
    PostsAreOneFilter(Filter(posts, v), s, w, parse);
    FilterIdempotent(posts, v);
  }

  /** The subreddits offered by the select: those of non-deleted posts with
      a subreddit. */
  function LiveSubreddits(posts: seq<Record>): (subs: set<string>)
    ensures forall sub :: sub in subs <==>
      exists p :: p in posts && NotDeleted(p) && HasValue(p, "subreddit") && p["subreddit"] == sub
  {
    set p | p in posts && NotDeleted(p) && HasValue(p, "subreddit") :: p["subreddit"]
  }

  /** The count shown beside a subreddit. */
  function SubredditCount(posts: seq<Record>, sub: string): nat {
    |Filter(posts, (p: Record) => InSubreddit(p, sub) && NotDeleted(p))|
  }

  /** `populateSubredditFilter`: `None` when there are no posts or no
      subreddit to offer, and the select is then left as it was; otherwise
      each offered subreddit with its count. */
  function SubredditOptions(posts: seq<Record>): (m: Option<map<string, nat>>)
    ensures m.None? <==> |posts| == 0 || LiveSubreddits(posts) == {}
    ensures m.Some? ==> m.value.Keys == LiveSubreddits(posts)
    ensures m.Some? ==> forall sub :: sub in m.value ==> m.value[sub] == SubredditCount(posts, sub)
  {
    if |posts| == 0 || LiveSubreddits(posts) == {} then None
    else Some(map sub | sub in LiveSubreddits(posts) :: SubredditCount(posts, sub))
  }

  /** Every offered subreddit has at least one post, and its count is the
      number of posts the view shows when that subreddit is selected and no
      other filter is on (a subreddit named like the "all" option would
      select the unfiltered view instead). */
  lemma SubredditCountIsView(posts: seq<Record>, sub: string, parse: string -> Option<int>)
    requires sub in LiveSubreddits(posts) && sub != AllSubreddits
    ensures SubredditCount(posts, sub) >= 1
    ensures SubredditCount(posts, sub) == |FilterPosts(posts, Settings("", AllKinds, sub), Unbounded, parse)|
  {
    var keep := (p: Record) => InSubreddit(p, sub) && NotDeleted(p);
    var p :| p in posts && NotDeleted(p) && HasValue(p, "subreddit") && p["subreddit"] == sub;
    assert p in Filter(posts, keep);
    var st := Settings("", AllKinds, sub);
    PostsAreOneFilter(posts, st, Unbounded, parse);
    FilterExt(posts, (q: Record) => PostVisible(q, st, Unbounded, parse), keep);
  }

  /** The search scenario: a post titled "My Cats" with body "dogs" matches
      the query "cats" through its title. */
  lemma CatsTitleMatches()
    ensures SearchMatches(map["title" := "My Cats", "body" := "dogs"], PostSearchFields, "cats")
  {
    var r := map["title" := "My Cats", "body" := "dogs"];
    assert Lower("My Cats") == "my cats";
    assert "my cats"[3..7] == "cats";
    ContainsAt("my cats", "cats");
    assert OccursAt("my cats", "cats", 3);
    assert FieldMatches(r, PostSearchFields[1], "cats");
  }

  /** The post-type scenario: an outside url is a link post... */
  lemma OutsideUrlIsLink()
    ensures IsLinkPost(map["url" := "http://x.io"])
  {
    var good := "http://x.io";
    var p := map["url" := good];
    assert Lookup(p, "url") == Some(good);
    assert 'r' !in good by {
      forall i | 0 <= i < |good| ensures good[i] != 'r' { }
    }
    AbsentFirstChar(good, "reddit.com");
    assert !StartsWith(good, "/r/") by { assert good[..3][0] == 'h'; }
  }

  /** ...and a reddit.com url is not. */
  lemma RedditUrlIsNotLink()
    ensures !IsLinkPost(map["url" := "https://reddit.com/r/x"])
  {
    var bad := "https://reddit.com/r/x";
    assert bad[8..18] == "reddit.com";
    ContainsAt(bad, "reddit.com");
    assert OccursAt(bad, "reddit.com", 8);
  }
}
