/** The viewer's `state` object (app.js:6-70) and the handlers that change it:
    ingest, the date sliders, the filter pipeline, the column sort, the page
    buttons, tab switching and post deletion. The fields of `state` are
    grouped here by role: the datasets as loaded, the filtered views, the
    page numbers and the controls. */
module Engine {
  import opened Text
  import opened Records
  import opened DateIndex
  import opened Filters
  import opened Sorting
  import opened Pagination
  import opened Presentation

  datatype Tab = PostsTab | CommentsTab | MessagesTab | VotesTab | SavedTab | AccountTab | SettingsTab
  datatype VotesSubTab = PostVotesSub | CommentVotesSub
  datatype SavedSubTab = SavedPostsSub | SavedCommentsSub | HiddenPostsSub

  /** The records a modal can show. */
  datatype ModalKind = PostModal | CommentModal | MessageModal

  /** The datasets, as loaded. */
  datatype RawData = RawData(
    posts: seq<Record>, comments: seq<Record>, messages: seq<Record>,
    postVotes: seq<Record>, commentVotes: seq<Record>, savedPosts: seq<Record>,
    savedComments: seq<Record>, hiddenPosts: seq<Record>, statistics: seq<Record>,
    subscriptions: seq<Record>, preferences: seq<Record>)

  const NoData := RawData([], [], [], [], [], [], [], [], [], [], [])

  function Dataset(r: RawData, k: Kind): seq<Record> {
    match k
    case Posts => r.posts
    case Comments => r.comments
    case Messages => r.messages
    case PostVotes => r.postVotes
    case CommentVotes => r.commentVotes
    case SavedPosts => r.savedPosts
    case SavedComments => r.savedComments
    case HiddenPosts => r.hiddenPosts
    case Statistics => r.statistics
    case Subscriptions => r.subscriptions
    case Preferences => r.preferences
  }

  /** `state[key] = data`: that dataset is replaced, every other is kept. */
  function Store(r: RawData, k: Kind, data: seq<Record>): (r': RawData)
    ensures Dataset(r', k) == data
    ensures forall other :: other != k ==> Dataset(r', other) == Dataset(r, other)
  {
    match k
    case Posts => r.(posts := data)
    case Comments => r.(comments := data)
    case Messages => r.(messages := data)
    case PostVotes => r.(postVotes := data)
    case CommentVotes => r.(commentVotes := data)
    case SavedPosts => r.(savedPosts := data)
    case SavedComments => r.(savedComments := data)
    case HiddenPosts => r.(hiddenPosts := data)
    case Statistics => r.(statistics := data)
    case Subscriptions => r.(subscriptions := data)
    case Preferences => r.(preferences := data)
  }

  /** The five paged lists. */
  datatype PagedList = PostsList | CommentsList | MessagesList | PostVotesList | CommentVotesList

  /** The filtered lists the tables show. */
  datatype Views = Views(
    posts: seq<Record>, comments: seq<Record>, messages: seq<Record>,
    postVotes: seq<Record>, commentVotes: seq<Record>)

  function View(v: Views, list: PagedList): seq<Record> {
    match list
    case PostsList => v.posts
    case CommentsList => v.comments
    case MessagesList => v.messages
    case PostVotesList => v.postVotes
    case CommentVotesList => v.commentVotes
  }

  /** Every view is drawn from its dataset, and the posts view holds no
      deleted post. */
  predicate Within(v: Views, r: RawData) {
    multiset(v.posts) <= multiset(r.posts)
    && multiset(v.comments) <= multiset(r.comments)
    && multiset(v.messages) <= multiset(r.messages)
    && multiset(v.postVotes) <= multiset(r.postVotes)
    && multiset(v.commentVotes) <= multiset(r.commentVotes)
    && forall p :: p in v.posts ==> !IsDeleted(p)
  }

  /** What `applyFilters` makes of the datasets, the settings and the date
      window. */
  function FilterAll(r: RawData, s: Settings, w: Window, parse: string -> Option<int>): Views {
    Views(FilterPosts(r.posts, s, w, parse),
          FilterDated(r.comments, CommentSearchFields, s.query, w, parse),
          FilterDated(r.messages, MessageSearchFields, s.query, w, parse),
          FilterVotes(r.postVotes, s.query),
          FilterVotes(r.commentVotes, s.query))
  }

  /** Each view `applyFilters` builds keeps its dataset's order, and holds
      a record exactly when the record passes every test that view applies. */
  lemma FilterAllMeaning(r: RawData, s: Settings, w: Window, parse: string -> Option<int>)
    ensures var v := FilterAll(r, s, w, parse);
      Within(v, r)
      && IsSubsequence(v.posts, r.posts) && IsSubsequence(v.comments, r.comments)
      && IsSubsequence(v.messages, r.messages) && IsSubsequence(v.postVotes, r.postVotes)
      && IsSubsequence(v.commentVotes, r.commentVotes)
      && (forall p :: p in v.posts <==> p in r.posts && PostVisible(p, s, w, parse))
      && (forall c :: c in v.comments <==> c in r.comments && DatedVisible(c, CommentSearchFields, s.query, w, parse))
      && (forall m :: m in v.messages <==> m in r.messages && DatedVisible(m, MessageSearchFields, s.query, w, parse))
  {
    PostsView(r.posts, s, w, parse);
    DatedView(r.comments, CommentSearchFields, s.query, w, parse);
    DatedView(r.messages, MessageSearchFields, s.query, w, parse);
    VotesView(r.postVotes, s.query);
    VotesView(r.commentVotes, s.query);
  }

  /** The same, for the invariant alone. */
  lemma FilterAllWithin(r: RawData, s: Settings, w: Window, parse: string -> Option<int>)
    ensures Within(FilterAll(r, s, w, parse), r)
  {
    FilterAllMeaning(r, s, w, parse);
  }

  /** `sortData(dataType, ...)`: the posts, comments or messages view of its
      tab is put in order as a permutation of itself; every other view, and
      every view of any other tab, is left as it is. */
  function SortTab(v: Views, tab: Tab, key: Record -> Key, dir: Direction): (r: Views)
    ensures multiset(r.posts) == multiset(v.posts)
    ensures multiset(r.comments) == multiset(v.comments)
    ensures multiset(r.messages) == multiset(v.messages)
    ensures r.postVotes == v.postVotes && r.commentVotes == v.commentVotes
    ensures tab == PostsTab ==> Sorted(r.posts, key, dir) && r.comments == v.comments && r.messages == v.messages
    ensures tab == CommentsTab ==> Sorted(r.comments, key, dir) && r.posts == v.posts && r.messages == v.messages
    ensures tab == MessagesTab ==> Sorted(r.messages, key, dir) && r.posts == v.posts && r.comments == v.comments
    ensures tab !in {PostsTab, CommentsTab, MessagesTab} ==> r == v
  {
    match tab
    case PostsTab => v.(posts := SortBy(v.posts, key, dir))
    case CommentsTab => v.(comments := SortBy(v.comments, key, dir))
    case MessagesTab => v.(messages := SortBy(v.messages, key, dir))
    case _ => v
  }

  /** Sorting a view keeps it drawn from its dataset. */
  lemma SortTabWithin(v: Views, r: RawData, tab: Tab, key: Record -> Key, dir: Direction)
    requires Within(v, r)
    ensures Within(SortTab(v, tab, key, dir), r)
  {
    var s := SortTab(v, tab, key, dir);
    forall p | p in s.posts ensures !IsDeleted(p) {
      assert p in multiset(s.posts);
    }
  }

  /** The views after `processData` stores `data`: posts without deleted
      ones and comments and messages, each sorted by `newest` in descending
      order (`sortData(type, 'date', 'desc')`); votes as they are; the other
      datasets have no view. */
  function Loaded(v: Views, kind: Kind, data: seq<Record>, newest: Record -> Key): Views {
    match kind
    case Posts => v.(posts := SortBy(Filter(data, NotDeleted), newest, Desc))
    case Comments => v.(comments := SortBy(data, newest, Desc))
    case Messages => v.(messages := SortBy(data, newest, Desc))
    case PostVotes => v.(postVotes := data)
    case CommentVotes => v.(commentVotes := data)
    case _ => v
  }

  /** Storing a dataset keeps every view within its dataset. */
  lemma LoadedWithin(r: RawData, v: Views, kind: Kind, data: seq<Record>, newest: Record -> Key)
    requires Within(v, r)
    ensures Within(Loaded(v, kind, data, newest), Store(r, kind, data))
  {
    if kind == Posts {
      var live := SortBy(Filter(data, NotDeleted), newest, Desc);
      FilterMultiset(data, NotDeleted);
      assert forall p :: p in live ==> p in Filter(data, NotDeleted) by {
        forall p | p in live ensures p in Filter(data, NotDeleted) {
          assert p in multiset(live);
        }
      }
    }
  }

  /** After posts are loaded, the posts view holds every non-deleted post as
      often as the file does and no other record, newest first. */
  lemma LoadedPostsView(v: Views, data: seq<Record>, newest: Record -> Key)
    ensures var shown := Loaded(v, Posts, data, newest).posts;
      multiset(shown) == multiset(Filter(data, NotDeleted))
      && (forall p :: p in shown <==> p in data && !IsDeleted(p))
      && Sorted(shown, newest, Desc)
  {
    var shown := Loaded(v, Posts, data, newest).posts;
    forall p
      ensures p in shown <==> p in data && !IsDeleted(p)
    {
      assert p in shown <==> p in multiset(shown);
    }
  }

  /** The sliders in range over a strictly increasing timeline, every view
      drawn from its dataset, every page number at least 1. */
  predicate Consistent(r: RawData, v: Views, dr: DateRange, p: PageNums) {
    SlidersInRange(dr) && StrictlyIncreasing(dr.allDates) && Within(v, r) && PagesPositive(p)
  }

  datatype PageNums = PageNums(posts: int, comments: int, messages: int, postVotes: int, commentVotes: int)

  const FirstPages := PageNums(1, 1, 1, 1, 1)

  function PageOf(p: PageNums, list: PagedList): int {
    match list
    case PostsList => p.posts
    case CommentsList => p.comments
    case MessagesList => p.messages
    case PostVotesList => p.postVotes
    case CommentVotesList => p.commentVotes
  }

  /** `state[pageKey] = page`: that list's page changes, the others stay. */
  function SetPage(p: PageNums, list: PagedList, n: int): (p': PageNums)
    ensures PageOf(p', list) == n
    ensures forall other :: other != list ==> PageOf(p', other) == PageOf(p, other)
  {
    match list
    case PostsList => p.(posts := n)
    case CommentsList => p.(comments := n)
    case MessagesList => p.(messages := n)
    case PostVotesList => p.(postVotes := n)
    case CommentVotesList => p.(commentVotes := n)
  }

  predicate PagesPositive(p: PageNums) {
    p.posts >= 1 && p.comments >= 1 && p.messages >= 1 && p.postVotes >= 1 && p.commentVotes >= 1
  }

  /** Tabs, sort and filter settings. */
  datatype Controls = Controls(
    tab: Tab, votesSubTab: VotesSubTab, savedSubTab: SavedSubTab,
    sortField: string, sortDirection: Direction,
    searchQuery: string, postTypeFilter: PostKind, subredditFilter: string)

  const InitialControls := Controls(PostsTab, PostVotesSub, SavedPostsSub, "date", Desc, "", AllKinds, AllSubreddits)

  function SettingsOf(c: Controls): Settings {
    Settings(c.searchQuery, c.postTypeFilter, c.subredditFilter)
  }

  function ModalList(kind: ModalKind): PagedList {
    match kind
    case PostModal => PostsList
    case CommentModal => CommentsList
    case MessageModal => MessagesList
  }

  /** The posts steps of `applyFilters`: the deleted sentinel, the post
      type, the subreddit, the date window, the search. */
  method FilterPostsSteps(posts: seq<Record>, s: Settings, w: Window, parse: string -> Option<int>)
    returns (fp: seq<Record>)
    ensures fp == FilterPosts(posts, s, w, parse)
  {
    var p0 := Filter(posts, NotDeleted);
    var p1 := p0;
    if s.kind == TextPosts {
      p1 := Filter(p0, KindTest(s.kind));
    } else if s.kind == LinkPosts {
      p1 := Filter(p0, KindTest(s.kind));
    }
    var p2 := p1;
    if s.subreddit != AllSubreddits {
      p2 := Filter(p1, SubredditTest(s.subreddit));
    }
    var p3 := p2;
    if w.Between? {
      p3 := Filter(p2, DateTest(w, parse));
    }
    fp := p3;
    if s.query != "" {
      fp := Filter(p3, QueryTest(PostSearchFields, s.query));
    }
  }

  function KeepOtherIds(id: string): Record -> bool {
    (p: Record) => Lookup(p, "id") != Some(id)
  }

  /** `posts.filter(p => p.id !== postId)`. */
  function WithoutId(posts: seq<Record>, id: string): seq<Record> {
    Filter(posts, KeepOtherIds(id))
  }

  /** Deleting a post keeps every record with another id (or none), in
      order, and no record with that id; deleting it again changes nothing. */
  lemma WithoutIdMeaning(posts: seq<Record>, id: string)
    ensures IsSubsequence(WithoutId(posts, id), posts)
    ensures forall p :: p in WithoutId(posts, id) <==> p in posts && Lookup(p, "id") != Some(id)
    ensures WithoutId(WithoutId(posts, id), id) == WithoutId(posts, id)
  {
    FilterIsSubsequence(posts, KeepOtherIds(id));
    FilterIdempotent(posts, KeepOtherIds(id));
  }

  /** A list drawn from another has no more elements than it. */
  lemma CountWithin(a: seq<Record>, b: seq<Record>)
    requires multiset(a) <= multiset(b)
    ensures |a| <= |b|
  {
    var d := multiset(b) - multiset(a);
    assert multiset(b) == multiset(a) + d;
    assert |multiset(b)| == |multiset(a)| + |d|;
  }

  class Engine {
    /** The date parser (`new Date(s).getTime()`, `None` for NaN). */
    const parseDate: string -> Option<int>

    var raw: RawData
    var views: Views
    var pages: PageNums
    var ui: Controls
    var dateRange: DateRange
    var filesLoaded: set<Kind>

    /** What the subreddit select offers; `None` while it holds only "all". */
    var subredditOptions: Option<map<string, nat>>

    /** What every handler keeps: the sliders in range over a strictly
        increasing timeline, each view drawn from its dataset with no
        deleted post shown, and every page number at least 1. */
    predicate Valid()
      reads this
    {
      Consistent(raw, views, dateRange, pages)
    }

    function Window(): Window
      reads this
    {
      WindowOf(dateRange)
    }

    /** The initial `state`. */
    constructor (parse: string -> Option<int>)
      ensures Valid()
      ensures parseDate == parse
      ensures raw == NoData && views == Views([], [], [], [], []) && pages == FirstPages
      ensures ui == InitialControls
      ensures dateRange == InitialRange && filesLoaded == {} && subredditOptions == None
    {
      parseDate := parse;
      raw := NoData;
      views := Views([], [], [], [], []);
      pages := FirstPages;
      ui := InitialControls;
      dateRange := InitialRange;
      filesLoaded := {};
      subredditOptions := None;
    }

    /** `sortData(dataType, field, direction)`, by the column's key. */
    method SortData(tab: Tab, field: string, dir: Direction)
      requires Valid()
      modifies this
      ensures Valid()
      ensures views == SortTab(old(views), tab, ColumnKey(field, parseDate), dir)
      ensures (raw, pages, ui, dateRange, filesLoaded, subredditOptions) == old((raw, pages, ui, dateRange, filesLoaded, subredditOptions))
    {
      SortTabWithin(views, raw, tab, ColumnKey(field, parseDate), dir);
      views := SortTab(views, tab, ColumnKey(field, parseDate), dir);
    }

    /** The `'posts'` case of `processData`. */
    method LoadPosts(data: seq<Record>)
      requires Valid()
      modifies this
      ensures Valid()
      ensures raw == old(raw).(posts := data)
      ensures views == Loaded(old(views), Posts, data, ColumnKey("date", parseDate))
      ensures dateRange == InitDateRange(old(dateRange), CollectTimestamps(data, raw.comments, raw.messages, parseDate))
      ensures subredditOptions == SubredditOptions(data).OrElse(old(subredditOptions))
      ensures (pages, ui, filesLoaded) == old((pages, ui, filesLoaded))
    {
      StoreDataset(Posts, data);
      ResetTimeline();
      RefillSubreddits(data);
    }

    /** `state[type] = data` and the view that goes with it. */
    method StoreDataset(kind: Kind, data: seq<Record>)
      requires Valid()
      modifies this
      ensures Valid()
      ensures raw == Store(old(raw), kind, data)
      ensures views == Loaded(old(views), kind, data, ColumnKey("date", parseDate))
      ensures (dateRange, subredditOptions, pages, ui, filesLoaded) == old((dateRange, subredditOptions, pages, ui, filesLoaded))
    {
      LoadedWithin(raw, views, kind, data, ColumnKey("date", parseDate));
      raw, views := Store(raw, kind, data), Loaded(views, kind, data, ColumnKey("date", parseDate));
    }

    /** `initDateRangeSlider`: a new timeline once two valid timestamps exist. */
    method ResetTimeline()
      requires Valid()
      modifies this
      ensures Valid()
      ensures dateRange == InitDateRange(old(dateRange), CollectTimestamps(raw.posts, raw.comments, raw.messages, parseDate))
      ensures (raw, views, subredditOptions, pages, ui, filesLoaded) == old((raw, views, subredditOptions, pages, ui, filesLoaded))
    {
      dateRange := InitDateRange(dateRange, CollectTimestamps(raw.posts, raw.comments, raw.messages, parseDate));
    }

    /** `populateSubredditFilter`: the select is refilled unless no post has
        a subreddit. */
    method RefillSubreddits(posts: seq<Record>)
      requires Valid()
      modifies this
      ensures Valid()
      ensures subredditOptions == SubredditOptions(posts).OrElse(old(subredditOptions))
      ensures (raw, views, dateRange, pages, ui, filesLoaded) == old((raw, views, dateRange, pages, ui, filesLoaded))
    {
      subredditOptions := SubredditOptions(posts).OrElse(subredditOptions);
    }

    /** `processData(type, data)`: stores one dataset. Posts get a fresh view
        without deleted posts, newest first, a rebuilt timeline and subreddit
        list; comments and messages a copy, newest first; votes a copy; the
        other datasets are only stored. The filter settings are not applied
        again and the page numbers are kept. */
    method ProcessData(kind: Kind, data: seq<Record>)
      requires Valid()
      modifies this
      ensures Valid()
      ensures raw == Store(old(raw), kind, data)
      ensures views == Loaded(old(views), kind, data, ColumnKey("date", parseDate))
      ensures filesLoaded == old(filesLoaded) + {kind}
      ensures (pages, ui) == old((pages, ui))
      ensures kind == Posts ==>
        dateRange == InitDateRange(old(dateRange), CollectTimestamps(data, old(raw).comments, old(raw).messages, parseDate))
        && subredditOptions == SubredditOptions(data).OrElse(old(subredditOptions))
      ensures kind != Posts ==> (dateRange, subredditOptions) == old((dateRange, subredditOptions))
    {
      filesLoaded := filesLoaded + {kind};
      if kind == Posts {
        LoadPosts(data);
      } else {
        StoreDataset(kind, data);
      }
    }

    /** `applyFilters`: every page back to 1 and every view rebuilt from its
        dataset, in dataset order (a previous sort is not kept). */
    method ApplyFilters()
      requires Valid()
      modifies this
      ensures Valid()
      ensures views == FilterAll(raw, SettingsOf(ui), Window(), parseDate)
      ensures pages == FirstPages
      ensures (raw, ui, dateRange, filesLoaded, subredditOptions) == old((raw, ui, dateRange, filesLoaded, subredditOptions))
    {
      pages := FirstPages;
      var data, s, w, parse := raw, SettingsOf(ui), WindowOf(dateRange), parseDate;
      var q := s.query;
      var fp := FilterPostsSteps(data.posts, s, w, parse);
      // the search, or a copy, for the other four views
      var fc, fm, fpv, fcv;
      if q != "" {
        fc := Filter(data.comments, QueryTest(CommentSearchFields, q));
        fm := Filter(data.messages, QueryTest(MessageSearchFields, q));
        fpv := Filter(data.postVotes, QueryTest(VoteSearchFields, q));
        fcv := Filter(data.commentVotes, QueryTest(VoteSearchFields, q));
      } else {
        fc, fm, fpv, fcv := data.comments, data.messages, data.postVotes, data.commentVotes;
      }
      // the date window on comments and messages
      if w.Between? {
        fc := Filter(fc, DateTest(w, parse));
        fm := Filter(fm, DateTest(w, parse));
      }
      FilterAllWithin(data, s, w, parse);
      views := Views(fp, fc, fm, fpv, fcv);
    }

    /** `handleSearch`: the typed text, lower-cased and trimmed, becomes the
        query, and the filters run. */
    method HandleSearch(input: string)
      requires Valid()
      modifies this
      ensures Valid()
      ensures ui == old(ui).(searchQuery := Trim(Lower(input)))
      ensures views == FilterAll(raw, SettingsOf(ui), Window(), parseDate) && pages == FirstPages
      ensures (raw, dateRange, filesLoaded, subredditOptions) == old((raw, dateRange, filesLoaded, subredditOptions))
    {
      ui := ui.(searchQuery := Trim(Lower(input)));
      ApplyFilters();
    }

    /** `handlePostTypeFilter`. */
    method HandlePostTypeFilter(kind: PostKind)
      requires Valid()
      modifies this
      ensures Valid()
      ensures ui == old(ui).(postTypeFilter := kind)
      ensures views == FilterAll(raw, SettingsOf(ui), Window(), parseDate) && pages == FirstPages
      ensures (raw, dateRange, filesLoaded, subredditOptions) == old((raw, dateRange, filesLoaded, subredditOptions))
    {
      ui := ui.(postTypeFilter := kind);
      pages := pages.(posts := 1);
      ApplyFilters();
    }

    /** `handleSubredditFilter`. */
    method HandleSubredditFilter(sub: string)
      requires Valid()
      modifies this
      ensures Valid()
      ensures ui == old(ui).(subredditFilter := sub)
      ensures views == FilterAll(raw, SettingsOf(ui), Window(), parseDate) && pages == FirstPages
      ensures (raw, dateRange, filesLoaded, subredditOptions) == old((raw, dateRange, filesLoaded, subredditOptions))
    {
      ui := ui.(subredditFilter := sub);
      pages := pages.(posts := 1);
      ApplyFilters();
    }

    /** `handleDateRangeChange`: the slider that moved takes the new
        position (a range input stays within 0..100), pushed back if it came
        within 5 of the other, and the filters run. */
    method HandleDateRangeChange(moved: Slider, value: int)
      requires Valid()
      requires 0 <= value <= 100
      modifies this
      ensures Valid()
      ensures dateRange == SlideTo(old(dateRange), moved, value)
      ensures views == FilterAll(raw, SettingsOf(ui), Window(), parseDate) && pages == FirstPages
      ensures (raw, ui, filesLoaded, subredditOptions) == old((raw, ui, filesLoaded, subredditOptions))
    {
      SlideKeepsRange(dateRange, moved, value);
      dateRange := SlideTo(dateRange, moved, value);
      pages := pages.(posts := 1);
      ApplyFilters();
    }

    /** `handleSort(field)`: the same column flips direction, another column
        starts descending; the view of the current tab is sorted (the other
        tabs keep their views, though the column and direction are shared). */
    method HandleSort(field: string)
      requires Valid()
      modifies this
      ensures Valid()
      ensures (ui.sortField, ui.sortDirection) == NextSort(old(ui).sortField, old(ui).sortDirection, field)
      ensures ui == old(ui).(sortField := field, sortDirection := ui.sortDirection)
      ensures views == SortTab(old(views), ui.tab, ColumnKey(field, parseDate), ui.sortDirection)
      ensures (raw, pages, dateRange, filesLoaded, subredditOptions) == old((raw, pages, dateRange, filesLoaded, subredditOptions))
    {
      if ui.sortField == field {
        ui := ui.(sortDirection := Toggle(ui.sortDirection));
      } else {
        ui := ui.(sortField := field, sortDirection := Desc);
      }
      SortData(ui.tab, field, ui.sortDirection);
    }

    /** `switchTab`. */
    method SwitchTab(tab: Tab)
      modifies this
      ensures ui == old(ui).(tab := tab)
      ensures (raw, views, pages, dateRange, filesLoaded, subredditOptions) == old((raw, views, pages, dateRange, filesLoaded, subredditOptions))
    {
      ui := ui.(tab := tab);
    }

    /** A click on a votes sub-tab. */
    method SelectVotesSubTab(sub: VotesSubTab)
      modifies this
      ensures ui == old(ui).(votesSubTab := sub)
      ensures (raw, views, pages, dateRange, filesLoaded, subredditOptions) == old((raw, views, pages, dateRange, filesLoaded, subredditOptions))
    {
      ui := ui.(votesSubTab := sub);
    }

    /** A click on a saved sub-tab. */
    method SelectSavedSubTab(sub: SavedSubTab)
      modifies this
      ensures ui == old(ui).(savedSubTab := sub)
      ensures (raw, views, pages, dateRange, filesLoaded, subredditOptions) == old((raw, views, pages, dateRange, filesLoaded, subredditOptions))
    {
      ui := ui.(savedSubTab := sub);
    }

    /** The rows a table shows: its list from the page's first index on, at
        most 25 of them. */
    function PageView(list: PagedList): (rows: seq<Record>)
      reads this
      requires Valid()
      ensures |rows| == Min(ItemsPerPage, Max(0, |View(views, list)| - PageStart(PageOf(pages, list))))
      ensures |rows| > 0 ==> PageStart(PageOf(pages, list)) + |rows| <= |View(views, list)|
      ensures forall i :: 0 <= i < |rows| ==> rows[i] == View(views, list)[PageStart(PageOf(pages, list)) + i]
    {
      PageSliceShape(View(views, list), PageOf(pages, list));
      PageSlice(View(views, list), PageOf(pages, list))
    }

    /** The pagination bar under a table: none when the page shows no rows
        (the table returns before drawing it). */
    function PagerOf(list: PagedList): Bar
      reads this
    {
      var items := View(views, list);
      var page := PageOf(pages, list);
      if PageSlice(items, page) == [] then NoBar else RenderPagination(page, |items|)
    }

    /** A button of the bar that can be clicked: an enabled prev or next
        button, or a page number. */
    predicate ClickableTarget(list: PagedList, target: int)
      reads this
    {
      var bar := PagerOf(list);
      bar.Bar? && ((!bar.prevDisabled && target == bar.prevTarget)
                   || (!bar.nextDisabled && target == bar.nextTarget)
                   || Num(target) in bar.pages)
    }

    /** A click on a page button: `state[pageKey] = page`. The page clicked
        is always an existing page of the list. */
    method ClickPage(list: PagedList, target: int)
      requires Valid()
      requires ClickableTarget(list, target)
      modifies this
      ensures Valid()
      ensures 1 <= target <= TotalPages(|View(views, list)|)
      ensures pages == SetPage(old(pages), list, target)
      ensures (raw, views, ui, dateRange, filesLoaded, subredditOptions) == old((raw, views, ui, dateRange, filesLoaded, subredditOptions))
    {
      var items := View(views, list);
      BarTargets(items, PageOf(pages, list));
      PageNumbersProperties(PageOf(pages, list), TotalPages(|items|));
      pages := SetPage(pages, list, target);
    }

    /** `openModal(type, index)`: the record at that index of the view, or
        nothing. */
    function OpenModal(kind: ModalKind, index: int): (r: Option<Record>)
      reads this
      ensures r.Some? <==> 0 <= index < |View(views, ModalList(kind))|
      ensures r.Some? ==> r.value == View(views, ModalList(kind))[index]
    {
      At(View(views, ModalList(kind)), index)
    }

    /** The `data-index` of each row of a page opens the modal on the record
        that row shows. */
    lemma ModalOpensShownRow(kind: ModalKind, row: int)
      requires Valid()
      requires 0 <= row < |PageView(ModalList(kind))|
      ensures OpenModal(kind, RowIndex(PageOf(pages, ModalList(kind)), row)) == Some(PageView(ModalList(kind))[row])
    {
      RowIndexRoundTrip(View(views, ModalList(kind)), PageOf(pages, ModalList(kind)), row);
    }

    /** `updateStats`: each filtered tab describes its current view against
        its dataset; a saved tab shows its dataset's size only, since its
        count is its total; the account and settings tabs show nothing. */
    function Stats(): (line: StatsLine)
      reads this
      requires Valid()
      ensures ui.tab == PostsTab ==> line == StatsText(ui.searchQuery, |views.posts|, |raw.posts|, "posts")
      ensures ui.tab == CommentsTab ==> line == StatsText(ui.searchQuery, |views.comments|, |raw.comments|, "comments")
      ensures ui.tab == MessagesTab ==> line == StatsText(ui.searchQuery, |views.messages|, |raw.messages|, "messages")
      ensures ui.tab == VotesTab && ui.votesSubTab == PostVotesSub ==>
        line == StatsText(ui.searchQuery, |views.postVotes|, |raw.postVotes|, "post votes")
      ensures ui.tab == VotesTab && ui.votesSubTab == CommentVotesSub ==>
        line == StatsText(ui.searchQuery, |views.commentVotes|, |raw.commentVotes|, "comment votes")
      ensures ui.tab == SavedTab && ui.savedSubTab == SavedPostsSub ==>
        line == if |raw.savedPosts| > 0 then TotalOnly(|raw.savedPosts|, "saved posts") else NoStats
      ensures ui.tab == SavedTab && ui.savedSubTab == SavedCommentsSub ==>
        line == if |raw.savedComments| > 0 then TotalOnly(|raw.savedComments|, "saved comments") else NoStats
      ensures ui.tab == SavedTab && ui.savedSubTab == HiddenPostsSub ==>
        line == if |raw.hiddenPosts| > 0 then TotalOnly(|raw.hiddenPosts|, "hidden posts") else NoStats
      ensures ui.tab in {SavedTab, AccountTab, SettingsTab} ==> !line.CountOfTotal?
      ensures ui.tab in {AccountTab, SettingsTab} ==> line == NoStats
      ensures line.CountOfTotal? ==> ui.searchQuery != "" && line.count < line.total
    {
      var q := ui.searchQuery;
      CountWithin(views.posts, raw.posts);
      CountWithin(views.comments, raw.comments);
      CountWithin(views.messages, raw.messages);
      CountWithin(views.postVotes, raw.postVotes);
      CountWithin(views.commentVotes, raw.commentVotes);
      match ui.tab
      case PostsTab => StatsText(q, |views.posts|, |raw.posts|, "posts")
      case CommentsTab => StatsText(q, |views.comments|, |raw.comments|, "comments")
      case MessagesTab => StatsText(q, |views.messages|, |raw.messages|, "messages")
      case VotesTab =>
        if ui.votesSubTab == PostVotesSub then StatsText(q, |views.postVotes|, |raw.postVotes|, "post votes")
        else StatsText(q, |views.commentVotes|, |raw.commentVotes|, "comment votes")
      case SavedTab =>
        (match ui.savedSubTab
         case SavedPostsSub => StatsText(q, |raw.savedPosts|, |raw.savedPosts|, "saved posts")
         case SavedCommentsSub => StatsText(q, |raw.savedComments|, |raw.savedComments|, "saved comments")
         case HiddenPostsSub => StatsText(q, |raw.hiddenPosts|, |raw.hiddenPosts|, "hidden posts"))
      case AccountTab => StatsText(q, 0, 0, "account info")
      case SettingsTab => StatsText(q, 0, 0, "")
    }

    /** After the server reports success, `deletePost(id)` drops the posts
        with that id from the dataset and from the view; nothing else
        changes. Without success nothing changes at all. */
    method DeletePost(id: string, serverSuccess: bool)
      requires Valid()
      modifies this
      ensures Valid()
      ensures serverSuccess ==> raw == old(raw).(posts := WithoutId(old(raw).posts, id))
      ensures serverSuccess ==> views == old(views).(posts := WithoutId(old(views).posts, id))
      ensures !serverSuccess ==> raw == old(raw) && views == old(views)
      ensures (pages, ui, dateRange, filesLoaded, subredditOptions) == old((pages, ui, dateRange, filesLoaded, subredditOptions))
    {
      if serverSuccess {
        FilterMonotone(views.posts, raw.posts, KeepOtherIds(id));
        raw := raw.(posts := WithoutId(raw.posts, id));
        views := views.(posts := WithoutId(views.posts, id));
      }
    }
  }
}
