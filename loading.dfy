/** Which dataset a file holds: the file-name rules of the global picker
    (`handleFiles`, app.js:456-471), the config keys of `tryAutoLoad` and
    `loadFilesFromConfig` (app.js:147-197, 313-370), and the matching of
    selected files to config entries. */
module Loading {
  import opened Text
  import opened Records

  /** The substring tests of `handleFiles`, in the order it tries them. */
  const FilePatterns: seq<(string, Kind)> := [
    ("post_votes", PostVotes), ("comment_votes", CommentVotes), ("saved_posts", SavedPosts),
    ("saved_comments", SavedComments), ("hidden_posts", HiddenPosts), ("messages_archive", Messages),
    ("subscribed_subreddits", Subscriptions), ("user_preferences", Preferences),
    ("statistics", Statistics), ("post", Posts), ("comment", Comments)]

  /** The position of the first pattern that `n` contains, or the length of
      the table when there is none. */
  function FirstIndex(n: string, patterns: seq<(string, Kind)>): (i: nat)
    ensures i <= |patterns|
    ensures forall j :: 0 <= j < i ==> !Contains(n, patterns[j].0)
    ensures i < |patterns| ==> Contains(n, patterns[i].0)
    decreases |patterns|
  {
    if |patterns| == 0 then 0
    else if Contains(n, patterns[0].0) then 0
    else
      var i := FirstIndex(n, patterns[1..]);
      assert forall j :: 0 < j < |patterns| ==> patterns[j] == patterns[1..][j - 1];
      i + 1
  }

  /** `handleFiles` for one file: the first test of the chain that the
      lower-cased name passes decides the dataset; a name that passes none
      is ignored. */
  function ClassifyFileName(name: string): Option<Kind> {
    var i := FirstIndex(Lower(name), FilePatterns);
    if i < |FilePatterns| then Some(FilePatterns[i].1) else None
  }

  /** A name that holds a pattern and none of the patterns tried before it
      is taken for that pattern's dataset; so a `post_votes` file is never
      taken for posts, even though it also holds "post". */
  lemma ClassifyPriority(name: string, i: int)
    requires 0 <= i < |FilePatterns|
    requires Contains(Lower(name), FilePatterns[i].0)
    requires forall j :: 0 <= j < i ==> !Contains(Lower(name), FilePatterns[j].0)
    ensures ClassifyFileName(name) == Some(FilePatterns[i].1)
  {
    var k := FirstIndex(Lower(name), FilePatterns);
    assert k == i;
  }

  /** A file is ignored exactly when its name holds none of the patterns. */
  lemma ClassifyIgnores(name: string)
    ensures ClassifyFileName(name).None? <==>
      forall j :: 0 <= j < |FilePatterns| ==> !Contains(Lower(name), FilePatterns[j].0)
  {
  }

  lemma PostVotesBeatPosts(name: string)
    requires Contains(Lower(name), "post_votes")
    ensures ClassifyFileName(name) == Some(PostVotes)
  {
    ClassifyPriority(name, 0);
  }

  /** The config keys of `typeMap`; any other key is skipped. */
  function KindOfKey(key: string): Option<Kind> {
    if key == "posts" then Some(Posts)
    else if key == "comments" then Some(Comments)
    else if key == "messages" then Some(Messages)
    else if key == "postVotes" then Some(PostVotes)
    else if key == "commentVotes" then Some(CommentVotes)
    else if key == "savedPosts" then Some(SavedPosts)
    else if key == "savedComments" then Some(SavedComments)
    else if key == "hiddenPosts" then Some(HiddenPosts)
    else if key == "statistics" then Some(Statistics)
    else if key == "subscriptions" then Some(Subscriptions)
    else if key == "preferences" then Some(Preferences)
    else None
  }

  /** The names every plain object inherits from `Object.prototype`; looking
      one of them up in `typeMap` yields a function or, for `__proto__`, an
      object, and either is truthy. */
  const PrototypeMembers: set<string> := {
    "constructor", "__proto__", "__defineGetter__", "__defineSetter__", "__lookupGetter__",
    "__lookupSetter__", "hasOwnProperty", "isPrototypeOf", "propertyIsEnumerable",
    "toString", "toLocaleString", "valueOf"}

  /** What `typeMap[key]` yields: the type of a dataset, an inherited member
      (truthy, so the entry is not skipped, but `processData` then fails at
      `type.replace`, app.js:217, before it stores anything), or `undefined`,
      for which the entry is skipped. */
  datatype TypeEntry = DatasetType(kind: Kind) | PrototypeMember(name: string) | NoType

  function TypeOf(key: string): (t: TypeEntry)
    ensures t.DatasetType? <==> KindOfKey(key).Some?
    ensures t.DatasetType? ==> t.kind == KindOfKey(key).value
    ensures t.PrototypeMember? <==> key in PrototypeMembers
    ensures t.PrototypeMember? ==> t.name == key
  {
    if key in PrototypeMembers then PrototypeMember(key)
    else if KindOfKey(key).Some? then DatasetType(KindOfKey(key).value)
    else NoType
  }

  /** One `key: filename` pair of a `files` object, in its listed order. */
  datatype ConfigEntry = ConfigEntry(key: string, file: string)

  /** `defaultFiles`, used when there is no config.json. */
  const DefaultFiles: seq<ConfigEntry> := [
    ConfigEntry("posts", "posts.csv"), ConfigEntry("comments", "comments.csv"),
    ConfigEntry("messages", "messages_archive.csv"), ConfigEntry("postVotes", "post_votes.csv"),
    ConfigEntry("commentVotes", "comment_votes.csv"), ConfigEntry("savedPosts", "saved_posts.csv"),
    ConfigEntry("savedComments", "saved_comments.csv"), ConfigEntry("hiddenPosts", "hidden_posts.csv"),
    ConfigEntry("statistics", "statistics.csv"), ConfigEntry("subscriptions", "subscribed_subreddits.csv"),
    ConfigEntry("preferences", "user_preferences.csv")]

  /** Every default entry names a file for a dataset. */
  lemma DefaultFilesLoadable()
    ensures forall i :: 0 <= i < |DefaultFiles| ==> DefaultFiles[i].file != "" && KindOfKey(DefaultFiles[i].key).Some?
  {
  }

  /** `tryAutoLoad`'s loop: every entry with a file name and a truthy
      `typeMap` entry whose file the server reports as present is fetched
      and parsed with that type, in entry order. `available` stands for the
      HEAD request's `response.ok`. */
  function AutoLoadPlan(entries: seq<ConfigEntry>, available: string -> bool): (plan: seq<(TypeEntry, string)>)
    ensures |plan| <= |entries|
    ensures forall t, f :: (t, f) in plan <==>
      exists e :: e in entries && e.file == f && f != "" && TypeOf(e.key) == t && !t.NoType? && available(f)
    decreases |entries|
  {
    if |entries| == 0 then []
    else
      var e := entries[0];
      var rest := AutoLoadPlan(entries[1..], available);
      assert forall x :: x in entries <==> x == e || x in entries[1..];
      if e.file != "" && !TypeOf(e.key).NoType? && available(e.file) then [(TypeOf(e.key), e.file)] + rest
      else rest
  }

  predicate HasFile(e: ConfigEntry) {
    e.file != ""
  }

  /** `fileCount`: the number of entries with a file name, whatever their
      key. */
  function FileCount(entries: seq<ConfigEntry>): (n: nat)
    ensures n == |Filter(entries, HasFile)|
    ensures n <= |entries|
    decreases |entries|
  {
    if |entries| == 0 then 0
    else (if entries[0].file != "" then 1 else 0) + FileCount(entries[1..])
  }

  /** `files.find(f => f.name.toLowerCase() === expected.toLowerCase())`:
      the first selected file whose name matches. */
  function FindByName(selected: seq<string>, expected: string): (r: Option<string>)
    ensures r.Some? ==> exists i :: (0 <= i < |selected| && selected[i] == r.value
      && Lower(selected[i]) == Lower(expected)
      && forall j :: 0 <= j < i ==> Lower(selected[j]) != Lower(expected))
    ensures r.Some? ==> r.value in selected && Lower(r.value) == Lower(expected)
    ensures r.None? <==> forall i :: 0 <= i < |selected| ==> Lower(selected[i]) != Lower(expected)
    decreases |selected|
  {
    if |selected| == 0 then None
    else if Lower(selected[0]) == Lower(expected) then Some(selected[0])
    else
      var r := FindByName(selected[1..], expected);
      assert forall j :: 0 < j < |selected| ==> selected[j] == selected[1..][j - 1];
      r
  }

  /** What the config picker parses: for each entry with a file name and a
      truthy `typeMap` entry, the first selected file whose name matches it
      without regard to case. */
  function MatchPlan(entries: seq<ConfigEntry>, selected: seq<string>): seq<(TypeEntry, string)>
    decreases |entries|
  {
    if |entries| == 0 then []
    else
      var e := entries[0];
      var rest := MatchPlan(entries[1..], selected);
      if Loadable(e, selected) then [(TypeOf(e.key), FindByName(selected, e.file).value)] + rest
      else rest
  }

  /** An entry the picker counts: a file name, a truthy `typeMap` entry, a
      selected file of that name. */
  predicate Loadable(e: ConfigEntry, selected: seq<string>) {
    e.file != "" && !TypeOf(e.key).NoType? && FindByName(selected, e.file).Some?
  }

  /** The `multiInput.onchange` loop: the files to parse and `loadedCount`. */
  method MatchSelectedFiles(entries: seq<ConfigEntry>, selected: seq<string>)
    returns (toParse: seq<(TypeEntry, string)>, loadedCount: nat)
    ensures toParse == MatchPlan(entries, selected)
    ensures loadedCount == |toParse|
  {
    toParse := [];
    loadedCount := 0;
    var i := 0;
    while i < |entries|
      invariant 0 <= i <= |entries|
      invariant toParse + MatchPlan(entries[i..], selected) == MatchPlan(entries, selected)
      invariant loadedCount == |toParse|
    {
      var e := entries[i];
      assert entries[i..][1..] == entries[i + 1..];
      if e.file != "" {
        var t := TypeOf(e.key);
        if !t.NoType? {
          var matched := FindByName(selected, e.file);
          if matched.Some? {
            toParse := toParse + [(t, matched.value)];
            loadedCount := loadedCount + 1;
          }
        }
      }
      i := i + 1;
    }
  }

  /** "Loaded N of M": N never exceeds M, and they are equal (the success
      status) exactly when every entry with a file name has a truthy
      `typeMap` entry and a matching selected file. */
  lemma {:induction false} LoadedCountBound(entries: seq<ConfigEntry>, selected: seq<string>)
    ensures |MatchPlan(entries, selected)| <= FileCount(entries)
    ensures |MatchPlan(entries, selected)| == FileCount(entries) <==>
      forall i :: 0 <= i < |entries| && entries[i].file != "" ==> Loadable(entries[i], selected)
    decreases |entries|
  {
    if |entries| > 0 {
      var e, rest := entries[0], entries[1..];
      LoadedCountBound(rest, selected);
      assert |MatchPlan(entries, selected)| == (if Loadable(e, selected) then 1 else 0) + |MatchPlan(rest, selected)|;
      assert FileCount(entries) == (if e.file != "" then 1 else 0) + FileCount(rest);
      forall i | 0 < i < |entries| ensures entries[i] == rest[i - 1] { }
    }
  }

  /** Every parsed file is one of the selected files, and it was matched to
      an entry whose key gives its type. */
  lemma {:induction false} MatchPlanSound(entries: seq<ConfigEntry>, selected: seq<string>, t: TypeEntry, f: string)
    requires (t, f) in MatchPlan(entries, selected)
    ensures f in selected && !t.NoType?
    ensures exists e :: e in entries && Loadable(e, selected) && TypeOf(e.key) == t && Lower(f) == Lower(e.file)
    decreases |entries|
  {
    var e := entries[0];
    if Loadable(e, selected) && (t, f) == (TypeOf(e.key), FindByName(selected, e.file).value) {
      assert e in entries;
    } else {
      MatchPlanSound(entries[1..], selected, t, f);
      var e' :| e' in entries[1..] && Loadable(e', selected) && TypeOf(e'.key) == t && Lower(f) == Lower(e'.file);
      assert e' in entries;
    }
  }
}
