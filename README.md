# Reddit export viewer: the engine and the file server, in Dafny

The viewer (`app.js`) loads the CSV files of a Reddit data export. It keeps
one `state` object with the datasets as loaded and the filtered lists the
tables show. Event handlers change that object step by step:

- ingest of a dataset;
- the date-range sliders;
- the filter pipeline (post type, subreddit, date window, search);
- the column sort;
- the page buttons;
- tab switching;
- removal of a deleted post.

The local server (`server.js`) serves the static files. It also rewrites a
CSV file when a row is deleted and keeps a `.backup` copy before any save or
rewrite.

The project is a set of modules, one per concern:

- `Text`: ASCII lower-casing, JavaScript `trim`, substring tests, `split` and `join`.
- `Records`: a parsed row as `map<string, string>`, the eleven datasets, and the order-preserving `filter`.
- `DateIndex`: the timeline of distinct timestamps, the slider positions and the date window.
- `Filters`: the tests of `applyFilters` and the five views it builds, plus the subreddit select.
- `Sorting`: the sort key, the comparator, and a sort that returns a key-ordered permutation.
- `Pagination`: page slices, row indices, the page-number list and the pagination bar.
- `Presentation`: `truncate`, the permalink rule and the stats line.
- `Loading`: which dataset a file holds (file picker, auto-load, config picker).
- `Engine`:
  - a class `Engine` whose fields are the `state` object, grouped by role (datasets, views, page numbers, controls, timeline, loaded kinds, subreddit options);
  - one method per handler, each with the invariant `Valid()`.
- `Server`:
  - POSIX `basename` and `extname`, and the content-type table;
  - the delete-row rewrite;
  - a class `FileStore`, the data directory as a map from file name to content, with the `/api/save` and `/api/delete-row` handlers and the static handler.

How the source's non-deterministic or external parts are modelled:

- Dates: the engine takes the date parser as a parameter, `parse: string -> Option<int>`. `None` stands for `NaN`.
- Request bodies: a POST body arrives as its already-decoded chunks.
- JSON: the parsed body is given as fields, and `None` stands for a field that is missing or not a string.

## Model

| member | source | states |
|---|---|---|
| Records.Filter | app.js:735 | the result is no longer than the input and holds exactly the elements that pass the test |
| Records.FilterIsSubsequence | app.js:735-816 | `filter` keeps its input's order: the result is a subsequence of the input |
| Records.FilterMultiset | app.js:735-816 | a filtered list never holds an element more often than its input |
| Records.FilterCount | app.js:735-816 | an element that passes keeps its multiplicity, and one that fails occurs 0 times |
| Records.FilterMonotone | app.js:1381-1382 | filtering a list drawn from another gives a list drawn from the other's filtered list |
| Records.FilterFilter | app.js:735-773 | two filters in a row are one filter by the conjunction |
| Records.FilterIdempotent | app.js:735-816 | filtering again by the same test changes nothing |
| Records.FilterFilterTwo | app.js:565-588 | two positions that pass two chained filters leave at least two elements |
| Records.Get | app.js:840-841 | `r[key] \|\| ''` is non-empty exactly when the field has a value, and is then that value |
| Records.Timestamp | app.js:566-580 | a record without a date has no valid timestamp |
| Text.Lower | app.js:715 | lower-casing keeps the length and maps each character on its own |
| Text.TrimSpec | app.js:715 | `trim` yields a middle section with only whitespace around it, and no whitespace at either end |
| Text.TrimEmptyIffBlank | app.js:741 | a trimmed text is empty exactly when the text is whitespace only |
| Text.ContainsAt | app.js:777-801 | `includes` holds exactly when the text occurs at some position |
| Text.JoinSplit | server.js:134-145 | joining the pieces of a `split` gives the text back |
| Text.SplitJoin | server.js:134-145 | splitting a join of separator-free pieces gives the pieces back |
| Text.FirstFieldIsPrefix | server.js:140 | `line.split(',')[0]` is the prefix of the line up to its first comma |
| Filters.IsLinkPost | app.js:738-751 | a post is a link post exactly when it is not a self post |
| Filters.MissingFieldNeverMatches | app.js:776-801 | a field that is absent or empty never matches a non-empty query |
| Filters.PostsAreOneFilter | app.js:735-781 | the five post steps, each taken only when its setting is on, amount to one filter by `PostVisible` |
| Filters.DatedIsOneFilter | app.js:783-816 | the comments and messages steps amount to one filter by `DatedVisible` |
| Filters.VotesAreOneFilter | app.js:792-803 | the vote steps amount to one filter by the query test |
| Filters.PostsView | app.js:735-781 | the posts view is a subsequence of the posts; it holds a post exactly when the post passes all five tests, so never a deleted one |
| Filters.DatedView | app.js:783-816 | the comments or messages view is a subsequence; it holds a record exactly when the query matches one of its fields and its date is in the window; with no query and no window it is the whole list |
| Filters.VotesView | app.js:792-803 | a vote view is a subsequence and holds a vote exactly when the query is empty or occurs in its lower-cased permalink; there is no date test |
| Filters.TextAndLinkCoverAll | app.js:738-751 | the 'text' and 'link' views together hold exactly the posts of the 'all' view |
| Filters.KeptDatesInWindow | app.js:759-773 | with at least two dates, every kept record has a valid date between the two timeline entries the sliders select |
| Filters.PostsFilterIdempotent | app.js:727-781 | filtering the posts view again with the same settings changes nothing |
| Filters.LiveSubreddits | app.js:531-535 | a subreddit is offered exactly when some non-deleted post names it |
| Filters.SubredditOptions | app.js:527-545 | nothing changes when there are no posts or no subreddit; otherwise every offered subreddit with its count of non-deleted posts |
| Filters.SubredditCountIsView | app.js:540 | an offered subreddit's count is at least 1 and equals the size of the view once that subreddit is selected and no other filter is on (no query, post type "all", no date window) |
| Filters.CatsTitleMatches | app.js:777-781 | a post titled "My Cats" matches the query "cats" through its title |
| Filters.OutsideUrlIsLink | app.js:746-750 | a post whose url is outside reddit.com is a link post |
| Filters.RedditUrlIsNotLink | app.js:746-750 | a post whose url is on reddit.com is not a link post |
| DateIndex.ValidTimes | app.js:566-584 | a timestamp is listed exactly when some record's date parses to it, and the list holds one timestamp per dated record, duplicates kept |
| DateIndex.CollectTimestamps | app.js:564-584 | the collected list holds one timestamp per dated non-deleted post, comment and message |
| DateIndex.TwoDatedPostsResetSliders | app.js:586-593 | two non-deleted posts with valid dates, equal or not, pass the "at least two" test, so the timeline is rebuilt from the collected timestamps and the sliders reset to 0 and 100 |
| DateIndex.CollectMembership | app.js:564-584 | the collected timestamps are exactly those of non-deleted posts, comments and messages |
| DateIndex.InsertUnique | app.js:591 | inserting into an ascending duplicate-free list keeps it so and adds exactly the new value |
| DateIndex.SortedUnique | app.js:582-591 | sort plus `new Set` yields a strictly increasing list of exactly the input's values |
| DateIndex.StrictlyIncreasingUnique | app.js:591 | two strictly increasing lists with the same elements are equal, so any sort and de-duplication gives the same timeline |
| DateIndex.InitDateRange | app.js:586-593 | fewer than two timestamps, counted before de-duplication, leave the range as it was; otherwise the timeline holds exactly those values, strictly increasing, with the sliders at 0 and 100 |
| DateIndex.DuplicateTimestampsGiveShortTimeline | app.js:588-591 | two equal timestamps pass the test and leave a one-entry timeline |
| DateIndex.SlideTo | app.js:610-626 | the sliders end at least 5 apart; only the slider that moved changes, and it is pushed back to exactly 5 from the other when they would cross |
| DateIndex.SlideKeepsRange | app.js:610-626 | a move to a position within 0..100 keeps both sliders within 0..100 and at least 5 apart |
| DateIndex.BoundIndexInRange | app.js:764-765 | the computed index lies within the timeline |
| DateIndex.BoundIndexMonotone | app.js:764-765 | a higher slider position never selects an earlier date |
| DateIndex.WindowOf | app.js:759-767 | there is no date window exactly when the timeline has fewer than two dates |
| DateIndex.WindowBounds | app.js:759-767 | with the sliders in range, the window runs from the date the minimum selects to the date the maximum selects, and is never empty |
| DateIndex.ThreeDatesHalfRange | app.js:764-767 | three dates with the sliders at 0 and 50 select the first two |
| Sorting.Toggle | app.js:825 | the direction always changes |
| Sorting.SortKey | app.js:840-849 | the date column sorts by timestamp, with 0 for a date that is missing or invalid; any other column sorts by the lower-cased text, with '' when it is missing |
| Sorting.KeyLeTotal | app.js:850 | any two keys are comparable |
| Sorting.KeyLeTrans | app.js:850 | key order is transitive |
| Sorting.KeyLeAntisymmetric | app.js:854 | two keys each at most the other are equal |
| Sorting.Insert | app.js:850 | inserting into a sorted list adds exactly that record and keeps the list sorted |
| Sorting.SortBy | app.js:845-851 | the sorted list is a permutation of its input, ordered by the column key in the chosen direction |
| Sorting.SortedPermutationUnique | app.js:844-855 | when no two different records share a key, two key-ordered permutations of one list are the same list |
| Sorting.SortByUnique | app.js:844-855 | when no two different records share a key, every sort that returns a key-ordered permutation returns the list `SortBy` returns |
| Sorting.SortBySorted | app.js:844-855 | when no two different records share a key, a list already in order is returned as it is |
| Sorting.SortByIdempotent | app.js:844-855 | when no two different records share a key, sorting twice by the same column and direction is sorting once |
| Sorting.Comparator | app.js:845-851 | the comparator answers 1 or -1, never 0 |
| Sorting.ComparatorAgrees | app.js:845-851 | `a` may precede `b` exactly when the comparator asks for `a` first |
| Sorting.SortedMeansNoSwap | app.js:845-851 | in the sorted list the comparator asks to swap no pair |
| Sorting.NextSort | app.js:823-830 | the same column flips its direction; another column is selected in descending order |
| Sorting.TwoClicksRestore | app.js:823-830 | two clicks on the same column restore the direction it had |
| Pagination.SliceIndex | app.js:911 | a `slice` bound is clamped to 0..length and is kept when already in range |
| Pagination.PageSliceShape | app.js:910-911 | page p shows `min(25, max(0, len - (p-1)*25))` records from index `(p-1)*25` on, in list order |
| Pagination.At | app.js:1211-1214 | `list[index]` exists exactly when the index is within the list |
| Pagination.RowIndexRoundTrip | app.js:910-920 | the `data-index` of each row of a page names the record that row shows |
| Pagination.EachRecordOnOnePage | app.js:910-911 | each record is row `k % 25` of page `k / 25 + 1`, and of no other page |
| Pagination.TotalPages | app.js:1165 | `ceil(n / 25)` pages hold all records, and one page fewer would not |
| Pagination.NonEmptyPageInRange | app.js:910-911 | a page that shows rows is one of the `TotalPages` pages |
| Pagination.GetPageNumbers | app.js:1195-1206 | the loop builds the page list that `PageNumbers` defines |
| Pagination.PagesUpToBasics | app.js:1198-1204 | after i steps the list starts with page 1, ends with page i or a gap, and holds only shown pages up to i |
| Pagination.PagesUpToIncreasing | app.js:1198-1204 | the numbers of the list increase strictly |
| Pagination.PagesUpToComplete | app.js:1198-1204 | every shown page up to i is in the list |
| Pagination.PagesUpToAdjacent | app.js:1198-1204 | two numbers side by side are consecutive pages |
| Pagination.PagesUpToGaps | app.js:1198-1204 | every '...' sits right after a number and, when a number follows, between two non-consecutive pages |
| Pagination.PageNumbersProperties | app.js:1195-1206 | for at least one page: the list begins with 1 and ends with the total, increases strictly, holds page k exactly when k is 1, the total or within 2 of the current page, and puts a '...' exactly between non-adjacent numbers |
| Pagination.PageNumbersOrder | app.js:1195-1206 | first 1, last the total, numbers increasing, neighbouring numbers consecutive |
| Pagination.PageNumbersGaps | app.js:1195-1206 | a '...' always stands between two numbers that are not consecutive pages |
| Pagination.PageNumbersHas | app.js:1195-1206 | a page number is listed exactly when it is a page and is shown |
| Pagination.BarTargets | app.js:1165-1181 | a bar is drawn exactly when there are more than 25 records; prev is disabled exactly on page 1 and next exactly on the last page; an enabled button leads to an existing page |
| Presentation.Truncate | app.js:1325-1328 | a text within the bound is kept; a longer one keeps its first `maxLength` characters and gets "..." |
| Presentation.TruncateProperties | app.js:1325-1328 | the result has at most `maxLength + 3` characters, and truncating twice is truncating once |
| Presentation.PermalinkUrl | app.js:1240-1242 | a permalink starting with "http" is kept; any other is taken relative to https://reddit.com; every link starts with "http" and ends with the permalink |
| Presentation.PermalinkUrlIdempotent | app.js:1240-1242 | applying the rule again changes nothing |
| Presentation.ModalLink | app.js:1240-1245 | the modal shows a link exactly when the record has a permalink |
| Presentation.StatsText | app.js:1308-1314 | "N of M" exactly when a query is active and hides some records; "M" when there are records and the query hides none; otherwise nothing |
| Loading.FirstIndex | app.js:458-469 | the first pattern of the chain the name contains; none before it matches |
| Loading.ClassifyPriority | app.js:456-471 | the first test of the chain that the lower-cased name passes decides the dataset |
| Loading.ClassifyIgnores | app.js:456-471 | a file is ignored exactly when its name holds none of the patterns |
| Loading.PostVotesBeatPosts | app.js:459-468 | a `post_votes` file is taken for post votes, not for posts |
| Loading.DefaultFilesLoadable | app.js:163-175 | every default entry names a file and has a dataset key |
| Loading.TypeOf | app.js:196 | `typeMap[key]` is a dataset's type exactly for the eleven dataset keys, an inherited `Object.prototype` member exactly for those member names, and `undefined` otherwise |
| Loading.AutoLoadPlan | app.js:193-212 | a file is fetched and parsed exactly when its entry has a file name, its key gives a truthy `typeMap` entry (a dataset type or an inherited member), and the file is available |
| Loading.FileCount | app.js:333-334 | `fileCount` is the number of entries with a file name, whatever their key |
| Loading.FindByName | app.js:355-357 | the first selected file whose name matches without regard to case, and none exactly when no name matches |
| Loading.MatchSelectedFiles | app.js:344-365 | the loop collects exactly the planned files, and `loadedCount` is their number |
| Loading.LoadedCountBound | app.js:333-365 | "Loaded N of M" never has N above M, and N equals M exactly when every entry with a file name has a truthy `typeMap` entry and a matching selected file |
| Loading.MatchPlanSound | app.js:344-362 | every parsed file is a selected file matched to an entry whose key gives its type |
| Engine.Store | app.js:216-278 | `state[key] = data` replaces that dataset and keeps every other |
| Engine.FilterAllMeaning | app.js:727-820 | every view is a subsequence of its dataset; posts, comments and messages hold a record exactly when it passes that view's tests |
| Engine.SortTab | app.js:835-856 | the view of the sorted tab becomes a sorted permutation of itself; every other view is unchanged; tabs other than posts, comments and messages change nothing |
| Engine.SortTabWithin | app.js:835-856 | sorting keeps each view drawn from its dataset |
| Engine.LoadedWithin | app.js:224-254 | storing a dataset and its view keeps every view drawn from its dataset |
| Engine.LoadedPostsView | app.js:226-229 | after loading posts, the posts view holds every non-deleted post as often as the file does, no other record, newest first |
| Engine.SetPage | app.js:1187-1188 | that list's page changes and the others are kept |
| Engine.FilterPostsSteps | app.js:735-781 | the step-by-step posts pipeline computes `FilterPosts` |
| Engine.CountWithin | app.js:1259-1314 | a list drawn from another is no longer than it |
| Engine.WithoutIdMeaning | app.js:1381-1382 | removing a post id keeps every other record, in order, and none with that id; doing it again changes nothing |
| Engine.Engine.constructor | app.js:6-70 | the initial state: no data, empty views, every page 1, posts tab, date column descending, no filters |
| Engine.Engine.SortData | app.js:835-856 | the tab's view is sorted by the column; nothing else changes |
| Engine.Engine.LoadPosts | app.js:225-232 | the posts are stored; the view is the non-deleted posts newest first; the timeline is rebuilt from these posts and the comments and messages already loaded; the subreddit options are refilled |
| Engine.Engine.StoreDataset | app.js:216-278 | one dataset and its view are stored, with the invariant kept |
| Engine.Engine.ResetTimeline | app.js:561-607 | `initDateRangeSlider` on the current datasets |
| Engine.Engine.RefillSubreddits | app.js:527-550 | `populateSubredditFilter`, leaving the select as it was when there is nothing to offer |
| Engine.Engine.ProcessData | app.js:216-281 | one dataset stored; posts get a new view, timeline and subreddit list; comments and messages a copy newest first; votes a copy; other datasets are only stored; the filter settings are not applied again and no page number changes |
| Engine.Engine.ApplyFilters | app.js:727-820 | every page back to 1 and every view rebuilt from its dataset and the current settings, in dataset order; nothing else changes, so a second run gives the same state |
| Engine.Engine.HandleSearch | app.js:714-717 | the query becomes the trimmed, lower-cased input and the filters run |
| Engine.Engine.HandlePostTypeFilter | app.js:720-724 | the post type is set and the filters run |
| Engine.Engine.HandleSubredditFilter | app.js:554-558 | the subreddit is set and the filters run |
| Engine.Engine.HandleDateRangeChange | app.js:610-632 | the sliders move by `SlideTo`, staying in range, and the filters run |
| Engine.Engine.HandleSort | app.js:823-832 | the column and direction follow `NextSort` on every tab; only the current tab's view is sorted |
| Engine.Engine.SwitchTab | app.js:686-687 | only the tab changes |
| Engine.Engine.SelectVotesSubTab | app.js:664-679 | only the votes sub-tab changes |
| Engine.Engine.SelectSavedSubTab | app.js:664-679 | only the saved sub-tab changes |
| Engine.Engine.PageView | app.js:909-911 | a table shows at most 25 records of its list, from the page's first index on, in list order |
| Engine.Engine.ClickPage | app.js:1185-1190 | a clicked page button always names an existing page of its list, and only that list's page changes |
| Engine.Engine.OpenModal | app.js:1209-1214 | the modal opens exactly when the index is within the view, on that record |
| Engine.Engine.ModalOpensShownRow | app.js:1209-1214 | clicking a row of a page opens the modal on the record that row shows |
| Engine.Engine.Stats | app.js:1259-1314 | the posts, comments and messages tabs and the chosen votes sub-tab describe their view against their dataset under that noun; a saved sub-tab shows only its dataset's size, or nothing when it is empty; the account and settings tabs show nothing; "N of M" appears only with an active query and N below M |
| Engine.Engine.DeletePost | app.js:1378-1382 | after the server's success, the posts with that id leave the dataset and the posts view; nothing else changes; without success nothing changes at all |
| Server.StripTrailingSlashes | server.js:90 | the path without its trailing slashes |
| Server.AfterLastSlash | server.js:90 | the slash-free suffix after the last slash |
| Server.Basename | server.js:90 | `path.basename` never contains a slash |
| Server.BasenameIdempotent | server.js:90 | the basename of a basename is itself |
| Server.BasenameOfChild | server.js:92 | a file `dir + "/" + name` has `name` as its basename |
| Server.AfterLastSlashOfChild | server.js:90 | the text after the last slash of `dir + "/" + name` is `name` |
| Server.LastDot | server.js:361 | the position of the last dot, or -1 |
| Server.Extname | server.js:361 | the extension is empty or a dot followed by text without dots or slashes, and it is a proper suffix of the basename |
| Server.ExtnameOfFile | server.js:361 | a file `stem + ext` in any directory has the extension `ext` |
| Server.NoExtensionIsOctetStream | server.js:361-362 | a path without an extension is served as `application/octet-stream` |
| Server.ContentTypeOfFile | server.js:31-45 | the type of a file is the table entry for its lower-cased extension, or `application/octet-stream` |
| Server.ServedPath | server.js:331 | `/` is read as `/index.html`; any other path as it is |
| Server.Header | server.js:134-135 | the first line has no newline |
| Server.DataLines | server.js:134-136 | the data lines have no newline |
| Server.DeleteRowContent | server.js:133-145 | the rewritten file begins with the original first line and a newline, whatever the row id |
| Server.DeleteRowSurvivors | server.js:136-141 | a data line survives exactly when it is not blank once trimmed and its text before the first comma differs from the row id; the survivors keep their order |
| Server.DeleteRowLines | server.js:134-145 | the lines of the new file are the old first line and then the survivors joined by single newlines |
| Server.DeleteRowIdempotent | server.js:133-145 | deleting the same row again from the rewritten file gives the same content |
| Server.ConcatSnoc | server.js:86 | appending a chunk appends its text to the body |
| Server.ReadBody | server.js:85-86 | `body += chunk` for every chunk gives their concatenation |
| Server.Target | server.js:90-92 | a request addresses the basename of its filename, and only names a data directory file can have |
| Server.Backup | server.js:95-99 | an existing file is copied to `name.backup`; every other file is kept; without the file nothing changes |
| Server.BackupNamePlain | server.js:96 | the backup of a plain name is a plain name |
| Server.Reply.Message | server.js:105-149 | a save answers "`name` saved", a deletion "Row deleted from `name`", a missing file "File not found" |
| Server.Reply.Status | server.js:104-110 | 200 exactly for a save or a deletion, 404 exactly for a missing file |
| Server.FileStore.constructor | server.js:19 | the store holds the given files |
| Server.FileStore.Save | server.js:84-113 | only the basename is used; an existing file is backed up before the write; the file then holds the content; a failed parse changes nothing (500); content that is not a string fails after the backup |
| Server.FileStore.DeleteRow | server.js:116-157 | a missing file gives 404 and no write or backup; otherwise the backup holds the old content, the file holds the rewrite, and the reply is a success |
| Server.FileStore.ServeStatic | server.js:331-362 | a `.csv` path found in the data directory is read from there, any other from the site root, otherwise "Not Found"; a served file gets the content type of its extension |
| Server.BackupHoldsPreviousContent | server.js:144-145 | after a delete the backup holds the old content, the file holds the rewrite of the backup, and a second delete of the same row leaves the file as it is |

## Left out

- Rendering: the DOM is not modelled. This covers HTML templates, `escapeHtml`, modals, event wiring, `scrollTo`, `debounce` and the slider labels.
- Render and stats calls: `render` and `updateStats` are not modelled as calls. `Stats` gives the stats line of the current state, tab by tab.
- CSV parsing: `Papa.parse` is a foreign library, so records arrive as already-parsed maps. A missing field is absent from its map.
- Date handling:
  - `new Date(s).getTime()` is a parameter of the engine, with `None` standing for `NaN`.
  - `toLocaleDateString` is left out.
  - The alphabetical `localeCompare` order of the subreddit list is left out. The model gives the options as a map.
- Fetch and storage: the fetches of `tryAutoLoad`, `deletePost` and `checkServerStatus`, the Poe and AI features and `localStorage` are I/O. The HEAD request is the `available` parameter of `AutoLoadPlan`, and the server's answer to a deletion is the `serverSuccess` parameter of `DeletePost`.
- Loading.TypeOf: a key naming an inherited `Object.prototype` member passes the `typeMap` test, so its file is fetched, parsed and counted. `processData` then throws at `type.replace` (app.js:217) before it stores anything. The model plans and counts such parses, but `Engine.Engine.ProcessData` takes only dataset kinds, so the failed call itself is not modelled.
- Loading.AutoLoadPlan: the values of a `files` object are taken to be strings. Fetching a non-string value converts it to a string first, and that is not modelled.
- Loading.FileCount: the values of a `files` object are taken to be strings, and an empty string stands for every falsy value. The source also counts a truthy non-string value, such as a number, which the model cannot express.
- Loading.MatchSelectedFiles: the values of a `files` object are taken to be strings. A truthy non-string value makes `expectedFilename.toLowerCase()` throw (app.js:356), which ends the handler before the status line; that is not modelled.
- DateIndex.BoundIndex: `Math.floor((p / 100) * (n - 1))` is computed in exact integer arithmetic. JavaScript's floating point can round some products down by one.
- Text.Lower: lower-cases ASCII letters only. `Text.Trim` strips the whitespace and line-terminator characters of ECMAScript, but no other Unicode behaviour is modelled.
- Presentation.Truncate: lengths and cut points count code points. JavaScript's `length` and `substring` count UTF-16 code units, so a text with characters outside the Basic Multilingual Plane (emoji) is cut at a different place in the source.
- Text.LexLe: strings are compared by code point. JavaScript's `<` and `>` compare UTF-16 code units, so a character outside the Basic Multilingual Plane sorts below U+E000..U+FFFF in the source and above them in the model.
- Sorting.SortBy:
  - It is an insertion sort that keeps records with equal keys in their input order. The source's comparator returns -1 both ways for two records with equal keys, so `Array.prototype.sort` may put them in another order (V8 reverses a run of equal keys). The model does not capture that order. Its contract promises only a permutation ordered by the key, and the lemmas that fix the exact output (`SortByUnique`, `SortBySorted`, `SortByIdempotent`) require that no two different records share a key, the case where every correct sort agrees.
  - The sort returns a new list rather than sorting the array in place.
- Engine.Engine.HandleDateRangeChange: the slider that did not move takes its position from the state, not from the DOM element. The two agree whenever the page has reset both.
- Engine: the `state` fields are grouped into the datatypes `RawData`, `Views`, `PageNums` and `Controls`. `filesLoaded` is a set of dataset kinds, and `currentSubTab` is two fields.
- Server.ContentType: it has no direct ensures. Its contract is stated by `NoExtensionIsOctetStream` and `ContentTypeOfFile`. The case `/` is covered by `ServedPath`, and its type follows from `ContentTypeOfFile` with the extension `.html`.
- Server, HTTP: routing, CORS headers, the Poe proxies, `/api/files`, `openBrowser`, the console banner and signal handlers are not modelled.
- Server, paths and bodies:
  - The directory-traversal check (server.js:343) depends on `path.join` normalisation and is left out.
  - `decodeURIComponent` is left out.
  - `JSON.parse` is given as the parsed fields, and the `err.message` text of a 500 reply is left out.
- Server, files:
  - Read errors other than a missing file are left out.
  - Paths are POSIX only (no Windows separators).
  - A basename of "", "." or ".." names the directory itself. Reading or writing it throws, so the model answers 500 and changes nothing.
- Server.ReadBody: chunks are already-decoded strings, so a UTF-8 character split across chunks is not modelled.
- Server.FileStore.ServeStatic: the site root is a map `root` of its own. DATA_DIR is ROOT_DIR/csv (server.js:19), so in the source a path under `/csv/` reads the data directory even when it does not end in `.csv`. The model reads such a path from `root`, which is not tied to `files`.
- Server.FileStore.DeleteRow: the source reports success even when no line matched the row id. The model follows the code here.
