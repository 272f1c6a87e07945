# WatchParty watch state in Dafny

This project models the watch-state engine of the WatchParty single-page app. It has two parts.

The application shell (`src/App.jsx`) owns three things: the watchlist, the watch history, and the signed-in user. Its model covers:

- the watchlist toggle;
- the history recorder, which puts the newest record at the front, removes the item's older record and keeps 50 records;
- the login merge of a remote snapshot into the local lists;
- loading both lists from local storage;
- the save effect: it writes both lists to local storage on every change and arms one 3000 ms timer that sends both lists to the remote store, but only when a user is signed in.

The player page (`src/pages/Watch.jsx`) covers:

- which saved progress record a route resumes;
- the season and episode the page starts at and resets to;
- every progress report the page sends back through `onWatch`;
- the season selector;
- the watchlist button state;
- the embed address of each of the three player sources.

Modules, one file each:

- `Entries` (`entries.dfy`): content items, history records, and the id-keyed list primitives `find`/`some`, `findIndex`, `filter` and `slice`.
- `JsNumber` (`js_number.dfy`): the JavaScript number conversions the code relies on. These are `x || 1`, `String(n)` and `parseInt`.
- `Watchlist` (`watchlist.dfy`): `toggleWatchlist` as a function on lists.
- `History` (`history.dfy`): `updateHistory` as a function on lists.
- `Merge` (`merge.dfy`): the merge loop as a method, proved against the function `Merged`.
- `App` (`app_state.dfy`): the class `WatchState`, whose methods are the shell's state changes and the timer. Its invariant `Valid` says two things. Local storage always mirrors both lists. An armed timer always carries the current lists and user, and is due 3000 ms after the latest change.
- `WatchPage` (`watch_page.dfy`): the lookup and URL functions, and the class `WatchView`, whose methods are the page's events. Its invariant `Valid` says that once details are shown, the latest `onWatch` report names them at the current season and episode. The same module lists the hooks each render calls, which shows that the page as written throws on its first loaded render; `WatchView` is the page with that corrected.

How JavaScript semantics are represented:

- Ids are `Num(n)` or `Str(s)`, because `===` never equates the number 12 with the string `"12"`.
- The clock is an explicit `now` argument.
- The fired timer and the remote calls are logs (`sent`, `fetches`, `calls`) that a caller can inspect.

Behaviours of the code that the model states as lemmas:

- The merge does not remove duplicates inside the remote list. It also does not cut the history back to 50 records.
- Signing out less than three seconds after a change means that change is not sent while signed out (`App.SignOutDropsPendingChange`). The change stays in the list, and it goes out with the first write after the next sign-in (`App.SignInAgainSendsChange`).

## Model

| member | source | states |
|---|---|---|
| Entries.HasId | src/App.jsx:105 | true exactly when some entry carries the id |
| Entries.IndexOfId | src/App.jsx:114 | the first index carrying the id, or -1 exactly when none does |
| Entries.Without | src/App.jsx:106 | no kept entry carries the id; the result is no longer than the input; a list without the id is returned unchanged |
| Entries.WithoutMembers | src/App.jsx:106 | the kept entries are exactly the input's entries that do not carry the id |
| Entries.WithoutConcat | src/App.jsx:126 | filtering commutes with concatenation, so kept entries keep their relative order |
| Entries.WithoutUnique | src/App.jsx:126 | filtering preserves the absence of duplicate ids |
| Entries.Take | src/App.jsx:131 | `slice(0, n)` keeps min(length, n) entries, each equal to the input's entry at the same index |
| JsNumber.OrOne | src/App.jsx:118-119 | `v \|\| 1`: never 0; undefined and 0 give 1; any other value is kept; a non-negative or missing value gives at least 1 |
| JsNumber.IntToString | src/pages/Watch.jsx:109-111 | `String(n)` / `${n}` of an integer in the model: a non-empty string of digits, with a `-` exactly when `n` is negative and only in front, and no leading zero except for `0` itself; its value is pinned by `ParseIntToString` and `IntToStringInjective` |
| JsNumber.ParseInt | src/pages/Watch.jsx:17 | `parseInt(s)` without a radix, also used at line 203: skip leading white space, an optional sign, base 16 after `0x`/`0X`, else base 10, the longest digit run, `None` for NaN; its partner is `ParseIntToString` |
| JsNumber.ParseIntToString | src/pages/Watch.jsx:203 | `parseInt(String(n))` gives back `n` for every integer |
| JsNumber.IntToStringInjective | src/pages/Watch.jsx:109-111 | different integers print differently |
| Watchlist.Toggle | src/App.jsx:103-109 | the item's id is in the result exactly when it was not in the list |
| Watchlist.ToggleAbsentAppends | src/App.jsx:104-107 | an absent item becomes the last entry and every earlier entry is unchanged |
| Watchlist.TogglePresentRemoves | src/App.jsx:105-106 | a present item's id is removed from every entry, and the rest is the order-preserving filter |
| Watchlist.ToggleTwiceRestores | src/App.jsx:103-109 | toggling an absent item twice gives back exactly the original list |
| Watchlist.ToggleTwiceMembership | src/App.jsx:103-109 | toggling any item twice leaves the membership of every id as it was |
| Watchlist.WithoutKeepsOtherIds | src/App.jsx:106 | removing one id does not change whether any other id occurs |
| Watchlist.ToggleUnique | src/App.jsx:103-109 | toggling keeps a watchlist free of duplicate ids |
| History.NewRecord | src/App.jsx:116-121 | the record carries the item and the clock reading; a truthy season or episode is kept; 0 or missing gives 1; non-negative inputs give values of at least 1 |
| History.UpdateHistory | src/App.jsx:111-133 | the result has 1 to 50 records; position 0 is the new record; no later record has the item's id; the rest is the first 49 of the old history with that id filtered out, in order |
| History.UpdateHistoryUnique | src/App.jsx:114-131 | recording keeps a history free of duplicate ids |
| History.UpdateHistoryMovesToFront | src/App.jsx:124-126 | recording A in `[A, B]` gives `[A', B]` |
| History.UpdateHistoryFresh | src/App.jsx:127-131 | recording an item without a record prepends it and keeps the first 49 older records |
| History.UpdateHistoryRepeat | src/App.jsx:111-133 | recording the same item and metadata twice equals recording it once at the later time |
| History.RecordAllNewestFirst | src/App.jsx:111-133 | recording distinct items one by one into an empty history keeps the ids of the latest 50, newest first |
| History.RecordFiftyOneDropsFirst | src/App.jsx:131 | 51 distinct recordings leave 50 records, and the first item is gone |
| Merge.IdSet | src/App.jsx:63 | an id is in the set exactly when some entry carries it |
| Merge.RemoteOnly | src/App.jsx:65-67 | no appended entry has a known id, and no more entries are appended than the remote list has |
| Merge.Merged | src/App.jsx:62-69 | the merge result: the local list followed by the remote entries whose id the local list lacks, in remote order; `MergeById` is proved to compute it and the `Merge*` lemmas state its properties |
| Merge.RemoteOnlyConcat | src/App.jsx:65-67 | the entries appended for two pieces of a remote list are those of the first piece followed by those of the second |
| Merge.MergeKeepsRemoteOrder | src/App.jsx:65-67 | two remote entries with new ids appear in the result in their remote order |
| Merge.MergeById | src/App.jsx:62-69 | the loop's result is the local list followed by the remote entries with new ids, in remote order |
| Merge.RemoteOnlyMembers | src/App.jsx:65-67 | an entry is appended exactly when it is a remote entry with an unknown id |
| Merge.MergeShape | src/App.jsx:59-81 | the local list is a prefix of the result; every later entry is a remote entry whose id is not local; every remote entry with a new id appears after the prefix |
| Merge.MergeIdempotent | src/App.jsx:62-69 | merging the same remote list a second time adds nothing |
| Merge.MergeIntoEmpty | src/App.jsx:62-69 | an empty local list takes the remote list as it is |
| Merge.MergeUnique | src/App.jsx:62-69 | two lists without duplicate ids merge into one without duplicate ids (local wins on a collision) |
| Merge.MergeKeepsRemoteDuplicates | src/App.jsx:65-67 | an id repeated in the remote list is appended twice |
| Merge.MergeCanExceedCap | src/App.jsx:72-80 | the history merge does not cap at 50: 50 local records plus one new remote record give 51 |
| App.LoadList | src/App.jsx:22-30 | a missing or empty entry loads as `[]`; text that does not parse is the only error; a stored list is returned as it is |
| App.LoadAfterSave | src/App.jsx:89-91 | what the save effect writes loads back as exactly the same two lists; this holds because storage keeps the lists rather than JSON text, so it restates that abstraction |
| App.WatchState.constructor | src/App.jsx:22-30 | both lists come from local storage; no user; the mount save effect writes storage and arms the timer for a signed-out send |
| App.WatchState.Persist | src/App.jsx:89-101 | both lists are written to local storage; the old timer is replaced by one due in 3000 ms that carries the current state and user |
| App.WatchState.ToggleWatchlist | src/App.jsx:103-109 | the watchlist becomes `Toggle` of the old one; storage is rewritten and the timer re-armed; nothing is sent |
| App.WatchState.UpdateHistory | src/App.jsx:111-133 | the history becomes `UpdateHistory` of the old one at the clock reading; storage is rewritten and the timer re-armed; nothing is sent |
| App.WatchState.SessionChanged | src/App.jsx:33-51 | null over null changes nothing; any other delivery sets the user and re-runs the save effect; a signed-in user also issues one `fetchUserData` |
| App.WatchState.RemoteDataArrived | src/App.jsx:58-82 | each column that is present is merged into its list with `Merged` and the timer is re-armed; a missing column or a failed query leaves that list and the timer alone |
| App.WatchState.Tick | src/App.jsx:93-99 | a due timer fires once and is spent; it sends the current state only when a user is signed in; a send happens only 3000 ms or more after the latest change; a timer that is not due changes nothing |
| App.WatchState.Unmount | src/App.jsx:100 | the cleanup cancels the timer without sending; the lists, user, storage, fetch log and clock stay as they were |
| App.TwoChangesOneWrite | src/App.jsx:89-101 | two changes one second apart while signed in produce exactly one write, carrying the state after both |
| App.SignOutDropsPendingChange | src/App.jsx:89-101 | a change followed within 3000 ms by a sign-out is not sent while signed out: the due timer carries no user |
| App.SignInAgainSendsChange | src/App.jsx:89-101 | the change skipped by a sign-out is sent with the first write after the next sign-in |
| WatchPage.ReadRoute | src/pages/Watch.jsx:17 | the route id together with `parseInt(id)`, read once |
| WatchPage.Matches | src/pages/Watch.jsx:17 | `m.id === parseInt(id) \|\| m.id === id`: a record id matches as the parsed number or as the id string itself, never across types |
| WatchPage.FindSaved | src/pages/Watch.jsx:17 | `None` exactly when no record matches the route id as a number or as a string; otherwise the first matching record |
| WatchPage.NumericRouteMatches | src/pages/Watch.jsx:17 | the decimal route of a numeric id matches records of that id |
| WatchPage.StartSeason | src/pages/Watch.jsx:19 | 1 without a saved record or with a saved season of 0; otherwise the saved season |
| WatchPage.StartEpisode | src/pages/Watch.jsx:20 | 1 without a saved record or with a saved episode of 0; otherwise the saved episode |
| WatchPage.ResumeWhereLeftOff | src/pages/Watch.jsx:17-20 | after a report of (season, episode) is recorded, a route naming the item finds that record and starts at that season and episode |
| WatchPage.IsInWatchlist | src/pages/Watch.jsx:105 | true exactly when some watchlist entry has the content's id |
| WatchPage.ToggleFlipsButton | src/pages/Watch.jsx:171-173 | after `toggleWatchlist(content)` the button shows the opposite state |
| WatchPage.SeasonOptions | src/pages/Watch.jsx:207-208 | the options are 1..`number_of_seasons`; a missing or 0 count gives just season 1; a negative or too large count is a RangeError |
| WatchPage.SeasonOptionsRoundTrip | src/pages/Watch.jsx:203-208 | every option's value reads back through `parseInt` as its season number |
| WatchPage.EmbedUrl | src/pages/Watch.jsx:108-115 | `currentSource.url(type, id, season, episode)`: the source's `https://<host>/embed/` followed by `EmbedPath`; its properties are the `EmbedUrl*` lemmas |
| WatchPage.EmbedPath | src/pages/Watch.jsx:109-111 | the path of the three templates: `tv?tmdb=<id>&season=<s>&episode=<e>` or `movie?tmdb=<id>` for the two query-style sources, `tv/<id>/<s>/<e>` or `movie/<id>` for `vidsrc.to` |
| WatchPage.EmbedUrlHost | src/pages/Watch.jsx:108-111 | every address starts with `https://<source id>/embed/` |
| WatchPage.EmbedUrlSourcesDiffer | src/pages/Watch.jsx:108-115 | different sources never give the same address |
| WatchPage.EmbedUrlMovie | src/pages/Watch.jsx:109-111 | for any type but `tv` the address does not depend on season or episode, and it determines the id |
| WatchPage.EmbedUrlSeries | src/pages/Watch.jsx:109-111 | for `tv` the address determines the id, the season and the episode (ids without `&` or `/`) |
| WatchPage.LoadedRenderThrows | src/pages/Watch.jsx:79-106 | as written, the mount render stops at the loading screen after 12 top-level hook calls and the first render showing details makes 13, which React refuses |
| WatchPage.FixedRendersAgree | src/pages/Watch.jsx:9-106 | with the source state created before the loading return, every render makes the same 13 top-level hook calls, those a loaded render makes as written |
| WatchPage.WatchView.constructor | src/pages/Watch.jsx:11-20 | the page starts at the saved season and episode of the route's record, or 1; nothing is reported |
| WatchPage.WatchView.ReportProgress | src/pages/Watch.jsx:33-38 | when season, episode or content changed and content is loaded, one report carries the current position |
| WatchPage.WatchView.DetailsLoaded | src/pages/Watch.jsx:40-60 | a failed load changes nothing; a success shows the item, reports (1, 1) when the load saw no saved progress, then reports the current position |
| WatchPage.WatchView.SelectSeason | src/pages/Watch.jsx:202-205 | the season becomes the chosen option, parsed back from its text; the episode becomes 1; the move is reported when it changed anything |
| WatchPage.WatchView.EpisodeClick | src/pages/Watch.jsx:117-120 | the episode becomes the clicked one, and a change is reported |
| WatchPage.WatchView.ChooseSource | src/pages/Watch.jsx:136 | only the source changes |
| WatchPage.WatchView.HistoryChanged | src/pages/Watch.jsx:22-31 | when the route's saved season or episode changed, the page moves to the saved position (or 1); any move is reported |
| WatchPage.WatchView.Navigate | src/pages/Watch.jsx:22-60 | a new id moves to that id's saved position; a new route starts a load that sees the saved progress; the details shown stay the previous item's, and a move is reported for it |
| WatchPage.WatchView.NavigateClearingContent | src/pages/Watch.jsx:22-60 | as `Navigate`, but a route change drops the shown details, and no report is made |
| WatchPage.FirstVisit | src/pages/Watch.jsx:47-50 | on the corrected page, a first visit reports season 1, episode 1 (once as the first watch and once from the progress effect) |
| WatchPage.ResumeVisit | src/pages/Watch.jsx:17-38 | on the corrected page, a visit to route `1` with a saved record for the numeric id 1 at (3, 4) finds it through `parseInt`, starts there and reports only (3, 4) |
| WatchPage.NavigateReportsPreviousItem | src/pages/Watch.jsx:22-38 | on the corrected page, moving from series `a` at season 2 to series `b` without progress reports `a` at (1, 1) |
| WatchPage.NavigateClearingReportsNothing | src/pages/Watch.jsx:22-38 | on the corrected page, with the details dropped on navigation, the last report stays `a` at (2, 1) |

## Left out

- JSON encoding: local storage holds the lists themselves. `Malformed` stands for any text that `JSON.parse` rejects. Shapes other than an array (an object, a number) are not modelled.
- App.WatchState.constructor: requires well-formed saved entries. The source throws during its first render on malformed text and nothing catches it, so the model has no state after such a load.
- App.WatchState.ToggleWatchlist, App.WatchState.UpdateHistory, App.WatchState.SessionChanged, App.WatchState.RemoteDataArrived: each requires `OnTime(now)`. This says that the caller delivers a due timer (`Tick`) before any later event, as the event loop does. It is a scheduling assumption, not a demand of the source.
- Real timers, `new Date().getTime()`, `localStorage` and the network are not modelled. The clock is the `now` argument. The remote calls are the logs `sent` and `fetches`. The `updateUserData` result and its errors are ignored, as in the source.
- React scheduling, batching and re-render timing are not modelled. Each event method is one state update followed by the effects it triggers. Object identity becomes two rules: every non-null session delivery counts as a new user, and every successful details load counts as new content.
- Async interleaving: `RemoteDataArrived` applies whatever response arrives and does not check that it belongs to the current user, which is also true of the source. `DetailsLoaded` takes the response of the latest route's load. Stale responses to an earlier route are not modelled.
- `fetchProfile` and the `profile` state (src/App.jsx:49-55) are not modelled: they do not touch the lists.
- Numbers are unbounded integers. JavaScript's `String(n)` switches to exponent notation from 1e21 on, and `IntToString` does not, so `ParseIntToString` holds of the model for every integer but of JavaScript only below 1e21 in magnitude. There is no floating point, no precision loss beyond 2^53, no NaN season, and no non-integral `number_of_seasons`. `parseInt` with a NaN result is `None`, and NaN is never stored because `SelectSeason` only receives the selector's own options.
- The route parameter is modelled as `Route`: the `id` string together with its `parseInt` value, which `ReadRoute` computes once. The page then compares record ids with both, as src/pages/Watch.jsx:17 does.
- WatchPage.WatchView.Navigate, WatchPage.WatchView.NavigateClearingContent: each requires that a route with the old id is the old route. Routes built by `ReadRoute` always meet this, because the number is a function of the id.
- Content payloads are a map of strings. Only `id` and `number_of_seasons` are read.
- The episode list comes from `fetchSeasonDetails`, and it is not modelled. `EpisodeClick` takes the clicked episode number. The loading flags, `window.scrollTo` and the rendering are not modelled.
- WatchPage.WatchView.DetailsLoaded, WatchPage.WatchView.SelectSeason, WatchPage.WatchView.EpisodeClick, WatchPage.WatchView.ChooseSource, WatchPage.WatchView.HistoryChanged, WatchPage.WatchView.Navigate, WatchPage.WatchView.NavigateClearingContent, WatchPage.FirstVisit, WatchPage.ResumeVisit, WatchPage.NavigateReportsPreviousItem, WatchPage.NavigateClearingReportsNothing: these model the page with `useState('vidsrc.xyz')` created before the loading return at src/pages/Watch.jsx:79. As written it comes after that return, at line 106. The mount render always stops at the loading screen, because `isLoading` starts true (line 13). The render after a successful load makes one more top-level hook call, so React throws and nothing catches it (see "## Findings" and `WatchPage.LoadedRenderThrows`). In the program as written, the first-watch `onWatch` call of line 49 is made, but its history update is batched with the render that throws. The app then unmounts, so that update is never committed or saved. The progress report that `DetailsLoaded` promises never happens. `HistoryChanged` and `Navigate` can still happen while the first load is pending, because every loading render makes the same twelve hook calls. `SelectSeason`, `EpisodeClick` and `ChooseSource` need the loaded page and cannot happen. The hooks that `useParams` and `useNavigate` call internally are not counted. They are the same on every render, so the difference of one still holds.
- The services (src/services/supabase.js, src/services/tmdb.js) are not part of this model. Neither are the auth, search, hero, row and navbar components or src/pages/Home.jsx.

## Findings

| source | as written | input that shows it | evidently intended | confidence | as-written member | corrected member |
|---|---|---|---|---|---|---|
| src/pages/Watch.jsx:22-38 | after a route change the details of the previous item stay in `content` until the new load settles, so the progress effect reports the previous item at the new route's position | watch series `a` at season 2, then follow a link to series `b` with no saved progress: `onWatch(a, {season: 1, episode: 1})` overwrites `a`'s progress (reachable only with the source state of the next row moved up, since as written the first loaded render throws) | report nothing until the new item's details arrive | medium; not executed | WatchPage.NavigateReportsPreviousItem | WatchPage.WatchView.NavigateClearingContent |
| src/pages/Watch.jsx:79-106 | `useState('vidsrc.xyz')` is called after the loading return, so the render that first shows details makes 13 top-level hook calls where the mount render made 12 | open any `/watch/:type/:id`: `isLoading` starts true, so the mount render returns the loading screen; after the load sets the details and clears `isLoading`, the next render calls the extra hook and React throws "Rendered more hooks than during the previous render"; with no error boundary the app unmounts | create the source state with the other hooks, before the loading return | high; not executed | WatchPage.LoadedRenderThrows | WatchPage.FixedRendersAgree |
