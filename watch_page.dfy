/** The player page: which saved progress a route resumes, the season and
    episode it shows, the progress it reports back through `onWatch`, and the
    embed address of each player source. */
module WatchPage {
  import opened Entries
  import opened JsNumber
  import opened Watchlist
  import opened History

  /** A route id together with `parseInt` of it, which every render of the
      page computes afresh and always to the same value. */
  datatype Route = Route(id: string, number: Option<int>)

  function ReadRoute(id: string): Route
  {
    Route(id, ParseInt(id))
  }

  /** `m.id === parseInt(id) || m.id === id`: a record id matches the route
      id as the number read from it or as the string itself. */
  predicate Matches(recordId: Id, route: Route)
  {
    (route.number.Some? && recordId == Num(route.number.value)) || recordId == Str(route.id)
  }

  /** The index of the first record matching the route, or -1. */
  function SavedIndex(history: seq<HistoryRecord>, route: Route): (k: int)
    ensures -1 <= k < |history|
    ensures k == -1 <==> forall i :: 0 <= i < |history| ==> !Matches(history[i].content.id, route)
    ensures k >= 0 ==> Matches(history[k].content.id, route)
    ensures k >= 0 ==> forall j :: 0 <= j < k ==> !Matches(history[j].content.id, route)
  {
    if history == [] then -1
    else if Matches(history[0].content.id, route) then 0
    else
      var k := SavedIndex(history[1..], route);
      if k == -1 then -1 else k + 1
  }

  /** `savedProgress`: the first history record matching the route. */
  function FindSaved(history: seq<HistoryRecord>, route: Route): (r: Option<HistoryRecord>)
    ensures r.None? <==> forall i :: 0 <= i < |history| ==> !Matches(history[i].content.id, route)
    ensures r.Some? ==> exists k :: (0 <= k < |history| && history[k] == r.value
      && Matches(history[k].content.id, route)
      && forall j :: 0 <= j < k ==> !Matches(history[j].content.id, route))
  {
    var k := SavedIndex(history, route);
    if k == -1 then None else Some(history[k])
  }

  /** A route naming a numeric id in decimal finds the records of that id. */
  lemma NumericRouteMatches(n: int)
    ensures Matches(Num(n), ReadRoute(IntToString(n)))
  {
    ParseIntToString(n);
  }

  /** `savedProgress?.lastSeason` and `savedProgress?.lastEpisode`. */
  function SavedSeason(saved: Option<HistoryRecord>): Option<int>
  {
    if saved.Some? then Some(saved.value.lastSeason) else None
  }

  function SavedEpisode(saved: Option<HistoryRecord>): Option<int>
  {
    if saved.Some? then Some(saved.value.lastEpisode) else None
  }

  /** `savedProgress?.lastSeason || 1`: the season a page starts at. */
  function StartSeason(saved: Option<HistoryRecord>): (s: int)
    ensures saved.None? ==> s == 1
    ensures saved.Some? && saved.value.lastSeason != 0 ==> s == saved.value.lastSeason
    ensures saved.Some? && saved.value.lastSeason == 0 ==> s == 1
  {
    OrOne(SavedSeason(saved))
  }

  /** `savedProgress?.lastEpisode || 1`: the episode a page starts at. */
  function StartEpisode(saved: Option<HistoryRecord>): (e: int)
    ensures saved.None? ==> e == 1
    ensures saved.Some? && saved.value.lastEpisode != 0 ==> e == saved.value.lastEpisode
    ensures saved.Some? && saved.value.lastEpisode == 0 ==> e == 1
  {
    OrOne(SavedEpisode(saved))
  }

  /** The metadata `{ season, episode }` the page reports. */
  function Position(season: int, episode: int): Metadata
  {
    Metadata(Some(season), Some(episode))
  }

  /** Resuming finds what was recorded: after `onWatch(item, {season,
      episode})` has gone into the history, a page for a route naming the item
      starts at that season and episode. */
  lemma ResumeWhereLeftOff(h: seq<HistoryRecord>, item: Content, season: int, episode: int, now: int, route: Route)
    requires Matches(item.id, route) && season != 0 && episode != 0
    ensures FindSaved(UpdateHistory(h, item, Position(season, episode), now), route)
      == Some(NewRecord(item, Position(season, episode), now))
    ensures StartSeason(FindSaved(UpdateHistory(h, item, Position(season, episode), now), route)) == season
    ensures StartEpisode(FindSaved(UpdateHistory(h, item, Position(season, episode), now), route)) == episode
  {
  }

  /** `watchlist.some(m => m.id === content.id)`. */
  function IsInWatchlist(watchlist: seq<Content>, content: Content): (r: bool)
    ensures r <==> exists i :: 0 <= i < |watchlist| && watchlist[i].id == content.id
  {
    HasId(watchlist, ContentId, content.id)
  }

  /** The watchlist button flips: after `toggleWatchlist(content)` the page
      shows the opposite state. */
  lemma ToggleFlipsButton(watchlist: seq<Content>, content: Content)
    ensures IsInWatchlist(Toggle(watchlist, content), content) <==> !IsInWatchlist(watchlist, content)
  {
  }

  /** The largest length `Array(n)` accepts. */
  const MaxArrayLength: int := 4294967295

  /** `[...Array(number_of_seasons || 1)].map((_, i) => i + 1)`: the seasons
      the selector offers, or `None` where `Array` throws a RangeError for a
      negative or too large count. */
  function SeasonOptions(numberOfSeasons: Option<int>): (r: Option<seq<int>>)
    ensures r.None? <==> OrOne(numberOfSeasons) < 0 || OrOne(numberOfSeasons) > MaxArrayLength
    ensures r.Some? ==> |r.value| == OrOne(numberOfSeasons)
    ensures r.Some? ==> forall k :: 0 <= k < |r.value| ==> r.value[k] == k + 1
    ensures numberOfSeasons.None? || numberOfSeasons == Some(0) ==> r == Some([1])
  {
    var count := OrOne(numberOfSeasons);
    if count < 0 || count > MaxArrayLength then None
    else
      var options := seq(count, i => i + 1);
      assert numberOfSeasons.None? || numberOfSeasons == Some(0) ==> options == [1];
      Some(options)
  }

  /** Every option's `value` attribute reads back as its season number. */
  lemma SeasonOptionsRoundTrip(numberOfSeasons: Option<int>)
    requires SeasonOptions(numberOfSeasons).Some?
    ensures forall v :: v in SeasonOptions(numberOfSeasons).value ==> ParseInt(IntToString(v)) == Some(v)
  {
    forall v | v in SeasonOptions(numberOfSeasons).value ensures ParseInt(IntToString(v)) == Some(v) {
      ParseIntToString(v);
    }
  }

  /** The three player sources. */
  datatype Source = VidsrcXyz | VidsrcMe | VidsrcTo

  /** The `id` of each source, which is also its host name. */
  function SourceKey(src: Source): string
  {
    match src
    case VidsrcXyz => "vidsrc.xyz"
    case VidsrcMe => "vidsrc.me"
    case VidsrcTo => "vidsrc.to"
  }

  /** The common start `https://<source id>/embed/` of a source's addresses. */
  function Base(src: Source): string
  {
    "https://" + SourceKey(src) + "/embed/"
  }

  /** `sources[k].url(type, id, season, episode)`. The two `vidsrc.xyz` and
      `vidsrc.me` templates differ only in the host; `vidsrc.to` puts the
      fields in the path. */
  function EmbedUrl(src: Source, contentType: string, id: string, season: int, episode: int): string
  {
    Base(src) + EmbedPath(src, contentType, id, season, episode)
  }

  function EmbedPath(src: Source, contentType: string, id: string, season: int, episode: int): string
  {
    if src.VidsrcTo? then
      if contentType == "tv" then "tv/" + id + "/" + IntToString(season) + "/" + IntToString(episode)
      else "movie/" + id
    else
      if contentType == "tv" then "tv?tmdb=" + id + "&season=" + IntToString(season) + "&episode=" + IntToString(episode)
      else "movie?tmdb=" + id
  }

  /** Every embed address is served by the host its source names. */
  lemma EmbedUrlHost(src: Source, contentType: string, id: string, season: int, episode: int)
    ensures "https://" + SourceKey(src) + "/embed/" <= EmbedUrl(src, contentType, id, season, episode)
  {
    var u := EmbedUrl(src, contentType, id, season, episode);
    assert u[..|Base(src)|] == Base(src);
  }

  /** Different sources never give the same address. */
  lemma EmbedUrlSourcesDiffer(src1: Source, src2: Source, t1: string, i1: string, s1: int, e1: int,
                              t2: string, i2: string, s2: int, e2: int)
    requires src1 != src2
    ensures EmbedUrl(src1, t1, i1, s1, e1) != EmbedUrl(src2, t2, i2, s2, e2)
  {
    assert EmbedUrl(src1, t1, i1, s1, e1)[15] == Base(src1)[15] == SourceKey(src1)[7];
    assert EmbedUrl(src2, t2, i2, s2, e2)[15] == Base(src2)[15] == SourceKey(src2)[7];
  }

  /** For anything but a series the address holds only the id: season and
      episode do not change it, and different ids give different addresses. */
  lemma EmbedUrlMovie(src: Source, contentType: string, i1: string, s1: int, e1: int, i2: string, s2: int, e2: int)
    requires contentType != "tv"
    ensures EmbedUrl(src, contentType, i1, s1, e1) == EmbedUrl(src, contentType, i1, s2, e2)
    ensures EmbedUrl(src, contentType, i1, s1, e1) == EmbedUrl(src, contentType, i2, s2, e2) ==> i1 == i2
  {
    if EmbedUrl(src, contentType, i1, s1, e1) == EmbedUrl(src, contentType, i2, s2, e2) {
      CancelPrefix(Base(src), EmbedPath(src, contentType, i1, s1, e1), EmbedPath(src, contentType, i2, s2, e2));
      var p := if src.VidsrcTo? then "movie/" else "movie?tmdb=";
      CancelPrefix(p, i1, i2);
    }
  }

  /** The characters that end an id inside a series address. */
  predicate NoSeparator(id: string)
  {
    '&' !in id && '/' !in id
  }

  /** For a series the address determines the id, the season and the episode,
      provided the id does not contain `&` or `/`. */
  lemma EmbedUrlSeries(src: Source, i1: string, s1: int, e1: int, i2: string, s2: int, e2: int)
    requires NoSeparator(i1) && NoSeparator(i2)
    requires EmbedUrl(src, "tv", i1, s1, e1) == EmbedUrl(src, "tv", i2, s2, e2)
    ensures i1 == i2 && s1 == s2 && e1 == e2
  {
    CancelPrefix(Base(src), EmbedPath(src, "tv", i1, s1, e1), EmbedPath(src, "tv", i2, s2, e2));
    NumberHasNoSeparator(s1);
    NumberHasNoSeparator(s2);
    if src.VidsrcTo? {
      SlashPathFields(i1, IntToString(s1), IntToString(e1), i2, IntToString(s2), IntToString(e2));
    } else {
      QueryPathFields(i1, IntToString(s1), IntToString(e1), i2, IntToString(s2), IntToString(e2));
    }
    IntToStringInjective(s1, s2);
    IntToStringInjective(e1, e2);
  }

  /** `tv/<id>/<season>/<episode>` gives back its three fields. */
  lemma SlashPathFields(i1: string, s1: string, e1: string, i2: string, s2: string, e2: string)
    requires '/' !in i1 && '/' !in i2 && '/' !in s1 && '/' !in s2
    requires "tv/" + i1 + "/" + s1 + "/" + e1 == "tv/" + i2 + "/" + s2 + "/" + e2
    ensures i1 == i2 && s1 == s2 && e1 == e2
  {
    var r1, r2 := s1 + ['/'] + e1, s2 + ['/'] + e2;
    assert "tv/" + i1 + "/" + s1 + "/" + e1 == "tv/" + (i1 + ['/'] + r1);
    assert "tv/" + i2 + "/" + s2 + "/" + e2 == "tv/" + (i2 + ['/'] + r2);
    CancelPrefix("tv/", i1 + ['/'] + r1, i2 + ['/'] + r2);
    SplitAtSeparator(i1, r1, i2, r2, '/');
    SplitAtSeparator(s1, e1, s2, e2, '/');
  }

  /** `tv?tmdb=<id>&season=<season>&episode=<episode>` gives back its three
      fields. */
  lemma QueryPathFields(i1: string, s1: string, e1: string, i2: string, s2: string, e2: string)
    requires '&' !in i1 && '&' !in i2 && '&' !in s1 && '&' !in s2
    requires "tv?tmdb=" + i1 + "&season=" + s1 + "&episode=" + e1 == "tv?tmdb=" + i2 + "&season=" + s2 + "&episode=" + e2
    ensures i1 == i2 && s1 == s2 && e1 == e2
  {
    var r1, r2 := "episode=" + e1, "episode=" + e2;
    var q1, q2 := "season=" + (s1 + ['&'] + r1), "season=" + (s2 + ['&'] + r2);
    assert "tv?tmdb=" + i1 + "&season=" + s1 + "&episode=" + e1 == "tv?tmdb=" + (i1 + ['&'] + q1);
    assert "tv?tmdb=" + i2 + "&season=" + s2 + "&episode=" + e2 == "tv?tmdb=" + (i2 + ['&'] + q2);
    CancelPrefix("tv?tmdb=", i1 + ['&'] + q1, i2 + ['&'] + q2);
    SplitAtSeparator(i1, q1, i2, q2, '&');
    CancelPrefix("season=", s1 + ['&'] + r1, s2 + ['&'] + r2);
    SplitAtSeparator(s1, r1, s2, r2, '&');
    CancelPrefix("episode=", e1, e2);
  }

  lemma NumberHasNoSeparator(n: int)
    ensures NoSeparator(IntToString(n))
  {
    var s := IntToString(n);
    assert forall i :: 0 <= i < |s| ==> s[i] != '&' && s[i] != '/';
  }

  lemma CancelPrefix(p: string, x: string, y: string)
    requires p + x == p + y
    ensures x == y
  {
    assert x == (p + x)[|p|..];
    assert y == (p + y)[|p|..];
  }

  lemma SplitAtSeparator(x1: string, y1: string, x2: string, y2: string, c: char)
    requires c !in x1 && c !in x2
    requires x1 + [c] + y1 == x2 + [c] + y2
    ensures x1 == x2 && y1 == y2
  {
    var u := x1 + [c] + y1;
    SeparatorAt(x1, c, y1);
    SeparatorAt(x2, c, y2);
    assert |x1| == |x2|;
    assert x1 == u[..|x1|] == x2;
    assert y1 == u[|x1| + 1..] == y2;
  }

  /** In `x + [c] + y` the separator sits right after `x`. */
  lemma SeparatorAt(x: string, c: char, y: string)
    ensures (x + [c] + y)[|x|] == c
    ensures forall i :: 0 <= i < |x| ==> (x + [c] + y)[i] == x[i]
  {
  }

  /** One hook call of a render of the page: `useParams`, `useNavigate`, a
      `useState` or a `useEffect`, named after what it holds or does. */
  datatype Hook = ParamsHook | NavigateHook | StateHook(name: string) | EffectHook(name: string)

  /** `useState(true)`: the first render shows the loading screen. */
  const InitialLoading: bool := true

  /** `isLoading || !content`: the render stops at the loading screen. */
  predicate ShowsLoading(isLoading: bool, content: Option<Content>)
  {
    isLoading || content.None?
  }

  /** The top-level hook calls every render makes before the loading return,
      in order. The hooks that `useParams` and `useNavigate` call inside
      themselves are the same on every render and are not listed. */
  function TopHooks(): seq<Hook>
  {
    [ParamsHook, NavigateHook,
     StateHook("content"), StateHook("seasonDetails"), StateHook("isLoading"), StateHook("isLoadingSeason"),
     StateHook("season"), StateHook("episode"),
     EffectHook("sync"), EffectHook("progress"), EffectHook("details"), EffectHook("season details")]
  }

  /** The top-level hook calls of a render as the page is written: the source state is
      created after the loading return, so only a render past it calls it. */
  function RenderHooks(showsLoading: bool): seq<Hook>
  {
    if showsLoading then TopHooks() else TopHooks() + [StateHook("source")]
  }

  /** The top-level hook calls of a render with the source state created together with
      the others, before the loading return. */
  function RenderHooksFixed(showsLoading: bool): seq<Hook>
  {
    TopHooks() + [StateHook("source")]
  }

  /** React throws ("Rendered more hooks than during the previous render",
      or fewer) when a render makes a different number of hook calls than the
      render before it. */
  predicate RenderThrows(previous: seq<Hook>, next: seq<Hook>)
  {
    |next| != |previous|
  }

  /** As written, the first render to get past the loading screen throws: the
      mount render stops there after twelve top-level hook calls, and the
      render showing the loaded details makes thirteen. */
  lemma LoadedRenderThrows(item: Content)
    ensures ShowsLoading(InitialLoading, None) && !ShowsLoading(false, Some(item))
    ensures |RenderHooks(ShowsLoading(InitialLoading, None))| == 12
    ensures |RenderHooks(ShowsLoading(false, Some(item)))| == 13
    ensures RenderThrows(RenderHooks(ShowsLoading(InitialLoading, None)), RenderHooks(ShowsLoading(false, Some(item))))
  {
  }

  /** With the source state moved up, every render calls the same hooks, so
      no pair of renders throws. */
  lemma FixedRendersAgree(isLoading1: bool, content1: Option<Content>, isLoading2: bool, content2: Option<Content>)
    ensures RenderHooksFixed(ShowsLoading(isLoading1, content1)) == RenderHooksFixed(ShowsLoading(isLoading2, content2))
    ensures !RenderThrows(RenderHooksFixed(ShowsLoading(isLoading1, content1)), RenderHooksFixed(ShowsLoading(isLoading2, content2)))
    ensures RenderHooksFixed(ShowsLoading(false, content2)) == RenderHooks(false)
  {
  }

  /** One call of `onWatch(content, { season, episode })`. */
  datatype WatchCall = WatchCall(item: Content, metadata: Metadata)

  /** The mounted page for route `/watch/:type/:id`, with the source state
      created before the loading return (`RenderHooksFixed`), so that a render
      showing the details does not throw. */
  class WatchView {
    var routeType: string
    var route: Route
    /** The `history` prop. */
    var history: seq<HistoryRecord>
    /** The loaded details, `null` before the first load succeeds. */
    var content: Option<Content>
    /** The `savedProgress` the details load of the current route saw. */
    var savedAtLoad: Option<HistoryRecord>
    var season: int
    var episode: int
    var source: Source
    /** Every `onWatch` call so far, oldest first. */
    var calls: seq<WatchCall>

    /** Once details are shown, the latest report to the history names them
        at the current season and episode. */
    ghost predicate Valid()
      reads this
    {
      content.Some? ==> calls != [] && calls[|calls| - 1] == WatchCall(content.value, Position(season, episode))
    }

    /** The dependencies `[id, savedProgress?.lastSeason,
        savedProgress?.lastEpisode]` of the progress-sync effect. */
    function SyncDeps(r: Route, h: seq<HistoryRecord>): (string, Option<int>, Option<int>)
    {
      (r.id, SavedSeason(FindSaved(h, r)), SavedEpisode(FindSaved(h, r)))
    }

    /** Mounting: the page looks up the saved progress, starts there and
        starts loading the details; nothing is reported yet. */
    constructor (contentType: string, r: Route, h: seq<HistoryRecord>)
      ensures Valid()
      ensures routeType == contentType && route == r && history == h
      ensures content == None && calls == [] && source == VidsrcXyz
      ensures savedAtLoad == FindSaved(h, route)
      ensures season == StartSeason(FindSaved(h, route)) && episode == StartEpisode(FindSaved(h, route))
    {
      routeType := contentType;
      route := r;
      history := h;
      content := None;
      savedAtLoad := FindSaved(h, r);
      season := StartSeason(FindSaved(h, r));
      episode := StartEpisode(FindSaved(h, r));
      source := VidsrcXyz;
      calls := [];
    }

    /** The progress effect: when season, episode or content changed and
        content is loaded, report the current position. */
    method ReportProgress(changed: bool)
      modifies this
      ensures calls == old(calls) + (if changed && content.Some? then [WatchCall(content.value, Position(season, episode))] else [])
      ensures routeType == old(routeType) && route == old(route) && history == old(history)
      ensures content == old(content) && savedAtLoad == old(savedAtLoad)
      ensures season == old(season) && episode == old(episode) && source == old(source)
    {
      if changed && content.Some? {
        calls := calls + [WatchCall(content.value, Position(season, episode))];
      }
    }

    /** The details request settles: `None` is a failed request, which is
        only logged. A success shows the item, reports a first watch at season
        1, episode 1 when the load saw no saved progress, and then the progress
        effect reports the current position for the new content. */
    method DetailsLoaded(data: Option<Content>)
      requires Valid()
      modifies this
      ensures Valid()
      ensures data.None? ==> content == old(content) && calls == old(calls)
      ensures data.Some? ==> content == data
      ensures data.Some? ==>
        calls == old(calls) + (if savedAtLoad.None? then [WatchCall(data.value, Position(1, 1))] else [])
                 + [WatchCall(data.value, Position(season, episode))]
      ensures routeType == old(routeType) && route == old(route) && history == old(history)
      ensures savedAtLoad == old(savedAtLoad) && source == old(source)
      ensures season == old(season) && episode == old(episode)
    {
      if data.Some? {
        content := data;
        if savedAtLoad.None? {
          calls := calls + [WatchCall(data.value, Position(1, 1))];
        }
        ReportProgress(true);
      }
    }

    /** The season selector's `onChange`: the chosen option's value is read
        back with `parseInt`, and the episode goes back to 1. */
    method SelectSeason(option: int)
      requires Valid()
      requires routeType == "tv" && content.Some?
      requires SeasonOptions(content.value.numberOfSeasons).Some?
      requires option in SeasonOptions(content.value.numberOfSeasons).value
      modifies this
      ensures Valid()
      ensures routeType == old(routeType) && route == old(route) && history == old(history)
      ensures content == old(content) && savedAtLoad == old(savedAtLoad) && source == old(source)
      ensures season == option && episode == 1
      ensures calls == old(calls) + (if option != old(season) || old(episode) != 1
        then [WatchCall(content.value, Position(option, 1))] else [])
    {
      ParseIntToString(option);
      var parsed := ParseInt(IntToString(option));
      var s0, e0 := season, episode;
      season := parsed.value;
      episode := 1;
      ReportProgress(season != s0 || episode != e0);
    }

    /** A click on an episode card of the current season. */
    method EpisodeClick(n: int)
      requires Valid()
      requires routeType == "tv" && content.Some?
      modifies this
      ensures Valid()
      ensures routeType == old(routeType) && route == old(route) && history == old(history)
      ensures content == old(content) && savedAtLoad == old(savedAtLoad) && source == old(source)
      ensures episode == n && season == old(season)
      ensures calls == old(calls) + (if n != old(episode) then [WatchCall(content.value, Position(season, n))] else [])
    {
      var e0 := episode;
      episode := n;
      ReportProgress(episode != e0);
    }

    /** A click on a source button. */
    method ChooseSource(src: Source)
      requires Valid()
      modifies this
      ensures Valid()
      ensures source == src
      ensures routeType == old(routeType) && route == old(route) && history == old(history)
      ensures content == old(content) && savedAtLoad == old(savedAtLoad)
      ensures season == old(season) && episode == old(episode) && calls == old(calls)
    {
      source := src;
    }

    /** A new `history` prop: when the saved season or episode of the route
        differs from before, the page moves to the saved position, and the
        progress effect reports any move. */
    method HistoryChanged(h: seq<HistoryRecord>)
      requires Valid()
      modifies this
      ensures Valid()
      ensures history == h
      ensures SyncDeps(route, h) != SyncDeps(route, old(history)) ==>
        season == StartSeason(FindSaved(h, route)) && episode == StartEpisode(FindSaved(h, route))
      ensures SyncDeps(route, h) == SyncDeps(route, old(history)) ==>
        season == old(season) && episode == old(episode)
      ensures calls == old(calls) + (if (season, episode) != (old(season), old(episode)) && content.Some?
        then [WatchCall(content.value, Position(season, episode))] else [])
      ensures routeType == old(routeType) && route == old(route)
      ensures content == old(content) && savedAtLoad == old(savedAtLoad) && source == old(source)
    {
      var depsChanged := SyncDeps(route, h) != SyncDeps(route, history);
      history := h;
      var s0, e0 := season, episode;
      if depsChanged {
        season := StartSeason(FindSaved(h, route));
        episode := StartEpisode(FindSaved(h, route));
      }
      ReportProgress(season != s0 || episode != e0);
    }

    /** Navigation to `/watch/:type/:id` on the same page instance: the
        progress-sync effect moves to the new route's saved position, a new
        details load starts with that saved progress, and the details shown
        stay those of the previous item until the load settles, so the
        progress effect reports the previous item at the new position. */
    method Navigate(contentType: string, next: Route)
      requires Valid()
      requires next.id == route.id ==> next == route
      modifies this
      ensures Valid()
      ensures routeType == contentType && route == next && history == old(history)
      ensures content == old(content) && source == old(source)
      ensures next.id != old(route).id ==>
        season == StartSeason(FindSaved(history, route)) && episode == StartEpisode(FindSaved(history, route))
      ensures next.id != old(route).id || contentType != old(routeType) ==> savedAtLoad == FindSaved(history, route)
      ensures next.id == old(route).id ==> season == old(season) && episode == old(episode)
      ensures next.id == old(route).id && contentType == old(routeType) ==> savedAtLoad == old(savedAtLoad)
      ensures calls == old(calls) + (if (season, episode) != (old(season), old(episode)) && content.Some?
        then [WatchCall(content.value, Position(season, episode))] else [])
    {
      var saved := FindSaved(history, next);
      var depsChanged := SyncDeps(next, history) != SyncDeps(route, history);
      assert next.id != route.id ==> depsChanged;
      var reload := next.id != route.id || contentType != routeType;
      routeType := contentType;
      route := next;
      var s0, e0 := season, episode;
      if depsChanged {
        season := StartSeason(saved);
        episode := StartEpisode(saved);
      }
      if reload {
        savedAtLoad := saved;
      }
      ReportProgress(season != s0 || episode != e0);
    }

    /** Navigation that drops the previous item's details when the route
        changes, so that no position is reported until the new details
        arrive. */
    method NavigateClearingContent(contentType: string, next: Route)
      requires Valid()
      requires next.id == route.id ==> next == route
      modifies this
      ensures Valid()
      ensures routeType == contentType && route == next && history == old(history) && source == old(source)
      ensures next.id != old(route).id ==>
        season == StartSeason(FindSaved(history, route)) && episode == StartEpisode(FindSaved(history, route))
      ensures next.id != old(route).id || contentType != old(routeType) ==>
        (savedAtLoad == FindSaved(history, route) && content == None)
      ensures next.id == old(route).id ==> season == old(season) && episode == old(episode)
      ensures next.id == old(route).id && contentType == old(routeType) ==>
        (savedAtLoad == old(savedAtLoad) && content == old(content))
      ensures calls == old(calls)
    {
      var saved := FindSaved(history, next);
      var depsChanged := SyncDeps(next, history) != SyncDeps(route, history);
      assert next.id != route.id ==> depsChanged;
      var reload := next.id != route.id || contentType != routeType;
      if reload {
        content := None;
      }
      routeType := contentType;
      route := next;
      var s0, e0 := season, episode;
      if depsChanged {
        season := StartSeason(saved);
        episode := StartEpisode(saved);
      }
      if reload {
        savedAtLoad := saved;
      }
      ReportProgress(season != s0 || episode != e0);
    }
  }

  /** Opening a series with no saved progress reports season 1, episode 1
      twice: once as the first watch, once from the progress effect. */
  method FirstVisit(item: Content) returns (calls: seq<WatchCall>)
    ensures calls == [WatchCall(item, Position(1, 1)), WatchCall(item, Position(1, 1))]
  {
    var page := new WatchView("tv", ReadRoute("1"), []);
    page.DetailsLoaded(Some(item));
    calls := page.calls;
  }

  /** Opening a series with saved progress starts there and reports only that
      position. */
  method ResumeVisit(item: Content, rec: HistoryRecord) returns (season: int, episode: int, calls: seq<WatchCall>)
    requires rec.content == item && item.id == Num(1) && rec.lastSeason == 3 && rec.lastEpisode == 4
    ensures season == 3 && episode == 4
    ensures calls == [WatchCall(item, Position(3, 4))]
  {
    NumericRouteMatches(1);
    assert IntToString(1) == "1";
    var page := new WatchView("tv", ReadRoute("1"), [rec]);
    assert page.savedAtLoad == Some(rec);
    page.DetailsLoaded(Some(item));
    season, episode, calls := page.season, page.episode, page.calls;
  }

  /** Following a recommendation from series `a`, watched at season 2, to
      series `b` with no saved progress: the reset to season 1 is reported for
      `a`, whose details are still shown. */
  method NavigateReportsPreviousItem(a: Content, b: Content) returns (last: WatchCall)
    requires a.id == Str("a") && b.id == Str("b") && a.numberOfSeasons == Some(2)
    ensures last == WatchCall(a, Position(1, 1))
  {
    var page := new WatchView("tv", ReadRoute("a"), []);
    page.DetailsLoaded(Some(a));
    assert SeasonOptions(a.numberOfSeasons).value[1] == 2;
    page.SelectSeason(2);
    page.Navigate("tv", ReadRoute("b"));
    assert page.season == 1 by {
      assert FindSaved([], ReadRoute("b")) == None;
    }
    last := page.calls[|page.calls| - 1];
  }

  /** The same walk with the details dropped on navigation reports nothing for
      `a` after its season 2. */
  method NavigateClearingReportsNothing(a: Content, b: Content) returns (last: WatchCall)
    requires a.id == Str("a") && b.id == Str("b") && a.numberOfSeasons == Some(2)
    ensures last == WatchCall(a, Position(2, 1))
  {
    var page := new WatchView("tv", ReadRoute("a"), []);
    page.DetailsLoaded(Some(a));
    assert SeasonOptions(a.numberOfSeasons).value[1] == 2;
    page.SelectSeason(2);
    page.NavigateClearingContent("tv", ReadRoute("b"));
    last := page.calls[|page.calls| - 1];
  }
}
