/** The highlight search route (src/app/api/youtube/route.ts, `GET`): it reads
    the query parameters, asks the video platform's search endpoint for three
    times as many videos as requested, asks its videos endpoint for their
    details, drops the short-form ones, turns the rest into highlights, orders
    them and returns the requested number.

    The two upstream calls are parameters (`searchApi`, `videosApi`: the reply
    each endpoint gives to a URL); the clock, date parsing and URL encoding
    are fields of `Env`. */
module YoutubeRoute {
  import opened Common
  import opened Numerals
  import opened Types
  import opened YoutubeDuration
  import opened HighlightSort

  /** The query parameters of the request; None when absent from the URL. */
  datatype Params = Params(
    query: Option<string>,
    maxResults: Option<string>,
    teamCode: Option<string>,
    publishedAfter: Option<string>,
    sortOrder: Option<string>)

  /** What the route learns from its surroundings: the time of the request in
      milliseconds, the ISO text of the instant one year earlier, the millisecond
      value of a date text (`new Date(text).getTime()`), and `encodeURIComponent`. */
  datatype Env = Env(now: int, oneYearAgo: string, dateMs: string -> int, encode: string -> string)

  /** A result of `response.json()`: not JSON, or a JSON object whose `items` may be missing. */
  datatype Body<T> = Unparsable | Json(items: Option<seq<T>>)

  /** What `fetch` yields: a rejected promise, or a response with a status and a body. */
  datatype Reply<T> = NetworkError | Reply(status: int, body: Body<T>)

  /** One search result; `id.videoId` may be missing. */
  datatype SearchItem = SearchItem(videoId: Option<string>)

  /** One video record of the videos endpoint: its snippet, statistics and content details. */
  datatype DetailItem = DetailItem(
    id: string,
    title: Option<string>,
    description: Option<string>,
    publishedAt: string,
    thumbMedium: Option<string>,
    thumbDefault: Option<string>,
    viewCount: Option<string>,
    duration: Option<string>)

  /** The JSON body the route answers with. */
  datatype Response = Response(data: seq<Highlight>, error: bool, message: Option<string>)

  /** The answer together with the URLs requested upstream, in order. */
  datatype Exchange = Exchange(response: Response, requests: seq<string>)

  const DEFAULT_QUERY: string := "KBO 하이라이트"
  const DEFAULT_MAX_RESULTS: string := "10"
  const DEFAULT_SORT: string := "relevance"
  const DEFAULT_COUNT: int := 10
  const SEARCH_CAP: int := 50
  const WEEK_MS: int := 7 * 24 * 60 * 60 * 1000
  const DISABLED_MESSAGE: string := "YouTube Data API v3가 활성화되지 않았습니다."
  const FAILED_MESSAGE: string := "YouTube 데이터를 가져오는데 실패했습니다."
  const WATCH_URL: string := "https://www.youtube.com/watch?v="
  const SEARCH_ENDPOINT: string := "https://www.googleapis.com/youtube/v3/search?"
  const VIDEOS_ENDPOINT: string := "https://www.googleapis.com/youtube/v3/videos?"

  /** `value || fallback` on an optional text: absent and "" both give the fallback. */
  function OrElse(o: Option<string>, fallback: string): (r: string)
    ensures o.Some? && o.value != "" ==> r == o.value
    ensures o.None? || o.value == "" ==> r == fallback
  {
    if o.Some? && o.value != "" then o.value else fallback
  }

  /** `parseInt(maxResults) || 10`: NaN and 0 are both replaced by 10; any other
      integer, negative ones included, is kept. */
  function RequestedCount(maxResults: string): (n: int)
    ensures n != 0
  {
    match ParseInt(maxResults)
    case NaN => DEFAULT_COUNT
    case Int(v) => if v != 0 then v else DEFAULT_COUNT
  }

  /** `Math.min(requestedCount * 3, 50)`: three times the request, capped at 50. */
  function SearchCount(requested: int): (n: int)
    ensures n <= SEARCH_CAP
    ensures n == SEARCH_CAP || n == 3 * requested
    ensures n <= 3 * requested
  {
    if requested * 3 < SEARCH_CAP then requested * 3 else SEARCH_CAP
  }

  /** The decimal text of a positive count is that count. */
  lemma RequestedCountOfDecimal(n: nat)
    requires n > 0
    ensures RequestedCount(Decimal(n)) == n
  {
    ParseIntDecimal(n, "");
    assert Decimal(n) + "" == Decimal(n);
  }

  /** Text without digits, "0" and the default "10" all give 10. */
  lemma RequestedCountDefaults()
    ensures RequestedCount("") == DEFAULT_COUNT
    ensures RequestedCount("abc") == DEFAULT_COUNT
    ensures RequestedCount("0") == DEFAULT_COUNT
    ensures RequestedCount(DEFAULT_MAX_RESULTS) == DEFAULT_COUNT
  {
    ParseIntNoDigits("");
    ParseIntNoDigits("abc");
    ParseIntDecimal(0, "");
    assert Decimal(0) + "" == "0";
    RequestedCountOfDecimal(10);
    assert Decimal(10) == DEFAULT_MAX_RESULTS by {
      assert Decimal(1) == "1";
    }
  }

  /** The over-fetch: up to 16 requested videos are searched three times over, from 17
      on the search asks for 50. */
  lemma SearchCountOverFetch(n: nat)
    requires n > 0
    ensures n <= 16 ==> SearchCount(RequestedCount(Decimal(n))) == 3 * n
    ensures n > 16 ==> SearchCount(RequestedCount(Decimal(n))) == SEARCH_CAP
  {
    RequestedCountOfDecimal(n);
  }

  /** The `publishedAfter` value: the text one year back when the parameter is absent or
      empty, nothing for "none", and the parameter itself otherwise. */
  function ResolvePublishedAfter(param: Option<string>, oneYearAgo: string): string {
    if param.Some? && param.value != "" then
      if param.value == "none" then "" else param.value
    else oneYearAgo
  }

  /** The search URL without the period filter. */
  function SearchBase(encodedQuery: string, searchCount: int, apiKey: string): string {
    SEARCH_ENDPOINT + "part=snippet&" + "q=" + encodedQuery + "&" + "type=video&"
      + "maxResults=" + IntToString(searchCount) + "&" + "order=relevance&" + "key=" + apiKey
  }

  /** The search URL: the base, then `&publishedAfter=` and the value when it is not empty. */
  function SearchUrl(encodedQuery: string, searchCount: int, apiKey: string, publishedAfter: string): string {
    SearchBase(encodedQuery, searchCount, apiKey)
      + (if publishedAfter != "" then "&publishedAfter=" + publishedAfter else "")
  }

  /** Builds the search URL as the handler does: a period variable that starts empty and
      is reassigned, a URL that the filter is appended to. */
  method BuildSearchUrl(encodedQuery: string, searchCount: int, apiKey: string,
                        publishedAfterParam: Option<string>, oneYearAgo: string)
    returns (apiUrl: string)
    ensures apiUrl == SearchUrl(encodedQuery, searchCount, apiKey,
                                ResolvePublishedAfter(publishedAfterParam, oneYearAgo))
  {
    var publishedAfter := "";
    if publishedAfterParam.Some? && publishedAfterParam.value != "" {
      if publishedAfterParam.value == "none" {
        publishedAfter := "";
      } else {
        publishedAfter := publishedAfterParam.value;
      }
    } else {
      publishedAfter := oneYearAgo;
    }
    apiUrl := SearchBase(encodedQuery, searchCount, apiKey);
    if publishedAfter != "" {
      apiUrl := apiUrl + ("&publishedAfter=" + publishedAfter);
    }
  }

  /** The three ways the period filter reaches the search URL. */
  lemma PublishedAfterInUrl(q: string, count: int, key: string, param: Option<string>, oneYearAgo: string)
    ensures var url := SearchUrl(q, count, key, ResolvePublishedAfter(param, oneYearAgo));
      && (param.None? || param.value == "" ==>
            url == SearchBase(q, count, key) + (if oneYearAgo != "" then "&publishedAfter=" + oneYearAgo else ""))
      && (param == Some("none") ==> url == SearchBase(q, count, key))
      && (param.Some? && param.value != "" && param.value != "none" ==>
            url == SearchBase(q, count, key) + "&publishedAfter=" + param.value)
  {
  }

  /** `ids.join(",")`, where a missing id is written as the empty text. */
  function JoinIds(items: seq<SearchItem>): string {
    if items == [] then ""
    else if |items| == 1 then items[0].videoId.GetOr("")
    else items[0].videoId.GetOr("") + "," + JoinIds(items[1..])
  }

  /** The URL of the details request for the searched videos. */
  function DetailUrl(items: seq<SearchItem>, apiKey: string): string {
    VIDEOS_ENDPOINT + "part=snippet,statistics,contentDetails&" + "id=" + JoinIds(items) + "&" + "key=" + apiKey
  }

  /** Whether a detail record is a short-form video. */
  predicate IsShortsItem(item: DetailItem) {
    IsShorts(item.title, item.description, item.duration)
  }

  /** `text.split("T")[0]`: the text before the first 'T', all of it when there is none. */
  function BeforeT(text: string): (r: string)
    ensures r <= text
    ensures 'T' !in r
    ensures |r| < |text| ==> text[|r|] == 'T'
  {
    if text == [] || text[0] == 'T' then "" else [text[0]] + BeforeT(text[1..])
  }

  /** A detail record as a highlight: the watch URL of its id, the medium or else the default
      thumbnail, the date part of its publication time, its parsed view count (0 when missing),
      "recent" when published less than seven days before now and "legend" otherwise, and the
      requested team code when one was given. */
  function ToHighlight(item: DetailItem, teamCode: Option<string>, env: Env): (h: Highlight)
    ensures h.id == item.id && h.videoUrl == WATCH_URL + item.id
    ensures h.date <= item.publishedAt && 'T' !in h.date
    ensures h.category != Favorite
    ensures h.category == Recent <==> env.now - env.dateMs(item.publishedAt) < WEEK_MS
    ensures h.teamCode.Some? <==> teamCode.Some? && teamCode.value != ""
    ensures h.teamCode.Some? ==> h.teamCode == teamCode
  {
    Highlight(
      id := item.id,
      title := item.title.GetOr(""),
      thumbnail := OrElse(item.thumbMedium, OrElse(item.thumbDefault, "")),
      videoUrl := WATCH_URL + item.id,
      date := BeforeT(item.publishedAt),
      views := ParseInt(OrElse(item.viewCount, "0")),
      category := if env.now - env.dateMs(item.publishedAt) < WEEK_MS then Recent else Legend,
      teamCode := if teamCode.Some? && teamCode.value != "" then teamCode else None)
  }

  /** A view count as a sort key: the number, with NaN ranked as 0. */
  function ViewsKey(views: Num): int {
    match views
    case NaN => 0
    case Int(v) => v
  }

  /** The sort key for "date" order. */
  function DateKey(env: Env): Highlight -> int {
    (h: Highlight) => env.dateMs(h.date)
  }

  /** The sort key for "relevance" order. */
  function ViewsSortKey(): Highlight -> int {
    (h: Highlight) => ViewsKey(h.views)
  }

  /** The highlights of the details that are not short-form videos, in upstream order. */
  function Highlights(details: seq<DetailItem>, teamCode: Option<string>, env: Env): seq<Highlight> {
    Map(Filter(details, item => !IsShortsItem(item)), item => ToHighlight(item, teamCode, env))
  }

  /** The list in the requested order: newest date first for "date", most viewed first for
      "relevance", unchanged for anything else. */
  function Ordered(hs: seq<Highlight>, sortOrder: string, env: Env): seq<Highlight> {
    if sortOrder == "date" then SortDesc(hs, DateKey(env))
    else if sortOrder == "relevance" then SortDesc(hs, ViewsSortKey())
    else hs
  }

  /** The returned list: the first `requestedCount` highlights in the requested order. */
  function Selected(details: seq<DetailItem>, p: Params, env: Env): seq<Highlight> {
    var requested := RequestedCount(OrElse(p.maxResults, DEFAULT_MAX_RESULTS));
    SliceTo(Ordered(Highlights(details, p.teamCode, env), OrElse(p.sortOrder, DEFAULT_SORT), env), requested)
  }

  /** An upstream reply read the way the handler reads it. */
  datatype Step<T> = Disabled | Failed | Items(items: Option<seq<T>>)

  /** A non-2xx status is a failure, 403 being told apart; a rejected fetch or a body that
      is not JSON is a failure. */
  function Receive<T>(reply: Reply<T>): (s: Step<T>)
    ensures s.Disabled? <==> reply.Reply? && reply.status == 403
    ensures s.Items? ==> reply.Reply? && 200 <= reply.status <= 299 && reply.body == Json(s.items)
  {
    match reply
    case NetworkError => Failed
    case Reply(status, body) =>
      if !(200 <= status <= 299) then (if status == 403 then Disabled else Failed)
      else match body
        case Unparsable => Failed
        case Json(items) => Items(items)
  }

  function DisabledResponse(): Response { Response([], true, Some(DISABLED_MESSAGE)) }
  function FailedResponse(): Response { Response([], true, Some(FAILED_MESSAGE)) }
  function EmptyResponse(): Response { Response([], false, None) }

  /** The search request the handler sends for these parameters. */
  function SearchRequest(p: Params, env: Env, apiKey: string): string {
    var requested := RequestedCount(OrElse(p.maxResults, DEFAULT_MAX_RESULTS));
    SearchUrl(env.encode(OrElse(p.query, DEFAULT_QUERY)), SearchCount(requested), apiKey,
              ResolvePublishedAfter(p.publishedAfter, env.oneYearAgo))
  }

  /** `GET`: the answer and the upstream requests, for given upstream behaviour. */
  function Get(p: Params, env: Env, apiKey: string,
               searchApi: string -> Reply<SearchItem>, videosApi: string -> Reply<DetailItem>): Exchange
  {
    var url := SearchRequest(p, env, apiKey);
    match Receive(searchApi(url))
    case Disabled => Exchange(DisabledResponse(), [url])
    case Failed => Exchange(FailedResponse(), [url])
    case Items(found) =>
      if found.None? || found.value == [] then Exchange(EmptyResponse(), [url])
      else
        var detailUrl := DetailUrl(found.value, apiKey);
        match Receive(videosApi(detailUrl))
        case Disabled => Exchange(DisabledResponse(), [url, detailUrl])
        case Failed => Exchange(FailedResponse(), [url, detailUrl])
        case Items(details) =>
          if details.None? then Exchange(FailedResponse(), [url, detailUrl])
          else Exchange(Response(Selected(details.value, p, env), false, None), [url, detailUrl])
  }

  /** The handler as it runs: the URL built by reassignment, the upstream replies classified,
      the highlights sorted in place in an array and then cut to the requested count. */
  method GetHighlights(p: Params, env: Env, apiKey: string,
                       searchApi: string -> Reply<SearchItem>, videosApi: string -> Reply<DetailItem>)
    returns (response: Response, requests: seq<string>)
    ensures Exchange(response, requests) == Get(p, env, apiKey, searchApi, videosApi)
  {
    var query := OrElse(p.query, DEFAULT_QUERY);
    var maxResults := OrElse(p.maxResults, DEFAULT_MAX_RESULTS);
    var sortOrder := OrElse(p.sortOrder, DEFAULT_SORT);
    var requestedCount := RequestedCount(maxResults);
    var searchCount := SearchCount(requestedCount);
    var apiUrl := BuildSearchUrl(env.encode(query), searchCount, apiKey, p.publishedAfter, env.oneYearAgo);
    assert apiUrl == SearchRequest(p, env, apiKey);
    requests := [apiUrl];
    var step := Receive(searchApi(apiUrl));
    if step.Disabled? {
      return DisabledResponse(), requests;
    } else if step.Failed? {
      return FailedResponse(), requests;
    }
    if step.items.None? || step.items.value == [] {
      return EmptyResponse(), requests;
    }
    var detailUrl := DetailUrl(step.items.value, apiKey);
    requests := requests + [detailUrl];
    var detailStep := Receive(videosApi(detailUrl));
    if detailStep.Disabled? {
      return DisabledResponse(), requests;
    } else if detailStep.Failed? || detailStep.items.None? {
      return FailedResponse(), requests;
    }
    var data := SelectHighlights(detailStep.items.value, p, env, sortOrder, requestedCount);
    response := Response(data, false, None);
  }

  /** The non-short highlights, sorted in place in an array as the order asks, then cut to
      the requested count. */
  method SelectHighlights(details: seq<DetailItem>, p: Params, env: Env, sortOrder: string, requestedCount: int)
    returns (data: seq<Highlight>)
    requires sortOrder == OrElse(p.sortOrder, DEFAULT_SORT)
    requires requestedCount == RequestedCount(OrElse(p.maxResults, DEFAULT_MAX_RESULTS))
    ensures data == Selected(details, p, env)
  {
    var highlights := Highlights(details, p.teamCode, env);
    var a := new Highlight[|highlights|](i requires 0 <= i < |highlights| => highlights[i]);
    assert a[..] == highlights;
    if sortOrder == "date" {
      SortInPlace(a, DateKey(env));
    } else if sortOrder == "relevance" {
      SortInPlace(a, ViewsSortKey());
    }
    data := SliceTo(a[..], requestedCount);
  }

  /** A failed or empty search never leads to the details request. */
  lemma SearchFailureStops(p: Params, env: Env, apiKey: string,
                           searchApi: string -> Reply<SearchItem>, videosApi: string -> Reply<DetailItem>)
    ensures var url := SearchRequest(p, env, apiKey);
      var r := searchApi(url);
      var x := Get(p, env, apiKey, searchApi, videosApi);
      && (r.Reply? && r.status == 403 ==> x == Exchange(Response([], true, Some(DISABLED_MESSAGE)), [url]))
      && ((r.NetworkError? || (r.Reply? && r.status != 403 && !(200 <= r.status <= 299)) || (r.Reply? && 200 <= r.status <= 299 && r.body.Unparsable?))
          ==> x == Exchange(Response([], true, Some(FAILED_MESSAGE)), [url]))
      && ((r.Reply? && 200 <= r.status <= 299 && (r.body == Json(None) || r.body == Json(Some([]))))
          ==> x == Exchange(Response([], false, None), [url]))
  {
  }

  /** Once the search found videos, a 403 from the details request is reported as the API
      being disabled, any other failure as the generic failure; the list is empty in both. */
  lemma DetailFailure(p: Params, env: Env, apiKey: string,
                      searchApi: string -> Reply<SearchItem>, videosApi: string -> Reply<DetailItem>,
                      found: seq<SearchItem>)
    requires var r := searchApi(SearchRequest(p, env, apiKey));
      r.Reply? && 200 <= r.status <= 299 && r.body == Json(Some(found)) && found != []
    ensures var r := videosApi(DetailUrl(found, apiKey));
      var x := Get(p, env, apiKey, searchApi, videosApi);
      && |x.requests| == 2
      && (r.Reply? && r.status == 403 ==> x.response == Response([], true, Some(DISABLED_MESSAGE)))
      && ((r.NetworkError? || (r.Reply? && r.status != 403 && !(200 <= r.status <= 299))
           || (r.Reply? && 200 <= r.status <= 299 && (r.body.Unparsable? || r.body == Json(None))))
          ==> x.response == Response([], true, Some(FAILED_MESSAGE)))
      && (x.response.error <==> !Receive(r).Items? || Receive(r).items.None?)
  {
  }

  /** Every returned highlight comes from a detail record that is not a short-form video. */
  lemma {:induction false} SelectedProvenance(details: seq<DetailItem>, p: Params, env: Env, h: Highlight)
    requires h in Selected(details, p, env)
    ensures exists item :: item in details && !IsShortsItem(item) && h == ToHighlight(item, p.teamCode, env)
  {
    var hs := Highlights(details, p.teamCode, env);
    var sortOrder := OrElse(p.sortOrder, DEFAULT_SORT);
    var ordered := Ordered(hs, sortOrder, env);
    assert h in ordered;
    if sortOrder == "date" {
      SortDescPermutes(hs, DateKey(env));
      assert h in multiset(ordered);
    } else if sortOrder == "relevance" {
      SortDescPermutes(hs, ViewsSortKey());
      assert h in multiset(ordered);
    }
    assert h in hs;
    var kept := Filter(details, item => !IsShortsItem(item));
    var i :| 0 <= i < |hs| && hs[i] == h;
    assert kept[i] in details && !IsShortsItem(kept[i]);
  }

  /** No short-form video is returned; every returned highlight is "recent" exactly when its
      video was published less than seven days ago and "legend" otherwise, carries the parsed
      view count, and carries the requested team code when one was given. */
  lemma SelectedItems(details: seq<DetailItem>, p: Params, env: Env, h: Highlight)
    requires h in Selected(details, p, env)
    ensures exists item ::
      && item in details && !IsShorts(item.title, item.description, item.duration)
      && h.id == item.id
      && h.views == ParseInt(OrElse(item.viewCount, "0"))
      && (h.category == Recent <==> env.now - env.dateMs(item.publishedAt) < WEEK_MS)
      && (h.category == Legend <==> env.now - env.dateMs(item.publishedAt) >= WEEK_MS)
    ensures h.teamCode == (if p.teamCode.Some? && p.teamCode.value != "" then p.teamCode else None)
  {
    SelectedProvenance(details, p, env, h);
  }

  /** A view count the platform reports as decimal text is the highlight's view count;
      a missing one counts 0. */
  lemma ViewsOfCount(item: DetailItem, teamCode: Option<string>, env: Env, n: nat)
    ensures item.viewCount == Some(Decimal(n)) ==> ToHighlight(item, teamCode, env).views == Int(n)
    ensures item.viewCount.None? ==> ToHighlight(item, teamCode, env).views == Int(0)
  {
    ParseIntDecimal(n, "");
    assert Decimal(n) + "" == Decimal(n);
    ParseIntDecimal(0, "");
    assert Decimal(0) + "" == "0";
  }

  /** The answer holds the requested number of highlights, or all of them when there are
      fewer; a negative count drops that many from the end. */
  lemma SelectedLength(details: seq<DetailItem>, p: Params, env: Env)
    ensures var n := RequestedCount(OrElse(p.maxResults, DEFAULT_MAX_RESULTS));
      var kept := Count(details, item => !IsShortsItem(item));
      var r := Selected(details, p, env);
      && (n > 0 ==> |r| == if n < kept then n else kept)
      && (n < 0 ==> |r| == if kept + n > 0 then kept + n else 0)
      && |r| <= kept
  {
    var hs := Highlights(details, p.teamCode, env);
    var sortOrder := OrElse(p.sortOrder, DEFAULT_SORT);
    assert |Ordered(hs, sortOrder, env)| == |hs|;
  }

  /** A prefix of a list in descending order is in descending order. */
  lemma PrefixSorted<T>(s: seq<T>, key: T -> int, n: int)
    requires SortedDesc(s, key)
    ensures SortedDesc(SliceTo(s, n), key)
  {
    var r := SliceTo(s, n);
    assert forall i :: 0 <= i < |r| ==> r[i] == s[i];
  }

  /** "date" returns the newest dates first, "relevance" (also when no order is given) the
      most viewed first, and any other order the upstream order, cut to the requested count. */
  lemma SelectedOrder(details: seq<DetailItem>, p: Params, env: Env)
    ensures var r := Selected(details, p, env);
      var sortOrder := OrElse(p.sortOrder, DEFAULT_SORT);
      && (sortOrder == "date" ==> forall i, j :: 0 <= i < j < |r| ==> env.dateMs(r[i].date) >= env.dateMs(r[j].date))
      && (sortOrder == "relevance" ==> forall i, j :: 0 <= i < j < |r| ==> ViewsKey(r[i].views) >= ViewsKey(r[j].views))
      && (sortOrder != "date" && sortOrder != "relevance" ==> r <= Highlights(details, p.teamCode, env))
  {
    var hs := Highlights(details, p.teamCode, env);
    var n := RequestedCount(OrElse(p.maxResults, DEFAULT_MAX_RESULTS));
    var sortOrder := OrElse(p.sortOrder, DEFAULT_SORT);
    if sortOrder == "date" {
      SortDescSorted(hs, DateKey(env));
      PrefixSorted(SortDesc(hs, DateKey(env)), DateKey(env), n);
    } else if sortOrder == "relevance" {
      SortDescSorted(hs, ViewsSortKey());
      PrefixSorted(SortDesc(hs, ViewsSortKey()), ViewsSortKey(), n);
    }
  }

  /** With no sort order given, the list is ordered by views. */
  lemma DefaultOrderIsRelevance(details: seq<DetailItem>, p: Params, env: Env)
    requires p.sortOrder.None?
    ensures Selected(details, p, env)
      == SliceTo(SortDesc(Highlights(details, p.teamCode, env), ViewsSortKey()),
                 RequestedCount(OrElse(p.maxResults, DEFAULT_MAX_RESULTS)))
  {
  }
}
