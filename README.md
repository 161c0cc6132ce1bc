# KBO fan site core, modelled in Dafny

This project models the logic of a KBO (Korean professional baseball) fan site. The site is
a Next.js application. Its logic covers:

- the highlight search route, which asks the YouTube Data API for videos, drops short-form
  videos ("shorts"), turns the rest into highlights, orders them and cuts the list to the
  requested size;
- the league-data loaders, which map the league web service's standings, leaderboards and
  schedule rows onto the application's records, fall back to built-in data when a request
  fails, and keep results in a five-minute cache;
- the highlights page filter (category tab, favourites, search text) and its favourite toggle;
- the schedule page team filter and its grouping of games by date;
- the shared team context: selected team, favourite teams and their browser storage;
- the team directory and its lookup by code;
- the status label and colour of a game card.

Every loader and the route take the outcome of their network requests, the clock and the
date parser as parameters. The result of each is a function of those parameters. The
properties are proved for all of them.

Modules, one per source file:

| file | module | models |
|---|---|---|
| common.dfy | Common | `undefined`-or-value, parseInt results (NaN or an integer), `includes`, ASCII `toLowerCase`, `filter`, `map`, `slice(0, end)` |
| numerals.dfy | Numerals | `Number.parseInt` (white space, sign, `0x` prefix, digit run, NaN), decimal text |
| types.dfy | Types | the records of `src/types/index.ts` |
| teams.dfy | Teams | `TEAMS`, `getTeamByCode` |
| youtube_duration.dfy | YoutubeDuration | `parseDuration` (ISO 8601:2004 section 4.4.3.2 durations, time part) and `isShorts` |
| highlight_sort.dfy | HighlightSort | the stable descending `Array.prototype.sort`, in place on an array |
| youtube_route.dfy | YoutubeRoute | `GET` of the highlight route |
| kbo_cache.dfy | KboCache | `getCachedData` and its cache map, as a class |
| kbo_data.dfy | KboData | the loaders of `src/lib/kbo-data.ts` and their cached variants |
| highlights_page.dfy | HighlightsPage | `filteredHighlights`, the category counts, `toggleFavorite` |
| schedule_page.dfy | SchedulePage | `filteredSchedule`, `groupedSchedule` |
| team_context.dfy | TeamContext | `TeamProvider`, as a class |
| game_card.dfy | GameCard | `getStatusText`, `getStatusColor` |

Where the code works by changing state step by step, the model is imperative too:

- the URL built by reassignment and `+=` (`YoutubeRoute.BuildSearchUrl`);
- the in-place sort (`HighlightSort.SortInPlace` on an `array`);
- the loop over the seasons (`KboData.CollectSeasons`);
- the `reduce` that fills the date buckets (`SchedulePage.GroupByDate`, with a `map`);
- the cache and the team context (classes whose methods update their fields).

Each of these methods is proved equal to a pure function. The properties are proved about
that function.

## Model

| member | source | states |
|---|---|---|
| Common.Filter | src/app/highlights/page.tsx:84-98 | `filter` keeps exactly the elements satisfying the predicate, each element of the result comes from the input, and input order is kept (the result is a subsequence), and every kept element keeps all its copies (multiset counts) |
| Common.FilterAppend | src/app/schedule/page.tsx:64-74 | filtering a concatenation is the concatenation of the filtered parts; appending a game only affects its own date's bucket |
| Common.Lower | src/app/highlights/page.tsx:94 | `toLowerCase` keeps the length, lower-cases each ASCII capital, and leaves no ASCII capital |
| Common.SliceTo | src/app/api/youtube/route.ts:193 | `slice(0, end)` is a prefix of length `min(end, len)` for `end >= 0`, and of length `max(len + end, 0)` for a negative end |
| Common.ContainsSuffix | src/app/api/youtube/route.ts:149-151 | whatever contains `x + sub` contains `sub`: a title containing "#shorts" contains "shorts" |
| Numerals.ParseIntToString | src/lib/kbo-data.ts:37-40 | `parseInt` reads back the decimal text of every integer, negative ones included; exact in the source only up to 2^53 in magnitude (see Left out) |
| Numerals.ParseIntDecimal | src/app/api/youtube/route.ts:57 | `parseInt` of a decimal digit run followed by a non-digit is that number |
| Numerals.ParseIntNegative | src/app/api/youtube/route.ts:57 | `parseInt` of "-" and a digit run is the negated number |
| Numerals.ParseIntSkipsSpace | src/app/api/youtube/route.ts:57 | leading white space does not change `parseInt` |
| Numerals.ParseIntNoDigits | src/app/api/youtube/route.ts:57 | text that starts with no digit, sign or white space parses to NaN |
| Teams.TeamsTable | src/constants/teams.ts:3-64 | ten teams, SSG first, codes pairwise distinct |
| Teams.GetTeamByCode | src/constants/teams.ts:66-68 | the lookup returns a directory team with that code, and returns nothing exactly when no team has the code |
| Teams.FindByCode | src/constants/teams.ts:66-68 | `find` returns the first team with the code, and nothing exactly when none has it |
| Teams.GetTeamByCodeUnique | src/constants/teams.ts:3-68 | since codes are distinct, looking up a team's code returns that very team |
| Teams.AllCodesPresent | src/constants/teams.ts:3-64 | each of the ten codes is present in the directory |
| YoutubeDuration.ParseDuration | src/app/api/youtube/route.ts:132-139 | text without "PT" has length 0 |
| YoutubeDuration.ParseFormatted | src/app/api/youtube/route.ts:132-139 | reading the text `PT[hH][mM][sS]` gives back `h*3600 + m*60 + s` |
| YoutubeDuration.ParseWritten | src/app/api/youtube/route.ts:132-137 | reading `PT`, then optional hours, minutes and seconds groups each written as any non-empty run of decimal digits (leading zeros and zero counts included), gives the hours count times 3600 plus the minutes count times 60 plus the seconds count; an absent group counts 0 |
| YoutubeDuration.ParseWithZeros | src/app/api/youtube/route.ts:132-137 | `PT0H1M05S` reads as 65 seconds |
| YoutubeDuration.ParseAfterPrefix | src/app/api/youtube/route.ts:132 | the pattern is unanchored: text before the leftmost "PT" (no "PT" starting in it, also not across its end) does not change the length read |
| YoutubeDuration.ReadGroupsSuffix | src/app/api/youtube/route.ts:132-137 | the groups read after "PT" depend only on the text from there on |
| YoutubeDuration.ShortsRule | src/app/api/youtube/route.ts:142-158 | a video is short iff its lower-cased title contains "shorts", or its description contains "#shorts", or it lasts 1 to 60 seconds |
| YoutubeDuration.MissingDurationNeverShort | src/app/api/youtube/route.ts:154-155 | a missing duration counts 0 seconds and never makes a video short by length |
| YoutubeDuration.SixtySecondsEdge | src/app/api/youtube/route.ts:155 | 60 seconds is short, 61 is not |
| YoutubeDuration.DescriptionNeedsHash | src/app/api/youtube/route.ts:147-151 | "Shorts" in a description alone does not make a video short; "#Shorts" there, or "SHORTS" in a title, does |
| HighlightSort.SortDescPermutes | src/app/api/youtube/route.ts:182-190 | sorting keeps the same elements, each as often (a permutation) |
| HighlightSort.SortDescSorted | src/app/api/youtube/route.ts:182-190 | the sorted list is in descending key order |
| HighlightSort.SortDescStable | src/app/api/youtube/route.ts:182-190 | elements with equal keys keep their original relative order (the runtime's sort is stable) |
| HighlightSort.SortDescOfSorted | src/app/api/youtube/route.ts:182-190 | an already descending list is left unchanged |
| HighlightSort.InsertInto | src/app/api/youtube/route.ts:184-189 | one insertion step on the array: the first i + 1 cells become the stable insertion of cell i into the first i cells, the rest is unchanged |
| HighlightSort.SortInPlace | src/app/api/youtube/route.ts:184-189 | the array ends up holding the stable descending sort of its old contents |
| YoutubeRoute.OrElse | src/app/api/youtube/route.ts:5-9 | `param \|\| default`: a missing or empty parameter gives the default, any other value is kept |
| YoutubeRoute.RequestedCount | src/app/api/youtube/route.ts:57 | `parseInt(maxResults) \|\| 10` is never 0 |
| YoutubeRoute.RequestedCountOfDecimal | src/app/api/youtube/route.ts:57 | a positive decimal count is taken as it is |
| YoutubeRoute.RequestedCountDefaults | src/app/api/youtube/route.ts:57 | an empty or non-numeric count, "0" and the default "10" all give 10 |
| YoutubeRoute.SearchCount | src/app/api/youtube/route.ts:58 | the search size is three times the request, capped at 50 |
| YoutubeRoute.SearchCountOverFetch | src/app/api/youtube/route.ts:57-58 | up to 16 requested videos are searched three times over; from 17 on, the search asks for 50 |
| YoutubeRoute.BuildSearchUrl | src/app/api/youtube/route.ts:40-73 | the URL the handler builds by reassignment equals the specified search URL for the resolved period |
| YoutubeRoute.PublishedAfterInUrl | src/app/api/youtube/route.ts:40-73 | the period filter is one year back when the parameter is absent or empty, absent for "none", and the parameter itself otherwise |
| YoutubeRoute.BeforeT | src/app/api/youtube/route.ts:174 | `split("T")[0]` is a prefix without 'T', ending where the first 'T' is |
| YoutubeRoute.ToHighlight | src/app/api/youtube/route.ts:163-179 | the highlight keeps the video id and its watch URL and the date part of the publication time; it is "recent" iff published less than 7 days ago, and never "favorite"; it carries the team code iff a non-empty one was given |
| YoutubeRoute.Receive | src/app/api/youtube/route.ts:75-96 | a reply is "disabled" iff its status is 403, and yields items only for a 2xx status with a JSON body |
| YoutubeRoute.GetHighlights | src/app/api/youtube/route.ts:3-205 | the handler's answer and upstream requests equal those of the specification `Get` |
| YoutubeRoute.SelectHighlights | src/app/api/youtube/route.ts:161-193 | sorting the highlights in place and slicing gives the specified selection |
| YoutubeRoute.SearchFailureStops | src/app/api/youtube/route.ts:77-100 | a search failure answers with the "disabled" message (403) or the generic failure (a rejected fetch, any other non-2xx status, or a body that is not JSON under any 2xx status), and an empty search with an empty list; no details request follows |
| YoutubeRoute.DetailFailure | src/app/api/youtube/route.ts:113-127 | after any 2xx search reply with items, a failed details request answers with the "disabled" message for 403 and the generic failure otherwise; the answer is an error exactly when the details were not read |
| YoutubeRoute.SelectedProvenance | src/app/api/youtube/route.ts:161-193 | every returned highlight is the highlight of a detail record that is not a short-form video |
| YoutubeRoute.SelectedItems | src/app/api/youtube/route.ts:161-179 | no returned highlight is a short; each is "recent" exactly when published less than 7 days ago and "legend" otherwise, carries the parsed view count and the requested team code |
| YoutubeRoute.ViewsOfCount | src/app/api/youtube/route.ts:175 | a decimal view count is read as that number; a missing one as 0 |
| YoutubeRoute.SelectedLength | src/app/api/youtube/route.ts:193 | the answer holds min(requested, available) highlights; a negative count drops that many from the end |
| YoutubeRoute.SelectedOrder | src/app/api/youtube/route.ts:181-193 | "date" returns the newest first, "relevance" the most viewed first, any other order the upstream order |
| YoutubeRoute.DefaultOrderIsRelevance | src/app/api/youtube/route.ts:187-190 | with no order given, the list is sorted by views |
| KboCache.Lookup | src/lib/kbo-data.ts:500-503 | an entry is served iff it exists and is less than five minutes old, and then its data is served |
| KboCache.FreshWindow | src/lib/kbo-data.ts:495-502 | an entry stored at t is served up to but not including t + 300000 ms |
| KboCache.LookupOtherKey | src/lib/kbo-data.ts:507 | storing under one key does not change what another key serves |
| KboCache.LookupAfterStore | src/lib/kbo-data.ts:506-507 | a value just stored is served until it expires |
| KboCache.Cache.GetCachedData | src/lib/kbo-data.ts:497-510 | a fresh entry is returned without running the producer; otherwise the producer runs once and its value is stored with the time; other keys are untouched |
| KboCache.ReadTwiceWithin | src/lib/kbo-data.ts:497-510 | two reads within five minutes run the producer once and return the same value |
| KboCache.ReadAfterExpiry | src/lib/kbo-data.ts:495-510 | a read exactly five minutes after storing runs the producer again |
| KboData.FindByName | src/lib/kbo-data.ts:32 | `find(t => t.name.includes(text))` returns the first team whose name contains the text, and nothing exactly when none does |
| KboData.TeamForName | src/lib/kbo-data.ts:32 | a row's team is a directory team whose name contains the row's team name, or the first team when none does |
| KboData.TeamForEmptyName | src/lib/kbo-data.ts:32 | an empty team name gives the first team |
| KboData.TeamForOwnName | src/lib/kbo-data.ts:32 | a row naming a team by its full name gets that team |
| KboData.GameBehind | src/lib/kbo-data.ts:42 | `parseFloat(gb) \|\| 0`: NaN gives 0, any non-zero value is kept |
| KboData.Rankings | src/lib/kbo-data.ts:31-44 | one ranking per row, in row order, the i-th ranked i + 1 |
| KboData.RankingsFromRows | src/lib/kbo-data.ts:31-44 | ranks run 1, 2, 3, … and increase along the list; each team is the one its row names; a missing games-behind reads 0 |
| KboData.CurrentSeasonRankings | src/lib/kbo-data.ts:9-152 | the mapped rows when the request succeeds, the ten built-in rows when it fails |
| KboData.CurrentSeasonRanks | src/lib/kbo-data.ts:31-152 | ranks are 1, 2, 3, … in order, for the built-in standings too |
| KboData.TopBattersAreFirstRows | src/lib/kbo-data.ts:176-189 | the batting leaderboard is the first ten rows (all of them when fewer), mapped in order |
| KboData.TopPitchersArePitchers | src/lib/kbo-data.ts:271-285 | the pitching leaderboard has at most ten players, all at position "P", the first rows mapped in order |
| KboData.Champion | src/lib/kbo-data.ts:383-394 | a season's champion is a directory team |
| KboData.Champions | src/lib/kbo-data.ts:383-394 | the champions of 2024 down to 2020 are KIA, LG, SSG, KT and NC |
| KboData.ChampionOtherYears | src/lib/kbo-data.ts:383-394 | any other year falls back to the first team |
| KboData.HistoricalRankings | src/lib/kbo-data.ts:346-407 | the history is never empty |
| KboData.CollectSeasons | src/lib/kbo-data.ts:348-400 | the loop over the years collects exactly the specified seasons |
| KboData.GetHistoricalRankings | src/lib/kbo-data.ts:346-407 | the loader returns the specified history |
| KboData.CollectedEntries | src/lib/kbo-data.ts:365-396 | every collected entry is the season of a requested year whose request succeeded, with that request's standings |
| KboData.CollectedDescending | src/lib/kbo-data.ts:348-400 | years requested newest first are collected newest first |
| KboData.CollectedHasYear | src/lib/kbo-data.ts:351-396 | every year whose request succeeded has its entry |
| KboData.CollectedEmpty | src/lib/kbo-data.ts:351-402 | nothing is collected exactly when every request failed |
| KboData.HistoricalShape | src/lib/kbo-data.ts:346-447 | the history is the built-in one when every request failed; otherwise it lists newest first exactly the successful seasons of 2024–2020, each with its standings and champion |
| KboData.StatusOf | src/lib/kbo-data.ts:482 | "finished" iff the service says "종료", "live" iff it says "경기중", "scheduled" otherwise |
| KboData.ScoreOf | src/lib/kbo-data.ts:483-484 | a missing or empty score is absent, any other is parsed |
| KboData.ScheduleData | src/lib/kbo-data.ts:450-491 | one game per row, in order, or no games when the request fails |
| KboData.ScheduleStatuses | src/lib/kbo-data.ts:471-486 | each game's status and scores follow its row |
| KboData.GetCachedCurrentSeasonRankings | src/lib/kbo-data.ts:513 | the standings come from the cache while fresh and from the loader otherwise. A hit leaves the cache and the producer log unchanged. A miss stores the loaded standings under the key with the second clock reading and logs one producer run. Each key keeps the kind of value its loader produces |
| KboData.StandingsReusedWithin | src/lib/kbo-data.ts:497-513 | two standings loads less than five minutes apart, the first one a miss: the league service is asked once, and the second load returns what the first stored |
| KboData.GetCachedTopBatters | src/lib/kbo-data.ts:515 | as above, for the batting leaderboard: the value served, and the new cache entries and producer log after a hit or a miss |
| KboData.GetCachedTopPitchers | src/lib/kbo-data.ts:517 | as above, for the pitching leaderboard: the value served, and the new cache entries and producer log after a hit or a miss |
| KboData.GetCachedHistoricalRankings | src/lib/kbo-data.ts:519 | as above, for the history: the value served, and the new cache entries and producer log after a hit or a miss |
| HighlightsPage.FilteredHighlights | src/app/highlights/page.tsx:84-98 | a highlight is shown iff it passes the tab's category check and the search check; list order is kept |
| HighlightsPage.AllTabShowsEverything | src/app/highlights/page.tsx:86-97 | the "all" tab with no search text shows every highlight in order |
| HighlightsPage.TabsShow | src/app/highlights/page.tsx:84-98 | the favourites tab shows exactly the favourite ids, the recent and legend tabs exactly their category, the "all" tab everything, each narrowed by the search |
| HighlightsPage.SearchIgnoresCase | src/app/highlights/page.tsx:93-95 | searching a query and its lower-cased form shows the same highlights |
| HighlightsPage.Categories | src/app/highlights/page.tsx:77-82 | four tabs in order; "all" counts every highlight, "favorite" counts the favourite ids |
| HighlightsPage.CategoryCountsMatchTabs | src/app/highlights/page.tsx:77-98 | the recent and legend counts equal the number of highlights their tab shows with an empty search |
| HighlightsPage.CountsAddUp | src/app/highlights/page.tsx:78-80 | with no highlight filed as a favourite, the recent and legend counts add up to the total |
| HighlightsPage.MockCountsAddUp | src/app/highlights/page.tsx:10-80 | an example of `CountsAddUp`: for the page's six highlights, the recent and legend counts add up to 6 |
| HighlightsPage.ToggleFavorite | src/app/highlights/page.tsx:100-102 | toggling flips whether the id is a favourite and no other id's; a new id goes at the end |
| HighlightsPage.ToggleKeepsOthers | src/app/highlights/page.tsx:100-102 | the other favourites keep their order |
| HighlightsPage.ToggleTwice | src/app/highlights/page.tsx:100-102 | adding a new favourite and toggling it again restores the list |
| SchedulePage.FilteredSchedule | src/app/schedule/page.tsx:56-62 | a game is kept iff the filter keeps it; schedule order is kept |
| SchedulePage.FilterAllKeepsSchedule | src/app/schedule/page.tsx:57 | "all" keeps the whole schedule |
| SchedulePage.FilterByTeam | src/app/schedule/page.tsx:58-61 | "my-team" keeps exactly the selected team's games, home or away; any other code keeps exactly that team's games |
| SchedulePage.MyTeamIsOwnCode | src/app/schedule/page.tsx:58-61 | "my-team" shows what choosing the selected team's code shows |
| SchedulePage.OnDate | src/app/schedule/page.tsx:64-74 | a date's bucket holds exactly the games of that date |
| SchedulePage.Dates | src/app/schedule/page.tsx:64-74 | the bucket keys are exactly the dates of the games |
| SchedulePage.DatesDistinct | src/app/schedule/page.tsx:67-69 | each date gets one key |
| SchedulePage.GroupByDate | src/app/schedule/page.tsx:64-74 | the `reduce` creates one key per date, in order of first appearance, and each key holds exactly its date's games, in order |
| SchedulePage.GroupsOfSnoc | src/app/schedule/page.tsx:67-70 | one more game is pushed onto the end of its date's bucket, the bucket being created when the date is new, and every other bucket is unchanged |
| SchedulePage.NoEmptyGroup | src/app/schedule/page.tsx:67-70 | no bucket is empty |
| SchedulePage.GroupsPartition | src/app/schedule/page.tsx:64-74 | the bucket sizes add up to the number of games, so each game is in exactly one bucket |
| TeamContext.WithoutCode | src/contexts/team-context.tsx:49 | removal keeps exactly the teams of other codes, in order, with every copy of a team that was added twice |
| TeamContext.WithoutCodeIdempotent | src/contexts/team-context.tsx:48-52 | removing a code twice removes nothing more |
| TeamContext.RemoveUndoesAdd | src/contexts/team-context.tsx:42-52 | removing a team's code right after adding the team leaves what removing the code alone would |
| TeamContext.RestoredTeam | src/contexts/team-context.tsx:26-29 | a saved code selects a team iff it is non-empty and some directory team has it, and then that team |
| TeamContext.TeamProvider.constructor | src/contexts/team-context.tsx:18-19 | initially the first team (SSG) is selected and there are no favourites |
| TeamContext.TeamProvider.LoadSaved | src/contexts/team-context.tsx:21-35 | a known saved code selects its team, an unknown one changes nothing; saved favourites replace the favourites |
| TeamContext.TeamProvider.SetSelectedTeam | src/contexts/team-context.tsx:37-40 | selects the team and saves exactly its code |
| TeamContext.TeamProvider.AddFavoriteTeam | src/contexts/team-context.tsx:42-46 | appends the team without deduplication and saves the list |
| TeamContext.TeamProvider.RemoveFavoriteTeam | src/contexts/team-context.tsx:48-52 | removes every team with the code, keeps the others in order, and saves the list |
| TeamContext.SelectionSurvivesReload | src/contexts/team-context.tsx:21-46 | a directory team selected and saved is selected again after a reload, and the favourites come back |
| TeamContext.UnknownCodeKeepsDefault | src/contexts/team-context.tsx:26-29 | a saved code outside the directory leaves the default selection |
| GameCard.StatusText | src/components/game-card.tsx:10-21 | scheduled, live and finished read "예정", "진행중", "종료"; any other status is shown unchanged |
| GameCard.StatusColor | src/components/game-card.tsx:23-34 | blue for scheduled, red for live, gray for finished and for anything else |
| GameCard.StatusesDistinguished | src/components/game-card.tsx:10-34 | the three statuses get three distinct labels and colours, and a label is never the raw status |
| GameCard.UnknownStatus | src/components/game-card.tsx:18-33 | a string that is no status is shown unchanged, in the colour of a finished game |
| GameCard.ScrapedStatusShown | src/lib/kbo-data.ts:482 | a scraped game reads "종료" iff the service said "종료", and "진행중" iff it said "경기중" |

## Left out

- Network access, `fetch`, `NextResponse` and the JSON encoding of answers. Each request's outcome is a parameter: the reply of each YouTube endpoint, and the league service's `Fetched` result.
- The API key. It is a parameter of the route; the missing-key branch answering status 500 cannot be taken in the source, because a non-empty default key is always there.
- `encodeURIComponent`, the clock and `new Date(...)` parsing. They are fields of `YoutubeRoute.Env`. Date parsing is a total function: an unparsable date (`NaN` milliseconds) is not modelled.
- The team-name table of the route, which the source declares but never uses.
- `parseFloat` and floating point. Games behind arrives as an optional real, `None` standing for NaN. The win rate (`wra`), batting average (`hra`) and ERA arrive as plain reals. The NaN that `parseFloat` passes through for an unreadable value of these three cannot be represented. The week test is done in exact millisecond arithmetic.
- YoutubeRoute.ViewsKey: a NaN view count sorts as 0. In the source the comparator then yields NaN, which the runtime treats as "equal", and the resulting order is implementation-defined.
- Numerals.ParseIntToString: JavaScript's `parseInt` returns a double, which is exact only up to 2^53 in magnitude. The model's integers are unbounded, so the read-back holds for every integer in the model but only up to 2^53 in the source. The same limit applies to every count and score the model parses.
- Unicode case mapping. `toLowerCase` is modelled on ASCII letters only; other characters are kept.
- Upstream records missing a field the handler dereferences. On each of these the source throws, and the handler answers with the generic failure. The model's records cannot be missing these fields:
  - a detail record without `snippet` or `snippet.thumbnails`;
  - a detail record without `statistics` (`stats.viewCount` throws). The model has no such record; a missing `viewCount` inside `statistics` reads as 0, as in the source;
  - a detail record without `snippet.publishedAt` (`split` throws);
  - a search item without `id` (`item.id.videoId` throws). A present `id` without `videoId` is modelled, and it is joined as the empty text.
  A missing title is carried as the empty text.
- Concurrency and promise interleaving. The cache's producer is a pure `() -> T`, and the two clock readings of `getCachedData` (before and after the producer) are separate parameters.
- `generateMockSchedule`, which depends on `Math.random`.
- The `find(...)!` lookups in the built-in standings, leaderboards and history. Those teams are written directly as directory entries (`TEAMS[k]`); `Teams.GetTeamByCodeUnique` shows that each lookup returns that entry.
- Browser storage and `JSON.parse`/`JSON.stringify`. Storage holds the saved code and the saved favourites list itself. A stored favourites text that is not valid JSON (the source throws) is not modelled.
- React state, hooks, rendering and the optional `Game` fields the loaders never set.
- Object key order of the date buckets. It is modelled by an explicit key-order list, because date keys are not array indices.
- The pure rendering components and pages outside the files listed in the table above.
