/** The highlights page (src/app/highlights/page.tsx): which highlights are shown for the
    active category tab, the favourite ids and the search text; the tab counts; and toggling
    a highlight's id in and out of the favourites. */
module HighlightsPage {
  import opened Common
  import opened Types

  /** The category tabs: everything, the two highlight categories, and the favourites. */
  datatype ActiveCategory = AllTab | RecentTab | LegendTab | FavoriteTab

  /** The six highlights the page lists. */
  const MOCK_HIGHLIGHTS: seq<Highlight> := [
    Highlight("1", "SSG 랜더스 9회말 극적인 역전승! 최정 결승 홈런", "/placeholder.svg?height=180&width=320",
              "https://youtube.com/watch?v=example1", "2025-01-08", Int(125000), Recent, Some("SSG")),
    Highlight("2", "이승엽 레전드 홈런 모음집 - KBO 역사상 최고의 순간들", "/placeholder.svg?height=180&width=320",
              "https://youtube.com/watch?v=example2", "2025-01-07", Int(289000), Legend, None),
    Highlight("3", "SSG vs LG 하이라이트 - 박병호 3타점 맹활약", "/placeholder.svg?height=180&width=320",
              "https://youtube.com/watch?v=example3", "2025-01-06", Int(67000), Recent, Some("SSG")),
    Highlight("4", "한국시리즈 명장면 - 감동의 순간들", "/placeholder.svg?height=180&width=320",
              "https://youtube.com/watch?v=example4", "2025-01-05", Int(234000), Legend, None),
    Highlight("5", "KIA 타이거즈 완벽한 더블플레이 모음", "/placeholder.svg?height=180&width=320",
              "https://youtube.com/watch?v=example5", "2025-01-04", Int(45000), Recent, Some("KIA")),
    Highlight("6", "LG 트윈스 역대 최고의 순간들", "/placeholder.svg?height=180&width=320",
              "https://youtube.com/watch?v=example6", "2025-01-03", Int(156000), Legend, Some("LG"))
  ]

  /** The category check: the favourites tab keeps the favourite ids, the recent and legend
      tabs keep their own category, the "all" tab keeps everything. */
  predicate InCategory(h: Highlight, active: ActiveCategory, favorites: seq<string>) {
    match active
    case FavoriteTab => h.id in favorites
    case RecentTab => h.category == Recent
    case LegendTab => h.category == Legend
    case AllTab => true
  }

  /** The search check: an empty query keeps everything, a non-empty one keeps the titles
      that contain it, ignoring case. */
  predicate MatchesQuery(h: Highlight, query: string) {
    query == "" || Contains(Lower(h.title), Lower(query))
  }

  /** `filteredHighlights`: the highlights passing both checks, in list order. */
  function FilteredHighlights(highlights: seq<Highlight>, active: ActiveCategory,
                              favorites: seq<string>, query: string): (r: seq<Highlight>)
    ensures IsSubsequence(r, highlights)
    ensures forall h :: h in r <==>
      h in highlights && InCategory(h, active, favorites) && MatchesQuery(h, query)
  {
    Filter(highlights, (h: Highlight) => InCategory(h, active, favorites) && MatchesQuery(h, query))
  }

  /** The "all" tab with no search text shows every highlight, in list order. */
  lemma AllTabShowsEverything(highlights: seq<Highlight>, favorites: seq<string>)
    ensures FilteredHighlights(highlights, AllTab, favorites, "") == highlights
  {
    FilterAll(highlights, (h: Highlight) => InCategory(h, AllTab, favorites) && MatchesQuery(h, ""));
  }

  /** What each tab shows, with the search applied on top. */
  lemma TabsShow(highlights: seq<Highlight>, favorites: seq<string>, query: string, h: Highlight)
    ensures h in FilteredHighlights(highlights, FavoriteTab, favorites, query) <==>
      h in highlights && h.id in favorites && MatchesQuery(h, query)
    ensures h in FilteredHighlights(highlights, RecentTab, favorites, query) <==>
      h in highlights && h.category == Recent && MatchesQuery(h, query)
    ensures h in FilteredHighlights(highlights, LegendTab, favorites, query) <==>
      h in highlights && h.category == Legend && MatchesQuery(h, query)
    ensures h in FilteredHighlights(highlights, AllTab, favorites, query) <==>
      h in highlights && MatchesQuery(h, query)
  {
  }

  /** The search ignores the case of the query: searching "kia" and "KIA" show the same. */
  lemma SearchIgnoresCase(highlights: seq<Highlight>, active: ActiveCategory, favorites: seq<string>,
                          query: string)
    ensures FilteredHighlights(highlights, active, favorites, Lower(query))
         == FilteredHighlights(highlights, active, favorites, query)
  {
    LowerIdempotent(query);
    FilterAgree(highlights,
      (h: Highlight) => InCategory(h, active, favorites) && MatchesQuery(h, Lower(query)),
      (h: Highlight) => InCategory(h, active, favorites) && MatchesQuery(h, query));
  }

  /** One tab with its count. */
  datatype CategoryTab = CategoryTab(key: ActiveCategory, caption: string, count: nat)

  /** The number of highlights filed under category c. */
  function CountIn(highlights: seq<Highlight>, c: HighlightCategory): nat {
    Count(highlights, (h: Highlight) => h.category == c)
  }

  /** `categories`: the four tabs with their labels and counts, in display order. */
  function Categories(highlights: seq<Highlight>, favorites: seq<string>): (r: seq<CategoryTab>)
    ensures |r| == 4
    ensures r[0].key == AllTab && r[0].count == |highlights|
    ensures r[1].key == RecentTab && r[2].key == LegendTab
    ensures r[3].key == FavoriteTab && r[3].count == |favorites|
  {
    [ CategoryTab(AllTab, "전체", |highlights|),
      CategoryTab(RecentTab, "최신", CountIn(highlights, Recent)),
      CategoryTab(LegendTab, "레전드", CountIn(highlights, Legend)),
      CategoryTab(FavoriteTab, "즐겨찾기", |favorites|) ]
  }

  /** The recent and legend counts are the number of highlights their tab shows while the
      search box is empty. */
  lemma CategoryCountsMatchTabs(highlights: seq<Highlight>, favorites: seq<string>)
    ensures Categories(highlights, favorites)[1].count == |FilteredHighlights(highlights, RecentTab, favorites, "")|
    ensures Categories(highlights, favorites)[2].count == |FilteredHighlights(highlights, LegendTab, favorites, "")|
  {
    FilterAgree(highlights,
      (h: Highlight) => h.category == Recent,
      (h: Highlight) => InCategory(h, RecentTab, favorites) && MatchesQuery(h, ""));
    FilterAgree(highlights,
      (h: Highlight) => h.category == Legend,
      (h: Highlight) => InCategory(h, LegendTab, favorites) && MatchesQuery(h, ""));
  }

  /** With no highlight filed as a favourite, the recent and legend counts add up to the
      "all" count. */
  lemma {:induction false} CountsAddUp(highlights: seq<Highlight>)
    requires forall i :: 0 <= i < |highlights| ==> highlights[i].category != Favorite
    ensures CountIn(highlights, Recent) + CountIn(highlights, Legend) == |highlights|
    decreases |highlights|
  {
    if highlights != [] {
      CountsAddUp(highlights[1..]);
    }
  }

  /** An example of `CountsAddUp` on the page's own list: the recent and legend tabs
      together count all six highlights. */
  lemma MockCountsAddUp()
    ensures CountIn(MOCK_HIGHLIGHTS, Recent) + CountIn(MOCK_HIGHLIGHTS, Legend) == 6
  {
    CountsAddUp(MOCK_HIGHLIGHTS);
  }

  /** `toggleFavorite`: a favourite id is removed, every copy of it; any other id is added
      at the end. */
  function ToggleFavorite(prev: seq<string>, id: string): (r: seq<string>)
    ensures id in r <==> id !in prev
    ensures forall x :: x != id ==> (x in r <==> x in prev)
    ensures id !in prev ==> |r| == |prev| + 1 && r[|prev|] == id
  {
    if id in prev then Filter(prev, (fav: string) => fav != id) else prev + [id]
  }

  /** Toggling keeps the other favourites in their order. */
  lemma ToggleKeepsOthers(prev: seq<string>, id: string)
    ensures Filter(ToggleFavorite(prev, id), (x: string) => x != id) == Filter(prev, (x: string) => x != id)
  {
    var other := (x: string) => x != id;
    if id in prev {
      FilterAll(Filter(prev, other), other);
      FilterAgree(prev, (fav: string) => fav != id, other);
    } else {
      FilterAppend(prev, [id], other);
      assert Filter([id], other) == [];
    }
  }

  /** Adding a new favourite and toggling it again restores the list. */
  lemma ToggleTwice(prev: seq<string>, id: string)
    requires id !in prev
    ensures ToggleFavorite(ToggleFavorite(prev, id), id) == prev
  {
    var other := (x: string) => x != id;
    FilterAppend(prev, [id], other);
    assert Filter([id], other) == [];
    FilterAll(prev, other);
  }
}
