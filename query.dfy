/**
 * The query engine of the catalog grid (`getFilteredGames`): conjunctive
 * filters over the loaded games followed by a stable sort on one of four keys.
 */
module Query {
  import opened Wrappers
  import opened Seqs
  import opened Text
  import opened Model

  /**
   * The filter state. Date bounds are already-parsed time stamps, None when
   * the date input is empty; `minDownloads` is the parsed threshold, None
   * when the input is empty; `searchQuery` is trimmed and lower-cased by the
   * search handler; `sortBy` is the raw value of the sort selector.
   */
  datatype Filters = Filters(
    category: string,
    dateFrom: Option<int>,
    dateTo: Option<int>,
    minDownloads: Option<int>,
    sortBy: string,
    searchQuery: string)

  const INITIAL_FILTERS: Filters := Filters("All", None, None, None, "trending", "")

  // ---------------------------------------------------------------------
  // Filter predicates
  // ---------------------------------------------------------------------

  predicate CategoryOk(g: Game, f: Filters)
  {
    f.category != "All" ==> g.category == f.category
  }

  predicate FromOk(g: Game, f: Filters)
  {
    f.dateFrom.Some? ==> g.dateAdded.Some? && g.dateAdded.value >= f.dateFrom.value
  }

  predicate ToOk(g: Game, f: Filters)
  {
    f.dateTo.Some? ==> g.dateAdded.Some? && g.dateAdded.value <= f.dateTo.value
  }

  predicate DownloadsOk(g: Game, f: Filters)
  {
    f.minDownloads.Some? ==> g.downloads >= f.minDownloads.value
  }

  /** The query occurs in the lower-cased title, description or (non-empty) category. */
  predicate MatchesQuery(g: Game, q: string)
  {
    Contains(ToLower(g.title), q) || Contains(ToLower(g.description), q)
    || (g.category != "" && Contains(ToLower(g.category), q))
  }

  predicate SearchOk(g: Game, f: Filters)
  {
    f.searchQuery != "" ==> MatchesQuery(g, f.searchQuery)
  }

  /** A game is in the view when it passes every active filter. */
  predicate Matches(g: Game, f: Filters)
  {
    CategoryOk(g, f) && FromOk(g, f) && ToOk(g, f) && DownloadsOk(g, f) && SearchOk(g, f)
  }

  /** The games that pass the filters, in catalog order. */
  function Selected(games: seq<Game>, f: Filters): seq<Game>
  {
    Keep(games, g => Matches(g, f))
  }

  /**
   * Soundness and completeness of the filter: the selection is a
   * subsequence of the catalog and holds exactly the matching games.
   */
  lemma SelectedExactly(games: seq<Game>, f: Filters)
    ensures IsSubseq(Selected(games, f), games)
    ensures forall g :: g in Selected(games, f) <==> g in games && Matches(g, f)
  {
    KeepIsSubseq(games, g => Matches(g, f));
    KeepMembers(games, g => Matches(g, f));
    var sel := Selected(games, f);
    forall g | g in games && Matches(g, f) ensures g in sel {
      var i :| 0 <= i < |games| && games[i] == g;
    }
  }

  /** Selecting from a catalog one game longer: that game first, if it matches. */
  lemma SelectedCons(g: Game, rest: seq<Game>, f: Filters)
    ensures Selected([g] + rest, f) == (if Matches(g, f) then [g] else []) + Selected(rest, f)
  {
    assert ([g] + rest)[1..] == rest;
  }

  // ---------------------------------------------------------------------
  // Sort keys
  // ---------------------------------------------------------------------

  datatype SortOrder = ByDownloads | ByNewest | ByRating | ByTrending

  /** The `switch` on the sort selector: unknown values sort by trending. */
  function SortOrderOf(sortBy: string): (o: SortOrder)
    ensures o == ByTrending <==> sortBy != "downloads" && sortBy != "newest" && sortBy != "rating"
  {
    if sortBy == "downloads" then ByDownloads
    else if sortBy == "newest" then ByNewest
    else if sortBy == "rating" then ByRating
    else ByTrending
  }

  /** `new Date('2025-01-01')`: midnight UTC, in milliseconds. */
  const TRENDING_EPOCH: int := 1735689600000
  /** A year of 365 days, in milliseconds. */
  const MS_PER_YEAR: int := 1000 * 60 * 60 * 24 * 365

  /** `1 + (last_updated - 2025-01-01) / 365 days`: the recency multiplier. */
  function Growth(lastUpdated: int): (m: real)
    ensures m == 1.0 <==> lastUpdated == TRENDING_EPOCH
    ensures m > 1.0 <==> lastUpdated > TRENDING_EPOCH
    ensures m > 0.0 <==> lastUpdated > TRENDING_EPOCH - MS_PER_YEAR
  {
    1.0 + (lastUpdated - TRENDING_EPOCH) as real / MS_PER_YEAR as real
  }

  /** `downloads * (1 + (last_updated - 2025-01-01) / 365 days)`. */
  function TrendingScore(g: Game): (score: real)
    ensures g.downloads == 0 ==> score == 0.0
    ensures g.lastUpdated == TRENDING_EPOCH ==> score == g.downloads as real
    ensures g.downloads >= 0 && g.lastUpdated >= TRENDING_EPOCH ==> score >= g.downloads as real
  {
    MulAtLeast(g.downloads as real, Growth(g.lastUpdated));
    g.downloads as real * Growth(g.lastUpdated)
  }

  /** Of two games with the same positive downloads, the later update scores higher. */
  lemma TrendingFavoursRecent(a: Game, b: Game)
    requires a.downloads == b.downloads > 0
    requires a.lastUpdated > b.lastUpdated
    ensures TrendingScore(a) > TrendingScore(b)
  {
    var d, ga, gb := a.downloads as real, Growth(a.lastUpdated), Growth(b.lastUpdated);
    GrowthIncreasing(a.lastUpdated, b.lastUpdated);
    MulStrict(d, ga, gb);
    assert TrendingScore(a) == d * ga;
    assert TrendingScore(b) == d * gb;
  }

  /** The later the update, the larger the multiplier. */
  lemma GrowthIncreasing(u: int, v: int)
    requires u > v
    ensures Growth(u) > Growth(v)
  {
    var m := MS_PER_YEAR as real;
    var x, y := (u - TRENDING_EPOCH) as real, (v - TRENDING_EPOCH) as real;
    assert x / m - y / m == (x - y) / m;
    assert (x - y) / m > 0.0;
  }

  /** Of two games updated at the same time, with a positive multiplier, more downloads score higher. */
  lemma TrendingFavoursDownloads(a: Game, b: Game)
    requires a.lastUpdated == b.lastUpdated
    requires Growth(a.lastUpdated) > 0.0
    requires a.downloads > b.downloads
    ensures TrendingScore(a) > TrendingScore(b)
  {
    var g, da, db := Growth(a.lastUpdated), a.downloads as real, b.downloads as real;
    MulStrict(g, da, db);
    assert TrendingScore(a) == da * g;
    assert TrendingScore(b) == db * g;
  }

  lemma MulAtLeast(d: real, m: real)
    ensures d >= 0.0 && m >= 1.0 ==> d * m >= d
  {
    assert d * m - d == d * (m - 1.0);
  }

  lemma MulStrict(c: real, x: real, y: real)
    requires c > 0.0 && x > y
    ensures c * x > c * y && x * c > y * c
  {
    assert c * x - c * y == c * (x - y);
  }

  /**
   * The key each comparator sorts on, descending. A game whose date does not
   * parse is placed as if added at time 0 by the `newest` order.
   */
  function KeyFor(o: SortOrder): (key: Game -> real)
    ensures o == ByDownloads ==> forall a: Game, b: Game :: key(a) >= key(b) <==> a.downloads >= b.downloads
    ensures o == ByNewest ==> forall a: Game, b: Game :: a.dateAdded.Some? && b.dateAdded.Some? ==>
              (key(a) >= key(b) <==> a.dateAdded.value >= b.dateAdded.value)
    ensures o == ByNewest ==> forall a: Game, b: Game :: a.dateAdded.None? && b.dateAdded == Some(0) ==> key(a) == key(b)
    ensures o == ByRating ==> forall a: Game, b: Game :: key(a) >= key(b) <==> a.rating >= b.rating
    ensures o == ByTrending ==> forall a: Game :: key(a) == TrendingScore(a)
  {
    match o
    case ByDownloads => (g: Game) => g.downloads as real
    case ByNewest => (g: Game) => if g.dateAdded.Some? then g.dateAdded.value as real else 0.0
    case ByRating => (g: Game) => g.rating
    case ByTrending => TrendingScore
  }

  // ---------------------------------------------------------------------
  // getFilteredGames
  // ---------------------------------------------------------------------

  /** The predicates handed to `filter`, one per filter step. */
  function InCategory(c: string): Game -> bool { (g: Game) => g.category == c }
  function AddedFrom(t: int): Game -> bool { (g: Game) => g.dateAdded.Some? && g.dateAdded.value >= t }
  function AddedTo(t: int): Game -> bool { (g: Game) => g.dateAdded.Some? && g.dateAdded.value <= t }
  function AtLeast(n: int): Game -> bool { (g: Game) => g.downloads >= n }
  function Finds(q: string): Game -> bool { (g: Game) => MatchesQuery(g, q) }

  /** Whether filter step `n` (0 to 4, in source order) runs, and its predicate. */
  predicate StepActive(f: Filters, n: nat)
  {
    if n == 0 then f.category != "All"
    else if n == 1 then f.dateFrom.Some?
    else if n == 2 then f.dateTo.Some?
    else if n == 3 then f.minDownloads.Some?
    else f.searchQuery != ""
  }

  function StepTest(f: Filters, n: nat): Game -> bool
  {
    if n == 0 then InCategory(f.category)
    else if n == 1 then AddedFrom(if f.dateFrom.Some? then f.dateFrom.value else 0)
    else if n == 2 then AddedTo(if f.dateTo.Some? then f.dateTo.value else 0)
    else if n == 3 then AtLeast(if f.minDownloads.Some? then f.minDownloads.value else 0)
    else Finds(f.searchQuery)
  }

  /** The games passing the first `n` filter steps. */
  ghost predicate MatchesUpTo(g: Game, f: Filters, n: nat)
  {
    (n >= 1 ==> CategoryOk(g, f)) && (n >= 2 ==> FromOk(g, f)) && (n >= 3 ==> ToOk(g, f))
    && (n >= 4 ==> DownloadsOk(g, f)) && (n >= 5 ==> SearchOk(g, f))
  }

  ghost function UpTo(f: Filters, n: nat): Game -> bool { (g: Game) => MatchesUpTo(g, f, n) }

  /** One filter step of the source narrows the selection by one more predicate. */
  lemma Narrow(games: seq<Game>, prev: seq<Game>, f: Filters, n: nat)
    requires n < 5
    requires prev == Keep(games, UpTo(f, n))
    ensures (if StepActive(f, n) then Keep(prev, StepTest(f, n)) else prev) == Keep(games, UpTo(f, n + 1))
  {
    if StepActive(f, n) {
      KeepKeep(games, UpTo(f, n), StepTest(f, n), UpTo(f, n + 1));
    } else {
      KeepExt(games, UpTo(f, n), UpTo(f, n + 1));
    }
  }

  /** The selection after the first `n` filter steps of the source. */
  function Narrowed(games: seq<Game>, f: Filters, n: nat): seq<Game>
    requires n <= 5
  {
    if n == 0 then games
    else if StepActive(f, n - 1) then Keep(Narrowed(games, f, n - 1), StepTest(f, n - 1))
    else Narrowed(games, f, n - 1)
  }

  /** Applying the five filter steps in turn selects exactly the matching games. */
  lemma {:induction false} NarrowedSelects(games: seq<Game>, f: Filters, n: nat)
    requires n <= 5
    ensures Narrowed(games, f, n) == Keep(games, UpTo(f, n))
  {
    if n == 0 {
      KeepAll(games, UpTo(f, 0));
    } else {
      NarrowedSelects(games, f, n - 1);
      Narrow(games, Narrowed(games, f, n - 1), f, n - 1);
    }
  }

  /**
   * `getFilteredGames`: copies the catalog, narrows it by each active
   * filter in turn, then sorts it stably by the selected key, descending.
   */
  method GetFilteredGames(games: seq<Game>, f: Filters) returns (filtered: seq<Game>)
    ensures multiset(filtered) == multiset(Selected(games, f))
    ensures forall g :: g in filtered <==> g in games && Matches(g, f)
    ensures NonIncreasing(filtered, KeyFor(SortOrderOf(f.sortBy)))
    ensures forall k: real :: Keep(filtered, KeyIs(KeyFor(SortOrderOf(f.sortBy)), k))
                         == Keep(Selected(games, f), KeyIs(KeyFor(SortOrderOf(f.sortBy)), k))
    ensures filtered == SortDesc(Selected(games, f), KeyFor(SortOrderOf(f.sortBy)))
  {
    filtered := games;
    if f.category != "All" {
      filtered := Keep(filtered, InCategory(f.category));
    }
    assert filtered == Narrowed(games, f, 1);
    if f.dateFrom.Some? {
      filtered := Keep(filtered, AddedFrom(f.dateFrom.value));
    }
    assert filtered == Narrowed(games, f, 2);
    if f.dateTo.Some? {
      filtered := Keep(filtered, AddedTo(f.dateTo.value));
    }
    assert filtered == Narrowed(games, f, 3);
    if f.minDownloads.Some? {
      filtered := Keep(filtered, AtLeast(f.minDownloads.value));
    }
    assert filtered == Narrowed(games, f, 4);
    if f.searchQuery != "" {
      filtered := Keep(filtered, Finds(f.searchQuery));
    }
    assert filtered == Narrowed(games, f, 5);
    NarrowedSelects(games, f, 5);
    KeepExt(games, UpTo(f, 5), g => Matches(g, f));

    filtered := SortDesc(filtered, KeyFor(SortOrderOf(f.sortBy)));
    SortedSelection(games, f, KeyFor(SortOrderOf(f.sortBy)));
  }

  /** What the stable sort keeps of the selection. */
  lemma SortedSelection(games: seq<Game>, f: Filters, key: Game -> real)
    ensures multiset(SortDesc(Selected(games, f), key)) == multiset(Selected(games, f))
    ensures forall g :: g in SortDesc(Selected(games, f), key) <==> g in games && Matches(g, f)
    ensures NonIncreasing(SortDesc(Selected(games, f), key), key)
    ensures forall k: real :: Keep(SortDesc(Selected(games, f), key), KeyIs(key, k))
                         == Keep(Selected(games, f), KeyIs(key, k))
  {
    var selected := Selected(games, f);
    var sorted := SortDesc(selected, key);
    SortDescPermutes(selected, key);
    forall k: real ensures Keep(sorted, KeyIs(key, k)) == Keep(selected, KeyIs(key, k)) {
      SortDescStable(selected, key, k);
    }
    SelectedExactly(games, f);
    assert forall g :: g in sorted <==> g in multiset(sorted);
    assert forall g :: g in selected <==> g in multiset(selected);
  }

  // ---------------------------------------------------------------------
  // A worked example
  // ---------------------------------------------------------------------

  function SampleGame(id: string, downloads: int, category: string): Game
  {
    Game(id, id, "", category, downloads, Some(0), 0, 0.0, 0, [])
  }

  /**
   * Games A (100 downloads, RPG) and B (50 downloads, Obby): the RPG
   * category shows [A], and the full catalog by downloads is [A, B].
   */
  lemma TwoGameCatalog()
    ensures var a, b := SampleGame("A", 100, "RPG"), SampleGame("B", 50, "Obby");
            var byCategory := INITIAL_FILTERS.(category := "RPG");
            var byDownloads := INITIAL_FILTERS.(sortBy := "downloads");
            SortDesc(Selected([a, b], byCategory), KeyFor(SortOrderOf(byCategory.sortBy))) == [a]
            && SortDesc(Selected([a, b], byDownloads), KeyFor(SortOrderOf(byDownloads.sortBy))) == [a, b]
  {
    var a, b := SampleGame("A", 100, "RPG"), SampleGame("B", 50, "Obby");
    var byCategory := INITIAL_FILTERS.(category := "RPG");
    var byDownloads := INITIAL_FILTERS.(sortBy := "downloads");
    assert [a, b] == [a] + [b] && [b] == [b] + [];
    SelectedCons(a, [b], byCategory);
    SelectedCons(b, [], byCategory);
    assert Matches(a, byCategory) && !Matches(b, byCategory);
    SelectedCons(a, [b], byDownloads);
    SelectedCons(b, [], byDownloads);
    assert Matches(a, byDownloads) && Matches(b, byDownloads);
    var key := KeyFor(ByDownloads);
    assert [a, b][..1] == [a] && [a][..0] == [];
    assert SortDesc([a], key) == [a];
    assert InsertDesc(b, [a], key) == [a, b];
  }
}
