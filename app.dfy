/**
 * The page state of the catalog front end (`state` and the handlers that
 * update it), with the key-value store held as a map. Each handler is one
 * atomic step; the form values read from the page, the random author
 * number and the clocks are parameters.
 */
module App {
  import opened Wrappers
  import opened Seqs
  import opened Text
  import opened Model
  import opened Storage
  import opened Query
  import opened View
  import opened Feedback
  import opened Loading

  function HasId(id: string): Game -> bool { (g: Game) => g.id == id }

  /** The ids of a row of game cards, in order. */
  function IdsOf(cards: seq<Game>): (ids: seq<string>)
    ensures |ids| == |cards|
    ensures forall i :: 0 <= i < |cards| ==> ids[i] == cards[i].id
  {
    seq(|cards|, i requires 0 <= i < |cards| => cards[i].id)
  }

  class Site {
    var games: seq<Game>
    var currentPage: int
    var currentSection: string
    var filters: Filters
    var keyboardIndex: int
    var recentlyViewed: seq<string>
    /** The game whose detail modal is open, if any. */
    var openGame: Option<string>
    /** The shared key-value store behind `getFromStorage` and `setToStorage`. */
    var store: Store
    /**
     * The pagination controls as `renderPagination` last drew them; only the
     * handlers that call `renderGames` redraw them.
     */
    var pager: Pager
    /**
     * The ids of the cards in `#games-grid` as `renderGames` last drew them,
     * which are the cards the keyboard handler moves over.
     */
    var grid: seq<string>

    /** The keyboard selection is one of the cards in the grid, or -1 for none. */
    ghost predicate Valid()
      reads this
    {
      -1 <= keyboardIndex < |grid|
    }

    /** The cards `renderGames` draws: the current page of the filtered, sorted view. */
    ghost function ShownPage(): seq<Game>
      reads this
    {
      PageItems(SortDesc(Selected(games, filters), KeyFor(SortOrderOf(filters.sortBy))), currentPage)
    }

    /** The initial `state`, before any game has loaded or anything is drawn. */
    constructor (st: Store)
      ensures Valid()
      ensures games == [] && currentPage == 1 && currentSection == "home"
      ensures filters == INITIAL_FILTERS && keyboardIndex == -1
      ensures recentlyViewed == [] && openGame == None && store == st && pager == Hidden && grid == []
    {
      games := [];
      currentPage := 1;
      currentSection := "home";
      filters := INITIAL_FILTERS;
      keyboardIndex := -1;
      recentlyViewed := [];
      openGame := None;
      store := st;
      pager := Hidden;
      grid := [];
    }

    // -------------------------------------------------------------------
    // Loading
    // -------------------------------------------------------------------

    /**
     * The end of `fetchGames`: None when the index itself could not be
     * fetched (the catalog is then empty and nothing is redrawn), otherwise
     * one entry per listed document, None for a document that failed, and
     * the grid is redrawn (`renderAllSections`). Loading ends before the
     * keyboard handler is installed, so no card is selected.
     */
    method FinishLoad(results: Option<seq<Option<RawGame>>>)
      requires Valid() && keyboardIndex == -1
      modifies this
      ensures Valid()
      ensures games == if results.None? then [] else Loaded(results.value, store)
      ensures pager == if results.None? then old(pager) else PagerFor(|Selected(games, filters)|, currentPage)
      ensures grid == if results.None? then old(grid) else IdsOf(ShownPage())
      ensures currentPage == old(currentPage) && currentSection == old(currentSection)
      ensures filters == old(filters) && keyboardIndex == old(keyboardIndex)
      ensures recentlyViewed == old(recentlyViewed) && openGame == old(openGame) && store == old(store)
    {
      match results
      case None =>
        games := [];
      case Some(rs) =>
        games := Loaded(rs, store);
        var _ := RenderGames();
    }

    /** `loadRecentlyViewed`. */
    method LoadRecentlyViewed()
      requires Valid()
      modifies this
      ensures Valid()
      ensures recentlyViewed == IdsAt(store, RECENT_KEY)
      ensures games == old(games) && currentPage == old(currentPage) && currentSection == old(currentSection)
      ensures filters == old(filters) && keyboardIndex == old(keyboardIndex)
      ensures openGame == old(openGame) && store == old(store) && pager == old(pager) && grid == old(grid)
    {
      recentlyViewed := IdsAt(store, RECENT_KEY);
    }

    // -------------------------------------------------------------------
    // Navigation, filters and pages
    // -------------------------------------------------------------------

    /** `resetPagination`. */
    method ResetPagination()
      requires Valid()
      modifies this
      ensures Valid()
      ensures currentPage == 1 && keyboardIndex == -1
      ensures games == old(games) && currentSection == old(currentSection) && filters == old(filters)
      ensures recentlyViewed == old(recentlyViewed) && openGame == old(openGame) && store == old(store)
      ensures pager == old(pager) && grid == old(grid)
    {
      currentPage := 1;
      keyboardIndex := -1;
    }

    /**
     * A navigation link: `activateSection` followed by `resetPagination`,
     * with no `renderGames`, so the pagination controls drawn for the old
     * page stay on screen.
     */
    method Navigate(section: string)
      requires Valid()
      modifies this
      ensures Valid()
      ensures currentSection == section && currentPage == 1 && keyboardIndex == -1
      ensures games == old(games) && filters == old(filters) && pager == old(pager) && grid == old(grid)
      ensures recentlyViewed == old(recentlyViewed) && openGame == old(openGame) && store == old(store)
    {
      currentSection := section;
      ResetPagination();
    }

    /** `filterByCategory`. */
    method FilterByCategory(category: string)
      requires Valid()
      modifies this
      ensures Valid()
      ensures filters == old(filters).(category := category)
      ensures currentPage == 1 && keyboardIndex == -1
      ensures pager == PagerFor(|Selected(games, filters)|, 1) && grid == IdsOf(ShownPage())
      ensures games == old(games) && currentSection == old(currentSection)
      ensures recentlyViewed == old(recentlyViewed) && openGame == old(openGame) && store == old(store)
    {
      filters := filters.(category := category);
      ResetPagination();
      var _ := RenderGames();
    }

    /** `applyFilters`, given the values of the date, downloads and sort inputs. */
    method ApplyFilters(dateFrom: Option<int>, dateTo: Option<int>, minDownloads: Option<int>, sortBy: string)
      requires Valid()
      modifies this
      ensures Valid()
      ensures filters == old(filters).(dateFrom := dateFrom, dateTo := dateTo, minDownloads := minDownloads, sortBy := sortBy)
      ensures currentPage == 1 && keyboardIndex == -1
      ensures pager == PagerFor(|Selected(games, filters)|, 1) && grid == IdsOf(ShownPage())
      ensures games == old(games) && currentSection == old(currentSection)
      ensures recentlyViewed == old(recentlyViewed) && openGame == old(openGame) && store == old(store)
    {
      filters := filters.(dateFrom := dateFrom, dateTo := dateTo, minDownloads := minDownloads, sortBy := sortBy);
      ResetPagination();
      var _ := RenderGames();
    }

    /**
     * `performSearch`, given the search box's text: a blank query changes
     * nothing (so a search, once made, is never cleared this way); any other
     * becomes the trimmed, lower-cased search term and the grid restarts at
     * page 1.
     */
    method PerformSearch(raw: string)
      requires Valid()
      modifies this
      ensures Valid()
      ensures AllSpace(raw) ==> unchanged(this)
      ensures !AllSpace(raw) ==> filters == old(filters).(searchQuery := ToLower(Trim(raw)))
      ensures !AllSpace(raw) ==> currentPage == 1 && keyboardIndex == -1
      ensures !AllSpace(raw) ==> pager == PagerFor(|Selected(games, filters)|, 1) && grid == IdsOf(ShownPage())
      ensures games == old(games) && currentSection == old(currentSection)
      ensures recentlyViewed == old(recentlyViewed) && openGame == old(openGame) && store == old(store)
    {
      var query := ToLower(Trim(raw));
      if query == [] {
        return;
      }
      filters := filters.(searchQuery := query);
      ResetPagination();
      var _ := RenderGames();
    }

    /**
     * `changePage`: moves by `direction` pages, unchecked, clears the
     * keyboard selection and redraws the grid.
     */
    method ChangePage(direction: int)
      requires Valid()
      modifies this
      ensures Valid()
      ensures currentPage == old(currentPage) + direction && keyboardIndex == -1
      ensures pager == PagerFor(|Selected(games, filters)|, currentPage) && grid == IdsOf(ShownPage())
      ensures games == old(games) && currentSection == old(currentSection) && filters == old(filters)
      ensures recentlyViewed == old(recentlyViewed) && openGame == old(openGame) && store == old(store)
    {
      currentPage := currentPage + direction;
      keyboardIndex := -1;
      var _ := RenderGames();
    }

    /**
     * A click on Previous (-1) or Next (1) of the controls on screen: a
     * hidden or disabled button does nothing, an enabled one is
     * `changePage(direction)`. While the controls on screen are the ones
     * drawn for the current page, the page stays within 1 and the page count.
     */
    method ClickPager(direction: int)
      requires Valid()
      modifies this
      ensures Valid()
      ensures currentPage == if Clickable(old(pager), direction) then old(currentPage) + direction else old(currentPage)
      ensures keyboardIndex == if Clickable(old(pager), direction) then -1 else old(keyboardIndex)
      ensures pager == if Clickable(old(pager), direction) then PagerFor(|Selected(games, filters)|, currentPage) else old(pager)
      ensures grid == if Clickable(old(pager), direction) then IdsOf(ShownPage()) else old(grid)
      ensures old(pager) == PagerFor(|Selected(games, filters)|, old(currentPage))
              && 1 <= old(currentPage) <= TotalPages(|Selected(games, filters)|) ==>
                1 <= currentPage <= TotalPages(|Selected(games, filters)|)
      ensures games == old(games) && currentSection == old(currentSection) && filters == old(filters)
      ensures recentlyViewed == old(recentlyViewed) && openGame == old(openGame) && store == old(store)
    {
      if Clickable(pager, direction) {
        if pager == PagerFor(|Selected(games, filters)|, currentPage) && 1 <= currentPage <= TotalPages(|Selected(games, filters)|) {
          ClickKeepsPageInRange(|Selected(games, filters)|, currentPage, direction);
        }
        ChangePage(direction);
      }
    }

    /**
     * A navigation link followed by a click on Previous: the Previous button
     * drawn for page 2 is still enabled after the link reset the page to 1,
     * so the grid moves to page 0, which is empty, and redraws controls whose
     * Previous is enabled again.
     */
    method NavigateThenPrevious(section: string)
      requires Valid()
      requires currentPage == 2 && pager == PagerFor(|Selected(games, filters)|, 2)
      requires |Selected(games, filters)| > PAGE_SIZE
      modifies this
      ensures Valid()
      ensures currentSection == section && currentPage == 0
      ensures PageItems(SortDesc(Selected(games, filters), KeyFor(SortOrderOf(filters.sortBy))), currentPage) == []
      ensures pager == Controls(false, 0, TotalPages(|Selected(games, filters)|), false)
    {
      Navigate(section);
      ClickPager(-1);
    }

    /**
     * `renderGames`: the cards of the current page of the filtered, sorted
     * view, and the pagination controls it draws. An empty `cards` is the
     * empty state. Every handler that redraws the grid has just cleared the
     * keyboard selection.
     */
    method RenderGames() returns (cards: seq<Game>)
      requires Valid() && keyboardIndex == -1
      modifies this
      ensures Valid()
      ensures forall i :: 0 <= i < |cards| ==> cards[i] in games && Matches(cards[i], filters)
      ensures |cards| <= PAGE_SIZE
      ensures cards == PageItems(SortDesc(Selected(games, filters), KeyFor(SortOrderOf(filters.sortBy))), currentPage)
      ensures pager == PagerFor(|Selected(games, filters)|, currentPage) && grid == IdsOf(cards)
      ensures games == old(games) && currentPage == old(currentPage) && currentSection == old(currentSection)
      ensures filters == old(filters) && keyboardIndex == old(keyboardIndex)
      ensures recentlyViewed == old(recentlyViewed) && openGame == old(openGame) && store == old(store)
    {
      var drawn;
      cards, drawn := DrawPage();
      pager := drawn;
      grid := IdsOf(cards);
    }

    /** What `renderGames` draws for the current state: the page's cards and the controls. */
    method DrawPage() returns (cards: seq<Game>, drawn: Pager)
      ensures forall i :: 0 <= i < |cards| ==> cards[i] in games && Matches(cards[i], filters)
      ensures |cards| <= PAGE_SIZE
      ensures cards == PageItems(SortDesc(Selected(games, filters), KeyFor(SortOrderOf(filters.sortBy))), currentPage)
      ensures drawn == PagerFor(|Selected(games, filters)|, currentPage)
    {
      var filtered := GetFilteredGames(games, filters);
      assert |filtered| == |Selected(games, filters)| by {
        assert |multiset(filtered)| == |multiset(Selected(games, filters))|;
      }
      cards := PageItems(filtered, currentPage);
      drawn := PagerFor(|filtered|, currentPage);
    }

    // -------------------------------------------------------------------
    // Keyboard and modal
    // -------------------------------------------------------------------

    /** Closing the detail modal. */
    method CloseModals()
      requires Valid()
      modifies this
      ensures Valid()
      ensures openGame == None
      ensures games == old(games) && currentPage == old(currentPage) && currentSection == old(currentSection)
      ensures filters == old(filters) && keyboardIndex == old(keyboardIndex)
      ensures recentlyViewed == old(recentlyViewed) && store == old(store) && pager == old(pager) && grid == old(grid)
    {
      openGame := None;
    }

    /**
     * The `keydown` handler, given the key, over the cards in the grid. With
     * a modal open only Escape acts (it closes it); with no card nothing
     * happens; the arrows move the selection, clamped to the cards; Enter on
     * a selected card opens that card's game as a click on it does.
     */
    method HandleKey(key: string)
      requires Valid()
      modifies this
      ensures Valid()
      ensures old(openGame).Some? ==> openGame == (if key == "Escape" then None else old(openGame))
      ensures old(openGame).None? && (grid == [] || (key != "ArrowRight" && key != "ArrowLeft" && key != "Enter"))
              ==> unchanged(this)
      ensures old(openGame).None? && grid != [] && key == "ArrowRight" ==>
                keyboardIndex == NextCard(old(keyboardIndex), |grid|) && 0 <= keyboardIndex <= |grid| - 1
      ensures old(openGame).None? && grid != [] && key == "ArrowLeft" ==>
                keyboardIndex == PrevCard(old(keyboardIndex), |grid|) && 0 <= keyboardIndex <= |grid| - 1
      ensures old(openGame).None? && grid != [] && key == "Enter" ==>
                if 0 <= old(keyboardIndex) < |grid| then
                  var id := grid[old(keyboardIndex)];
                  (FirstIndex(old(games), HasId(id)).None? ==> unchanged(this))
                  && (FirstIndex(old(games), HasId(id)).Some? ==>
                        openGame == Some(id)
                        && recentlyViewed == Tracked(IdsAt(old(store), RECENT_KEY), id)
                        && store == old(store)[RECENT_KEY := Ids(recentlyViewed)])
                else unchanged(this)
      ensures old(openGame).None? && key != "Enter" ==> openGame == old(openGame)
      ensures old(openGame).Some? || key != "Enter" ==> store == old(store) && recentlyViewed == old(recentlyViewed)
      ensures old(openGame).Some? || (key != "ArrowRight" && key != "ArrowLeft") ==> keyboardIndex == old(keyboardIndex)
      ensures games == old(games) && currentPage == old(currentPage) && currentSection == old(currentSection)
      ensures filters == old(filters) && pager == old(pager) && grid == old(grid)
    {
      if openGame.Some? {
        if key == "Escape" {
          CloseModals();
        }
        return;
      }
      if |grid| == 0 {
        return;
      }
      if key == "ArrowRight" {
        keyboardIndex := NextCard(keyboardIndex, |grid|);
      } else if key == "ArrowLeft" {
        keyboardIndex := PrevCard(keyboardIndex, |grid|);
      } else if key == "Enter" {
        if 0 <= keyboardIndex < |grid| {
          OpenGameModal(grid[keyboardIndex]);
        }
      }
    }

    /**
     * `openGameModal`: for a known game, records the view and opens the
     * modal; for an unknown id, nothing.
     */
    method OpenGameModal(id: string)
      requires Valid()
      modifies this
      ensures Valid()
      ensures FirstIndex(old(games), HasId(id)).None? ==> unchanged(this)
      ensures FirstIndex(old(games), HasId(id)).Some? ==>
                openGame == Some(id)
                && recentlyViewed == Tracked(IdsAt(old(store), RECENT_KEY), id)
                && store == old(store)[RECENT_KEY := Ids(recentlyViewed)]
      ensures games == old(games) && currentPage == old(currentPage) && currentSection == old(currentSection)
      ensures filters == old(filters) && keyboardIndex == old(keyboardIndex) && pager == old(pager) && grid == old(grid)
    {
      var found := FirstIndex(games, HasId(id));
      if found.None? {
        return;
      }
      TrackRecentlyViewed(id);
      openGame := Some(id);
    }

    /** `trackRecentlyViewed`: the stored list and the session's copy become the tracked list. */
    method TrackRecentlyViewed(id: string)
      requires Valid()
      modifies this
      ensures Valid()
      ensures recentlyViewed == Tracked(IdsAt(old(store), RECENT_KEY), id)
      ensures store == old(store)[RECENT_KEY := Ids(recentlyViewed)]
      ensures games == old(games) && currentPage == old(currentPage) && currentSection == old(currentSection)
      ensures filters == old(filters) && keyboardIndex == old(keyboardIndex) && openGame == old(openGame)
      ensures pager == old(pager) && grid == old(grid)
    {
      var recent := IdsAt(store, RECENT_KEY);
      recent := Keep(recent, Without(id));
      recent := [id] + recent;
      recent := recent[..if |recent| < MAX_RECENT then |recent| else MAX_RECENT];
      store := store[RECENT_KEY := Ids(recent)];
      recentlyViewed := recent;
    }

    // -------------------------------------------------------------------
    // Ratings and comments
    // -------------------------------------------------------------------

    /**
     * `rateGame`: overwrites the user's own rating, adds the rating to the
     * stored aggregate (so rating again counts again), copies the new
     * average and count into the first game with the id, and reopens its
     * modal.
     */
    method RateGame(id: string, rating: int)
      requires Valid()
      modifies this
      ensures Valid()
      ensures NumberAt(store, UserRatingKey(id)) == rating
      ensures AggregateAt(store, RatingsKey(id)) == AddRating(AggregateAt(old(store), RatingsKey(id)), rating)
      ensures var agg := AddRating(AggregateAt(old(store), RatingsKey(id)), rating);
              match FirstIndex(old(games), HasId(id))
              case None =>
                games == old(games) && openGame == old(openGame) && recentlyViewed == old(recentlyViewed)
                && store == WithRating(old(store), id, rating)
              case Some(i) =>
                games == old(games)[i := old(games)[i].(rating := agg.average, ratingCount := agg.count)]
                && openGame == Some(id)
                && recentlyViewed == Tracked(IdsAt(old(store), RECENT_KEY), id)
                && store == WithRating(old(store), id, rating)[RECENT_KEY := Ids(recentlyViewed)]
      ensures currentPage == old(currentPage) && currentSection == old(currentSection)
      ensures filters == old(filters) && keyboardIndex == old(keyboardIndex) && pager == old(pager) && grid == old(grid)
    {
      KeysDistinct(id, id);
      var ratingsData := RecordRating(id, rating);
      var found := FirstIndex(games, HasId(id));
      var before := games;
      if found.Some? {
        var i := found.value;
        games := games[i := games[i].(rating := ratingsData.average, ratingCount := ratingsData.count)];
      }
      FirstIndexAlike(games, HasId(id), before, HasId(id));
      ghost var written := store;
      OpenGameModal(id);
      RecentWriteKeeps(written, id, Ids(recentlyViewed));
    }

    /** The storage half of `rateGame`: the user's rating, then the updated aggregate. */
    method RecordRating(id: string, rating: int) returns (agg: Aggregate)
      requires Valid()
      modifies this
      ensures Valid()
      ensures agg == AddRating(AggregateAt(old(store), RatingsKey(id)), rating)
      ensures store == WithRating(old(store), id, rating)
      ensures games == old(games) && currentPage == old(currentPage) && currentSection == old(currentSection)
      ensures filters == old(filters) && keyboardIndex == old(keyboardIndex)
      ensures recentlyViewed == old(recentlyViewed) && openGame == old(openGame) && pager == old(pager) && grid == old(grid)
    {
      KeysDistinct(id, id);
      store := store[UserRatingKey(id) := Number(rating)];
      agg := AggregateAt(store, RatingsKey(id));
      agg := agg.(total := agg.total + rating);
      agg := agg.(count := agg.count + 1);
      agg := agg.(average := agg.total as real / agg.count as real);
      store := store[RatingsKey(id) := Ratings(agg)];
    }

    /**
     * `addComment`, given the comment box's text, the drawn author number and
     * the time stamp: blank text changes nothing; otherwise the comment goes
     * in front of the stored list, the first game with the id gets the new
     * list, and its modal reopens.
     */
    method AddComment(id: string, raw: string, authorNumber: nat, time: string)
      requires authorNumber < 10000
      requires Valid()
      modifies this
      ensures Valid()
      ensures AllSpace(raw) ==> unchanged(this)
      ensures !AllSpace(raw) ==>
                var written := WithComment(old(store), id, Comment(AuthorLabel(authorNumber), Trim(raw), time));
                var comments := CommentsAt(written, CommentsKey(id));
                match FirstIndex(old(games), HasId(id))
                case None =>
                  games == old(games) && openGame == old(openGame) && recentlyViewed == old(recentlyViewed)
                  && store == written
                case Some(i) =>
                  games == old(games)[i := old(games)[i].(comments := comments)]
                  && openGame == Some(id)
                  && recentlyViewed == Tracked(IdsAt(old(store), RECENT_KEY), id)
                  && store == written[RECENT_KEY := Ids(recentlyViewed)]
      ensures currentPage == old(currentPage) && currentSection == old(currentSection)
      ensures filters == old(filters) && keyboardIndex == old(keyboardIndex) && pager == old(pager) && grid == old(grid)
    {
      var text := Trim(raw);
      if text == [] {
        return;
      }
      var comment := Comment(AuthorLabel(authorNumber), text, time);
      var comments := RecordComment(id, comment);
      KeysDistinct(id, id);
      assert IdsAt(store, RECENT_KEY) == IdsAt(old(store), RECENT_KEY);
      var found := FirstIndex(games, HasId(id));
      var before := games;
      if found.Some? {
        var i := found.value;
        games := games[i := games[i].(comments := comments)];
      }
      FirstIndexAlike(games, HasId(id), before, HasId(id));
      OpenGameModal(id);
    }

    /** The storage half of `addComment`: the comment in front of the stored list. */
    method RecordComment(id: string, comment: Comment) returns (comments: seq<Comment>)
      requires Valid()
      modifies this
      ensures Valid()
      ensures store == WithComment(old(store), id, comment)
      ensures comments == CommentsAt(store, CommentsKey(id))
      ensures games == old(games) && currentPage == old(currentPage) && currentSection == old(currentSection)
      ensures filters == old(filters) && keyboardIndex == old(keyboardIndex)
      ensures recentlyViewed == old(recentlyViewed) && openGame == old(openGame) && pager == old(pager) && grid == old(grid)
    {
      comments := CommentsAt(store, CommentsKey(id));
      comments := [comment] + comments;
      store := store[CommentsKey(id) := Comments(comments)];
    }

    // -------------------------------------------------------------------
    // Requests
    // -------------------------------------------------------------------

    /**
     * `submitRequest`, given the request box's text, the time stamp and the
     * clock reading used as id: blank text changes nothing; otherwise a
     * request with no votes goes in front of the stored list.
     */
    method SubmitRequest(raw: string, time: string, now: int)
      requires Valid()
      modifies this
      ensures Valid()
      ensures AllSpace(raw) ==> unchanged(this)
      ensures !AllSpace(raw) ==>
                store == WithRequest(old(store), Request(Trim(raw), 0, time, now))
      ensures games == old(games) && currentPage == old(currentPage) && currentSection == old(currentSection)
      ensures filters == old(filters) && keyboardIndex == old(keyboardIndex)
      ensures recentlyViewed == old(recentlyViewed) && openGame == old(openGame) && pager == old(pager) && grid == old(grid)
    {
      var text := Trim(raw);
      if text == [] {
        return;
      }
      var request := Request(text, 0, time, now);
      var requests := RequestsAt(store, REQUESTS_KEY);
      requests := [request] + requests;
      store := store[REQUESTS_KEY := Requests(requests)];
    }

    /** `voteRequest`: the stored list becomes `Voted`'s result; an unknown id writes nothing. */
    method VoteRequest(requestId: int)
      requires Valid()
      modifies this
      ensures Valid()
      ensures match Voted(RequestsAt(old(store), REQUESTS_KEY), requestId)
              case None => store == old(store)
              case Some(rs) => store == old(store)[REQUESTS_KEY := Requests(rs)]
      ensures games == old(games) && currentPage == old(currentPage) && currentSection == old(currentSection)
      ensures filters == old(filters) && keyboardIndex == old(keyboardIndex)
      ensures recentlyViewed == old(recentlyViewed) && openGame == old(openGame) && pager == old(pager) && grid == old(grid)
    {
      var requests := RequestsAt(store, REQUESTS_KEY);
      var found := FirstIndex(requests, HasRequestId(requestId));
      if found.Some? {
        var i := found.value;
        requests := requests[i := requests[i].(votes := requests[i].votes + 1)];
        store := store[REQUESTS_KEY := Requests(requests)];
      }
    }
  }
}
