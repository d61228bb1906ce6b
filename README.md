# Game catalog front end — a Dafny model

This project models the client-side logic of a browser game catalog. The
catalog loads game documents and fills them in from a key-value store. It
then shows them in a grid that can be filtered, sorted and paginated. Users
can rate games, comment on them and vote on game requests. Their data goes to
the same store, and the site keeps a recently-viewed list. The code modelled
is in `script.js`.

Modules, one per file or concern:

- `Wrappers` (`seqs.dfy`): `Option`.
- `Seqs` (`seqs.dfy`): the array operations the code relies on.
  - `filter` is `Keep`.
  - `find` is `FirstIndex`.
  - The stable `Array.prototype.sort` with a descending comparator is `SortDesc`, an insertion sort on values.
  - `sort(...).slice(0, k)` is `TopK`.
- `Text` (`text.dfy`): `trim`, `toLowerCase`, `includes` and decimal numerals.
- `Model` (`model.dfy`): games, raw game documents, rating aggregates, comments, requests, store values and store keys.
- `Query` (`query.dfy`): `getFilteredGames`, covering the five conjunctive filters and the four sort orders, including the trending score.
- `View` (`view.dfy`): the page slice, the page count, the Previous/Next controls and the clamping of the keyboard selection.
- `Storage` and `Feedback` (`feedback.dfy`):
  - reading the store with defaults;
  - the rating aggregate;
  - the recently-viewed list;
  - comment and request writes;
  - voting;
  - the request ordering;
  - the leaderboards.
- `Loading` (`loading.dfy`): how `fetchGames` normalises each record, and how it drops the documents that failed to load.
- `App` (`app.dfy`): the class `Site`.
  - Its fields are the page `state` and the store, held as a `map`.
  - Its methods are the handlers that update them: navigation, filters, search, paging, keys, the modal, ratings, comments, requests and loading.
  - Each handler is one atomic step.
  - The field `pager` holds the Previous/Next controls as last drawn. Only the handlers that call `renderGames` redraw them. A navigation link does not, so after one the controls on screen can belong to an older page. `NavigateThenPrevious` shows the path this opens: Previous, still enabled, takes the grid to page 0.
  - The field `grid` holds the ids of the cards in the games grid as last drawn, which the keyboard handler moves over. Only `renderGames` redraws it, and every handler that calls it has just cleared the keyboard selection. The class invariant `Valid()` keeps the selection at -1 or on a card of the grid.

Inputs the code reads from the page, the form values, become parameters.
So do the random author number, the ISO time
stamp and the `Date.now()` reading used as a request id. Dates are
millisecond time stamps. A date that does not parse is `None`.

## Model

| member | source | states |
|---|---|---|
| Query.GetFilteredGames | script.js:288-339 | The view holds exactly the catalog's games that pass every active filter. Its multiset equals that of the selection. It is non-increasing in the chosen key. Games with equal keys keep their catalog order. It equals the stable sort of the selection. |
| Query.SelectedExactly | script.js:291-316 | The selection is a subsequence of the catalog. A game is in it exactly when it is in the catalog and matches the category, date, downloads and search filters. |
| Query.NarrowedSelects | script.js:291-316 | The five filter steps, each run only when its filter is set, together keep exactly the games that satisfy all active predicates. |
| Query.SortedSelection | script.js:319-336 | Sorting the selection by any key gives a permutation of it that is non-increasing in that key and stable among equal keys. |
| Query.SortOrderOf | script.js:319-336 | The trending order is chosen exactly when the sort value is none of "downloads", "newest" or "rating", which includes the `default:` case. |
| Query.TrendingFavoursRecent | script.js:331-335 | With equal, positive downloads, the later `last_updated` gets the strictly higher trending score. |
| Query.TrendingFavoursDownloads | script.js:331-335 | With equal `last_updated` and a positive growth factor, more downloads give the strictly higher trending score. |
| Query.Growth | script.js:331-332 | The recency multiplier is 1 exactly for a game last updated on 2025-01-01, above 1 exactly for a later update, and positive exactly for an update less than a year before that date. |
| Query.TrendingScore | script.js:331-333 | A game without downloads scores 0. A game updated on 2025-01-01 scores its downloads. A game with non-negative downloads updated since then scores at least its downloads. |
| Query.GrowthIncreasing | script.js:331-332 | A later `last_updated` gives a strictly larger multiplier. |
| Query.KeyFor | script.js:318-334 | Each order ranks games by its own field: downloads, the date added (an undated game ranks as one added at time 0), the rating, or the trending score. |
| Query.SelectedCons | script.js:291-316 | Filtering a catalog with one more game in front: that game comes first in the result if it matches, and the rest is filtered as before. |
| Query.TwoGameCatalog | script.js:292-294 | Take A (100 downloads, RPG) and B (50 downloads, Obby). The RPG category shows [A]. The whole catalog sorted by downloads is [A, B]. |
| Seqs.Keep | script.js:293 | `filter` never lengthens the list. |
| Seqs.KeepMembers | script.js:293 | `filter` keeps exactly the elements that pass the predicate. |
| Seqs.KeepIsSubseq | script.js:293 | `filter` keeps the elements' relative order. |
| Seqs.KeepKeep | script.js:291-316 | Two successive `filter` calls are one `filter` with the conjunction of their predicates. |
| Seqs.FirstIndex | script.js:437 | `find` returns the first element that passes, or nothing when no element passes. |
| Seqs.SortDesc | script.js:320 | The sorted list has the input's length and starts with one of its elements. |
| Seqs.SortDescPermutes | script.js:321 | The sort is a permutation and is non-increasing in its key. |
| Seqs.SortDescStable | script.js:321 | Elements with equal keys keep their input order. |
| Seqs.SortDescIdempotent | script.js:321 | Sorting twice gives the same list as sorting once. |
| Seqs.SortDescOfSorted | script.js:321 | A list already non-increasing in the key is returned unchanged. |
| Seqs.TopK | script.js:621 | The top `k` has length min(n, k). It is non-increasing and a sub-multiset of the input. No element left out has a larger key than one kept. |
| Text.Trim | script.js:280 | The result is empty exactly when the input is all white space. It neither starts nor ends with white space. It occurs in the input at a position where everything before it and everything after it is white space. |
| Text.LeadingSpace | script.js:280 | The leading white-space run is maximal. |
| Text.TrailingSpace | script.js:280 | The trailing white-space run is maximal. |
| Text.ToLower | script.js:280 | Lower-casing keeps the length and leaves no upper-case ASCII letter. Each upper-case letter becomes the letter 32 code points up, and every other character is kept. |
| Text.ToLowerIdempotent | script.js:280 | Lower-casing twice is lower-casing once. |
| Text.Decimal | script.js:572 | The numeral is a non-empty string of digits with no leading zero. |
| Text.DecimalRoundTrip | script.js:572 | The numeral reads back as the number it was made from. |
| Model.KeysDistinct | script.js:540-598 | The `user_rating_`, `ratings_`, `comments_`, `recently_viewed` and `game_requests` keys never collide. |
| View.PageItems | script.js:360-362 | A page holds at most 12 items, all taken from the view. |
| View.JsSlice | script.js:360-362 | A slice is no longer than the list and holds only its items. For non-negative bounds it is the items from `start` up to `end`, both cut off at the length. It is empty when the end does not lie after the start, or lies at or before the list's start counting from the end. |
| View.TotalPages | script.js:409 | The page count is the least number of pages of 12 that covers the items, i.e. `Math.ceil(n / 12)`. |
| View.PageWindow | script.js:360-362 | For a page from 1 through the page count, the page is the contiguous window starting at item `(page-1)*12`, and it is non-empty. |
| View.PastLastPageEmpty | script.js:362-365 | A page past the last is empty, which the grid shows as its empty state. |
| View.PagesUpToPrefix | script.js:360-362 | The first `k` pages together are the first `12k` items. |
| View.AllPagesReproduceView | script.js:360-362 | Concatenating pages 1 through the page count reproduces the view, with no gap or repeat. |
| View.PagerFor | script.js:409-423 | The controls are hidden exactly when there are at most one page. Previous is disabled exactly on page 1. Next is disabled exactly on the last page. |
| View.ClickKeepsPageInRange | script.js:416-428 | An enabled Previous or Next keeps the page between 1 and the page count. |
| View.NextCard | script.js:185 | ArrowRight stays at or below the last card. It is non-negative exactly when the old index is at least -1. Below the last card it moves by one. |
| View.PrevCard | script.js:190 | ArrowLeft stays at or above 0. It is within the cards exactly when the old index is at most the card count. Above 0 it moves back by one. |
| Storage.AggregateAt | script.js:543 | An absent aggregate reads as `{0, 0, 0}`. |
| Storage.CommentsAt | script.js:577 | An absent comment list reads as empty. |
| Storage.IdsAt | script.js:594 | An absent recently-viewed list reads as empty. |
| Storage.RequestsAt | script.js:660 | An absent request list reads as empty. |
| Storage.NumberAt | script.js:534-535 | An absent user rating reads as 0. |
| Feedback.AddRating | script.js:546-548 | A rating raises the count by 1 and the total by the rating, and the new average times the new count is the new total. |
| Feedback.RatingsAfterIsMean | script.js:543-548 | Rating from nothing with each of `rs` in turn stores the total `sum(rs)` and the count `|rs|`. The average is total/count (0 before any rating). |
| Feedback.RatingOneThenFive | script.js:543-548 | Ratings 1 then 5 give count 2 and average 3. |
| Feedback.FiveFives | script.js:543-548 | Five ratings of 5 give count 5 and average 5. |
| Feedback.SameRatingRepeated | script.js:543-548 | Rating `n` times with the same value makes that value the average, with count `n`. |
| Feedback.StarAverageInRange | script.js:543-548 | With every rating from 1 to 5, the average stays between 1 and 5. |
| Feedback.WithRating | script.js:540-550 | After the rating writes, the user rating reads as `r`. The aggregate reads as the old one with `r` added, with average total/count. No other key changes. |
| Feedback.RatingTwiceCountsTwice | script.js:540-548 | Rating twice adds both ratings to the aggregate and raises the count by 2. The user rating is the last one. |
| Feedback.RecentWriteKeeps | script.js:598 | Writing the recently-viewed list leaves the rating, user-rating and comment entries unchanged. |
| Feedback.Tracked | script.js:593-600 | The tracked list starts with the id and holds it once. It has at most 10 entries. The rest are the first nine other ids, in their previous order. |
| Feedback.TrackedIdempotent | script.js:593-600 | Tracking the same id twice in a row gives the same list as tracking it once. |
| Feedback.AuthorLabel | script.js:572 | The author label is "User" followed by the numeral of the drawn number. |
| Feedback.WithComment | script.js:577-579 | The new comment goes in front of the game's stored list, and the old list becomes the tail. No other key changes. |
| Feedback.WithRequest | script.js:653-662 | The new request goes in front of the stored list, and the old list becomes the tail. No other key changes. |
| Feedback.DisplayedRequests | script.js:678-680 | At most 20 requests are shown, in non-increasing vote order, and all come from the stored list. No request left out has more votes than one shown. |
| Feedback.DisplayedRequestsStable | script.js:678-680 | Ties keep the stored order: the shown requests with any one vote count are the first of those in the stored list, in its order. |
| Feedback.Voted | script.js:693-701 | An unknown id gives nothing to write. Otherwise the length is unchanged and the total of votes rises by exactly 1. Every request keeps its text, time and id. Requests with other ids are unchanged. |
| Feedback.VoteGoesToFirst | script.js:695-697 | The vote goes to the first request with the id. Later requests are unchanged. |
| Feedback.ThreeVotesOnNewRequest | script.js:693-701 | Three votes on a request that was just submitted give it 3 votes. |
| Feedback.Leaderboard | script.js:617-643 | Nothing is drawn exactly when the catalog is empty. The top-six lists are the top six by downloads and by rating. The statistics are the game count and the downloads total. |
| Feedback.TotalDownloads | script.js:637 | With no negative download count, the total is non-negative and at least each game's downloads. |
| Feedback.TotalsAppend | script.js:637-638 | The downloads total and the rating total of a catalog cut in two are the sums of the totals of the parts. |
| Feedback.TotalRatingBounds | script.js:638 | With every rating between `lo` and `hi`, the rating total lies between `n*lo` and `n*hi`. |
| Feedback.AverageRatingInRange | script.js:638 | The catalog's average rating lies within the range of the games' ratings. |
| Loading.CategoryOf | script.js:81 | A missing or empty category becomes "Other"; any other category is kept. |
| Loading.Normalize | script.js:75-81 | A loaded game keeps the document's fields. Its rating and rating count come from the stored aggregate (0 when absent), and its comments from the stored list (empty when absent). |
| Loading.Loaded | script.js:69-90 | The catalog is no longer than the document list, and every game has a non-empty category. |
| Loading.LoadedExactly | script.js:84-90 | One game is kept per document that loaded. A game is in the catalog exactly when some loaded document normalises to it. |
| Loading.LoadedAppend | script.js:69-90 | Loading keeps the index's order: the catalog of two runs of documents is the catalog of the first followed by that of the second. |
| Loading.LoadedOne | script.js:84-90 | One document gives its normalised game when it loaded, and nothing when it failed. |
| Loading.AllLoaded | script.js:69-90 | When every document loads, the catalog is the normalised documents in index order. |
| App.Site.constructor | script.js:7-22 | The initial state: no games, page 1, section "home", the default filters (category "All", sort "trending"), keyboard index -1, no controls and no cards drawn. The class invariant holds. |
| App.Site.FinishLoad | script.js:90-95 | A failed index leaves an empty catalog and redraws nothing. Otherwise the catalog is the loaded documents, and the grid and the controls are redrawn for it. Nothing else changes. Loading finishes before the keyboard handler is installed (script.js:50-52), so no card is selected. |
| App.Site.LoadRecentlyViewed | script.js:602-604 | The session's list becomes the stored one (empty when absent). |
| App.Site.ResetPagination | script.js:244-247 | Page 1, no keyboard selection, nothing else changed. |
| App.Site.Navigate | script.js:105-109 | The section changes and pagination resets. The grid and the controls on screen are not redrawn. |
| App.Site.FilterByCategory | script.js:260-265 | Only the category filter changes, pagination resets, and the grid and the controls are redrawn for page 1. |
| App.Site.ApplyFilters | script.js:270-277 | The date, downloads and sort filters take the inputs' values, pagination resets, and the grid and the controls are redrawn for page 1. |
| App.Site.PerformSearch | script.js:279-286 | A blank query leaves the whole state unchanged. Any other query becomes the trimmed, lower-cased search term, pagination resets, and the grid and the controls are redrawn for page 1. |
| App.Site.ChangePage | script.js:426-431 | The page moves by `direction`, unchecked, the keyboard selection clears, and the grid and the controls are redrawn for the new page. |
| App.Site.ClickPager | script.js:412-429 | A click acts exactly when the button on screen is drawn and enabled, and then it is `changePage(direction)`. Otherwise nothing changes. While the controls on screen are those drawn for the current page, the page stays within 1 and the page count. |
| App.Site.NavigateThenPrevious | script.js:105-109 | A navigation link from page 2 of a view with more than one page leaves the drawn Previous enabled. Clicking it then moves to page 0, which is empty, and redraws controls whose Previous and Next are both enabled. |
| App.Site.RenderGames | script.js:350-374 | The cards are the current page of the filtered, sorted view, at most 12, each in the catalog and matching the filters. The grid becomes those cards' ids and the drawn controls those for the view's length and the current page, and nothing else changes. It runs with no card selected, as at every call site (script.js:262-264, 275-276, 284-285, 428-429, 50-56). |
| App.Site.DrawPage | script.js:351-374 | Without changing anything, it gives the cards of the current page of the filtered, sorted view (at most 12, each in the catalog and matching the filters) and the controls for the view's length and the current page. |
| App.Site.CloseModals | script.js:817-820 | The detail modal is closed and nothing else changes. |
| App.Site.HandleKey | script.js:169-199 | With a modal open, only Escape acts, and it closes the modal. With no cards in the grid, or any other key, nothing changes. ArrowRight and ArrowLeft move the selection to a card of the grid, between the first and the last, and change nothing else. Enter on a selected card does what opening that card's game does. Otherwise Enter changes nothing. The selection stays -1 or on a card of the grid. |
| App.Site.OpenGameModal | script.js:436-527 | For an unknown id nothing changes. Otherwise the view is tracked in the store and in the session, and the modal opens. |
| App.Site.TrackRecentlyViewed | script.js:593-600 | The stored list and the session's copy become the tracked list. |
| App.Site.RateGame | script.js:538-561 | The rating writes happen, the first game with the id takes the new average and count, and its modal reopens. An unknown id changes only the store. |
| App.Site.RecordRating | script.js:540-550 | The store takes the rating writes, and the returned aggregate is the updated one. |
| App.Site.AddComment | script.js:566-588 | Blank text changes nothing. Otherwise the comment goes in front of the stored list, the first game with the id takes the new list, and the modal reopens. |
| App.Site.RecordComment | script.js:577-579 | The store takes the comment write, and the new list is returned. |
| App.Site.SubmitRequest | script.js:648-666 | Blank text changes nothing. Otherwise a request with 0 votes goes in front of the stored list. |
| App.Site.VoteRequest | script.js:693-701 | The stored list becomes the voted list. For an unknown id the store is untouched. |

## Left out

- DOM rendering, event wiring, `innerHTML` templates, `escapeHtml`, scrolling and the modal's markup are not modelled. The model keeps only what the handlers compute and which game's modal is open.
- Network I/O (`fetch` of the index and of each game document, cache-busting, `Promise.all`) is not modelled. `FinishLoad` takes the outcome of each fetch as a parameter.
- `submitGame` and the webhook POST, themes and colour themes (`localStorage`), and the announcement timers: outbound HTTP and browser services, not part of this model.
- `setToStorage` failures are not modelled. The code swallows them, and the model treats every write as succeeding.
- A store value of an unexpected shape reads as absent, so the caller's default applies. The JSON encoding is not modelled.
- The async interleaving of handlers, which can lose updates on a read-modify-write, is not modelled. Each handler is one atomic step.
- Date parsing and the `NaN` comparisons that an unparsable date bound or date value produces are not modelled. A game whose date does not parse fails every date bound, and the `newest` order treats it as added at time 0. The JavaScript comparator would return `NaN` there, which leaves the sort order implementation-defined.
- `parseInt` on non-numeric input is not modelled: `minDownloads` is the parsed number, or None for an empty input.
- Floating point is not modelled: ratings, averages, the trending score and the leaderboard average are exact reals. `Math.round` and `toFixed` on displayed values are left out.
- `Text.ToLower` lower-cases only the ASCII letters. Full Unicode case mapping is not modelled.
- `Math.random()` and the clocks are parameters. `AddComment` takes the drawn author number (below 10000), the time stamp as a string, and `SubmitRequest` the `Date.now()` reading.
- `Seqs.SortDesc`: its own contract states only the length and the first element. That the result is a non-increasing permutation of the input is `Seqs.SortDescPermutes`, and stability is `Seqs.SortDescStable`.
- `Seqs.SortDesc` models the in-place, stable `Array.prototype.sort` on values. The in-place update and the copy `[...state.games]` are not modelled separately.
- `HandleKey` and `CloseModals` track only the game-detail modal. The `.modal.active` test (script.js:171) and `closeModals` (script.js:817-820) also cover the submit and success modals (script.js:151, 745), which belong to `submitGame` and are not part of this model.
- Game ids are strings throughout. The detail modal passes each id to `rateGame` and `addComment` as a quoted string literal (script.js:467, 499), and `find` compares with `===` (script.js:437, 553, 581). A document with a numeric `id` would never match there. That case is not modelled.
- The grid's cards can be stale: `rateGame` and `addComment` change a game without redrawing it. The model keeps the ids drawn, which those handlers do not change.
- Game fields used only for display are not modelled: price, image, links, FAQ and video.
- `Feedback.Leaderboard`: the average rating is stated by `Feedback.AverageRatingInRange` (bounds), not as an equation in the contract.
- `App.Site.RateGame` takes any integer rating. The code never range-checks it, although the star widget only offers 1 to 5.
- `App.Site.AddComment` does not bound the comment's length. Only the input's `maxlength="500"` attribute (script.js:498) limits it, and the code never checks it.
- There is no favourites toggle. The code has none.
