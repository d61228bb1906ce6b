/**
 * Pagination of the games grid (`renderGames`, `renderPagination`) and the
 * clamping of the keyboard-selected card.
 */
module View {

  /** `state.itemsPerPage`. */
  const PAGE_SIZE: nat := 12

  /** Where `Array.prototype.slice` starts or stops for a relative index `i`. */
  function SliceBound(i: int, n: nat): (b: nat)
    ensures b <= n
    ensures 0 <= i <= n ==> b == i
    ensures i > n ==> b == n
    ensures i < 0 ==> b == if n + i < 0 then 0 else n + i
  {
    if i < 0 then (if n + i < 0 then 0 else n + i) else if i > n then n else i
  }

  /**
   * `s.slice(start, end)`, negative indices counted from the end: for
   * non-negative bounds the items from `start` up to `end`, both cut off at
   * the length, and nothing when the end does not lie after the start.
   */
  function JsSlice<T>(s: seq<T>, start: int, end: int): (r: seq<T>)
    ensures |r| <= |s|
    ensures forall i :: 0 <= i < |r| ==> r[i] in s
    ensures 0 <= start <= end ==>
              r == s[(if start < |s| then start else |s|)..(if end < |s| then end else |s|)]
    ensures 0 <= end <= start ==> r == []
    ensures end <= -|s| ==> r == []
  {
    var a, b := SliceBound(start, |s|), SliceBound(end, |s|);
    if a < b then s[a..b] else []
  }

  /** The cards on page `page` (1-based): `filtered.slice((page - 1) * 12, page * 12)`. */
  function PageItems<T>(view: seq<T>, page: int): (r: seq<T>)
    ensures |r| <= PAGE_SIZE
    ensures forall i :: 0 <= i < |r| ==> r[i] in view
  {
    var start := (page - 1) * PAGE_SIZE;
    JsSlice(view, start, start + PAGE_SIZE)
  }

  /** `Math.ceil(totalItems / itemsPerPage)`. */
  function TotalPages(n: nat): (t: nat)
    ensures t * PAGE_SIZE >= n
    ensures t == 0 || (t - 1) * PAGE_SIZE < n
  {
    (n + PAGE_SIZE - 1) / PAGE_SIZE
  }

  /** Page `page` is the contiguous window of the view that starts at item `(page - 1) * 12`. */
  lemma PageWindow<T>(view: seq<T>, page: int)
    requires 1 <= page <= TotalPages(|view|)
    ensures (page - 1) * PAGE_SIZE < |view|
    ensures PageItems(view, page)
         == view[(page - 1) * PAGE_SIZE .. if page * PAGE_SIZE < |view| then page * PAGE_SIZE else |view|]
    ensures PageItems(view, page) != []
  {
  }

  /** A page past the last one is empty, which the grid shows as its empty state. */
  lemma PastLastPageEmpty<T>(view: seq<T>, page: int)
    requires page > TotalPages(|view|)
    ensures PageItems(view, page) == []
  {
  }

  /** Pages 1 to `k`, concatenated. */
  function PagesUpTo<T>(view: seq<T>, k: nat): seq<T>
  {
    if k == 0 then [] else PagesUpTo(view, k - 1) + PageItems(view, k)
  }

  /** The first `k` pages are the first `12 * k` items, with no gap and no repeat. */
  lemma {:induction false} PagesUpToPrefix<T>(view: seq<T>, k: nat)
    ensures PagesUpTo(view, k) == view[..if k * PAGE_SIZE < |view| then k * PAGE_SIZE else |view|]
  {
    if k > 0 {
      PagesUpToPrefix(view, k - 1);
      var lo := if (k - 1) * PAGE_SIZE < |view| then (k - 1) * PAGE_SIZE else |view|;
      var hi := if k * PAGE_SIZE < |view| then k * PAGE_SIZE else |view|;
      assert PageItems(view, k) == view[lo..hi];
      assert view[..lo] + view[lo..hi] == view[..hi];
    }
  }

  /** Concatenating every page reproduces the view. */
  lemma AllPagesReproduceView<T>(view: seq<T>)
    ensures PagesUpTo(view, TotalPages(|view|)) == view
  {
    PagesUpToPrefix(view, TotalPages(|view|));
  }

  /** What `renderPagination` draws. */
  datatype Pager =
    | Hidden
    | Controls(prevDisabled: bool, page: int, total: nat, nextDisabled: bool)

  function PagerFor(totalItems: nat, currentPage: int): (p: Pager)
    ensures p.Hidden? <==> TotalPages(totalItems) <= 1
    ensures p.Controls? ==> p.total == TotalPages(totalItems) && p.page == currentPage
    ensures p.Controls? ==> (p.prevDisabled <==> currentPage == 1)
    ensures p.Controls? ==> (p.nextDisabled <==> currentPage == TotalPages(totalItems))
  {
    var total := TotalPages(totalItems);
    if total <= 1 then Hidden else Controls(currentPage == 1, currentPage, total, currentPage == total)
  }

  /** A pagination button that can be clicked: drawn and not disabled. */
  predicate Clickable(p: Pager, direction: int)
  {
    p.Controls? && ((direction == -1 && !p.prevDisabled) || (direction == 1 && !p.nextDisabled))
  }

  /** Clicking an enabled Previous or Next keeps the page between 1 and the page count. */
  lemma ClickKeepsPageInRange(totalItems: nat, page: int, direction: int)
    requires 1 <= page <= TotalPages(totalItems)
    requires Clickable(PagerFor(totalItems, page), direction)
    ensures 1 <= page + direction <= TotalPages(totalItems)
  {
  }

  /** ArrowRight: `Math.min(keyboardIndex + 1, cards.length - 1)`. */
  function NextCard(index: int, cards: nat): (r: int)
    requires cards > 0
    ensures r <= cards - 1
    ensures r >= 0 <==> index >= -1
    ensures index < cards - 1 ==> r == index + 1
  {
    if index + 1 < cards - 1 then index + 1 else cards - 1
  }

  /** ArrowLeft: `Math.max(keyboardIndex - 1, 0)`. */
  function PrevCard(index: int, cards: nat): (r: int)
    requires cards > 0
    ensures r >= 0
    ensures r <= cards - 1 <==> index <= cards
    ensures index > 0 ==> r == index - 1
  {
    if index - 1 > 0 then index - 1 else 0
  }
}
