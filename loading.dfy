/**
 * `fetchGames`: each fetched game document is completed from the store
 * (rating, rating count, comments) and given a category; documents that
 * failed to load are dropped, the rest keep the index's order.
 */
module Loading {
  import opened Wrappers
  import opened Model
  import opened Storage

  /** The category a document is filed under: its own, or 'Other' when missing or empty. */
  function CategoryOf(raw: RawGame): (c: string)
    ensures c != []
    ensures raw.category.Some? && raw.category.value != [] ==> c == raw.category.value
    ensures raw.category.None? || raw.category.value == [] ==> c == "Other"
  {
    match raw.category
    case Some(c) => if c == [] then "Other" else c
    case None => "Other"
  }

  /** One loaded document, completed from the store. */
  function Normalize(raw: RawGame, st: Store): (g: Game)
    ensures g.id == raw.id && g.title == raw.title && g.description == raw.description
    ensures g.downloads == raw.downloads && g.dateAdded == raw.dateAdded && g.lastUpdated == raw.lastUpdated
    ensures g.category == CategoryOf(raw)
    ensures RatingsKey(raw.id) !in st ==> g.rating == 0.0 && g.ratingCount == 0
    ensures RatingsKey(raw.id) in st && st[RatingsKey(raw.id)].Ratings? ==>
              g.rating == st[RatingsKey(raw.id)].agg.average && g.ratingCount == st[RatingsKey(raw.id)].agg.count
    ensures CommentsKey(raw.id) !in st ==> g.comments == []
    ensures CommentsKey(raw.id) in st && st[CommentsKey(raw.id)].Comments? ==>
              g.comments == st[CommentsKey(raw.id)].list
  {
    var agg := AggregateAt(st, RatingsKey(raw.id));
    Game(raw.id, raw.title, raw.description, CategoryOf(raw), raw.downloads, raw.dateAdded,
         raw.lastUpdated, agg.average, agg.count, CommentsAt(st, CommentsKey(raw.id)))
  }

  /** The documents in index order, None for one whose fetch or parse failed. */
  function Loaded(results: seq<Option<RawGame>>, st: Store): (games: seq<Game>)
    ensures |games| <= |results|
    ensures forall i :: 0 <= i < |games| ==> games[i].category != []
  {
    if results == [] then []
    else
      var rest := Loaded(results[1..], st);
      match results[0]
      case None => rest
      case Some(raw) => [Normalize(raw, st)] + rest
  }

  /** How many documents loaded. */
  function LoadedCount(results: seq<Option<RawGame>>): nat
  {
    if results == [] then 0 else (if results[0].Some? then 1 else 0) + LoadedCount(results[1..])
  }

  /**
   * A game is in the catalog exactly when some document loaded and
   * normalises to it, and one game is kept per loaded document.
   */
  lemma {:induction false} LoadedExactly(results: seq<Option<RawGame>>, st: Store, g: Game)
    ensures |Loaded(results, st)| == LoadedCount(results)
    ensures g in Loaded(results, st) <==>
              exists i :: 0 <= i < |results| && results[i].Some? && g == Normalize(results[i].value, st)
  {
    if results != [] {
      LoadedExactly(results[1..], st, g);
      if g in Loaded(results[1..], st) {
        var i :| 0 <= i < |results[1..]| && results[1..][i].Some? && g == Normalize(results[1..][i].value, st);
        assert results[i + 1] == results[1..][i];
      }
      if exists i :: 0 <= i < |results| && results[i].Some? && g == Normalize(results[i].value, st) {
        var i :| 0 <= i < |results| && results[i].Some? && g == Normalize(results[i].value, st);
        if i > 0 {
          assert results[1..][i - 1] == results[i];
        }
      }
    }
  }

  /** One document: its game when it loaded, nothing when it failed. */
  lemma LoadedOne(result: Option<RawGame>, st: Store)
    ensures result.None? ==> Loaded([result], st) == []
    ensures result.Some? ==> Loaded([result], st) == [Normalize(result.value, st)]
  {
    assert [result][1..] == [];
  }

  /**
   * Loading keeps the index's order: the catalog of two runs of documents is
   * the catalog of the first followed by that of the second.
   */
  lemma {:induction false} LoadedAppend(a: seq<Option<RawGame>>, b: seq<Option<RawGame>>, st: Store)
    ensures Loaded(a + b, st) == Loaded(a, st) + Loaded(b, st)
  {
    if a == [] {
      assert a + b == b;
    } else {
      assert (a + b)[0] == a[0];
      assert (a + b)[1..] == a[1..] + b;
      LoadedAppend(a[1..], b, st);
    }
  }

  /** When every document loads, the catalog has them all, in order. */
  lemma {:induction false} AllLoaded(raws: seq<RawGame>, st: Store)
    ensures Loaded(seq(|raws|, i requires 0 <= i < |raws| => Some(raws[i])), st)
         == seq(|raws|, i requires 0 <= i < |raws| => Normalize(raws[i], st))
  {
    if raws != [] {
      var results := seq(|raws|, i requires 0 <= i < |raws| => Some(raws[i]));
      AllLoaded(raws[1..], st);
      assert results[1..] == seq(|raws[1..]|, i requires 0 <= i < |raws[1..]| => Some(raws[1..][i]));
    }
  }
}
