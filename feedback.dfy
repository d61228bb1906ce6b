/**
 * Reads of the key-value store (`getFromStorage`, where an absent key reads
 * as null and the caller's `|| default` applies), and the pure parts of the
 * user-generated data: the rating aggregate, the recently-viewed list, the
 * request ordering and the leaderboards.
 */
module Storage {
  import opened Model

  type Store = map<string, Value>

  /** The aggregate a game starts from: `{ total: 0, count: 0, average: 0 }`. */
  const NO_RATINGS: Aggregate := Aggregate(0, 0, 0.0)

  /** `await getFromStorage(key) || { total: 0, count: 0, average: 0 }`. */
  function AggregateAt(st: Store, key: string): (a: Aggregate)
    ensures key !in st ==> a == NO_RATINGS
  {
    if key in st && st[key].Ratings? then st[key].agg else NO_RATINGS
  }

  /** `await getFromStorage(key) || []` for a comment list. */
  function CommentsAt(st: Store, key: string): (cs: seq<Comment>)
    ensures key !in st ==> cs == []
  {
    if key in st && st[key].Comments? then st[key].list else []
  }

  /** `await getFromStorage(key) || []` for a list of game ids. */
  function IdsAt(st: Store, key: string): (ids: seq<string>)
    ensures key !in st ==> ids == []
  {
    if key in st && st[key].Ids? then st[key].ids else []
  }

  /** `await getFromStorage(key) || []` for the request list. */
  function RequestsAt(st: Store, key: string): (rs: seq<Request>)
    ensures key !in st ==> rs == []
  {
    if key in st && st[key].Requests? then st[key].requests else []
  }

  /** `await getFromStorage(key) || 0` for a number. */
  function NumberAt(st: Store, key: string): (n: int)
    ensures key !in st ==> n == 0
  {
    if key in st && st[key].Number? then st[key].n else 0
  }
}

module Feedback {
  import opened Wrappers
  import opened Seqs
  import opened Text
  import opened Model
  import opened Storage

  // ---------------------------------------------------------------------
  // Ratings
  // ---------------------------------------------------------------------

  /** One `rateGame` step on the aggregate: add to the total, count one more, recompute the mean. */
  function AddRating(a: Aggregate, rating: int): (r: Aggregate)
    ensures r.count == a.count + 1 && r.total == a.total + rating
    ensures MeanConsistent(r)
    ensures r.average * r.count as real == (a.total + rating) as real
  {
    var total := a.total + rating;
    var count := a.count + 1;
    var r := Aggregate(total, count, total as real / count as real);
    assert r.average * count as real == total as real;
    r
  }

  /** The aggregate after rating a game, from nothing, with each of `rs` in turn. */
  function RatingsAfter(rs: seq<int>): Aggregate
  {
    if rs == [] then NO_RATINGS else AddRating(RatingsAfter(rs[..|rs| - 1]), rs[|rs| - 1])
  }

  function Sum(rs: seq<int>): int
  {
    if rs == [] then 0 else Sum(rs[..|rs| - 1]) + rs[|rs| - 1]
  }

  /** The average is the stored total over the stored count, zero before any rating. */
  ghost predicate MeanConsistent(a: Aggregate)
  {
    a.average == if a.count == 0 then 0.0 else a.total as real / a.count as real
  }

  /**
   * The aggregate is exactly the sum and number of the ratings given, and
   * its average their mean.
   */
  lemma {:induction false} RatingsAfterIsMean(rs: seq<int>)
    ensures RatingsAfter(rs).total == Sum(rs)
    ensures RatingsAfter(rs).count == |rs|
    ensures MeanConsistent(RatingsAfter(rs))
  {
    if rs != [] {
      RatingsAfterIsMean(rs[..|rs| - 1]);
    }
  }

  lemma RatingOneThenFive()
    ensures RatingsAfter([1, 5]).count == 2 && RatingsAfter([1, 5]).average == 3.0
  {
    assert [1, 5][..1] == [1];
    assert [1][..0] == [];
  }

  /** Giving the same rating `n` times makes that rating the average. */
  lemma {:induction false} SameRatingRepeated(v: int, n: nat)
    requires n > 0
    ensures RatingsAfter(seq(n, _ => v)).count == n
    ensures RatingsAfter(seq(n, _ => v)).average == v as real
  {
    RatingsAfterIsMean(seq(n, _ => v));
    SumRepeated(v, n);
    var t := (n * v) as real;
    assert t == n as real * v as real;
  }

  lemma {:induction false} SumRepeated(v: int, n: nat)
    ensures Sum(seq(n, _ => v)) == n * v
  {
    if n > 0 {
      assert seq(n, _ => v)[..n - 1] == seq(n - 1, _ => v);
      SumRepeated(v, n - 1);
    }
  }

  lemma FiveFives()
    ensures RatingsAfter([5, 5, 5, 5, 5]).count == 5 && RatingsAfter([5, 5, 5, 5, 5]).average == 5.0
  {
    assert [5, 5, 5, 5, 5] == seq(5, _ => 5);
    SameRatingRepeated(5, 5);
  }

  lemma {:induction false} SumBounds(rs: seq<int>, lo: int, hi: int)
    requires forall i :: 0 <= i < |rs| ==> lo <= rs[i] <= hi
    ensures |rs| * lo <= Sum(rs) <= |rs| * hi
  {
    if rs != [] {
      SumBounds(rs[..|rs| - 1], lo, hi);
      assert forall i :: 0 <= i < |rs| - 1 ==> rs[..|rs| - 1][i] == rs[i];
      assert (|rs| - 1) * lo + lo == |rs| * lo;
      assert (|rs| - 1) * hi + hi == |rs| * hi;
    }
  }

  /** With star ratings from 1 to 5, the average stays between 1 and 5. */
  lemma StarAverageInRange(rs: seq<int>)
    requires rs != []
    requires forall i :: 0 <= i < |rs| ==> 1 <= rs[i] <= 5
    ensures 1.0 <= RatingsAfter(rs).average <= 5.0
  {
    RatingsAfterIsMean(rs);
    SumBounds(rs, 1, 5);
    DivBounds(Sum(rs) as real, |rs| as real, 1.0, 5.0);
  }

  /** From `lo * n <= t <= hi * n` with `n` positive, the quotient `t / n` lies in `[lo, hi]`. */
  lemma DivBounds(t: real, n: real, lo: real, hi: real)
    requires n > 0.0 && lo * n <= t <= hi * n
    ensures lo <= t / n <= hi
  {
    var q := t / n;
    assert q * n == t;
  }

  /**
   * The store after the writes of `rateGame`: the user's own rating is
   * overwritten and the rating is added to the aggregate; no other key changes.
   */
  function WithRating(st: Store, id: string, rating: int): (st2: Store)
    ensures NumberAt(st2, UserRatingKey(id)) == rating
    ensures AggregateAt(st2, RatingsKey(id)) == AddRating(AggregateAt(st, RatingsKey(id)), rating)
    ensures MeanConsistent(AggregateAt(st2, RatingsKey(id)))
    ensures forall k :: k != UserRatingKey(id) && k != RatingsKey(id) ==> (k in st2 <==> k in st)
    ensures forall k :: k in st && k != UserRatingKey(id) && k != RatingsKey(id) ==> st2[k] == st[k]
  {
    KeysDistinct(id, id);
    st[UserRatingKey(id) := Number(rating)][RatingsKey(id) := Ratings(AddRating(AggregateAt(st, RatingsKey(id)), rating))]
  }

  /** Rating twice counts twice: the aggregate grows by both ratings. */
  lemma RatingTwiceCountsTwice(st: Store, id: string, r1: int, r2: int)
    ensures var st2 := WithRating(WithRating(st, id, r1), id, r2);
            AggregateAt(st2, RatingsKey(id)).count == AggregateAt(st, RatingsKey(id)).count + 2
            && AggregateAt(st2, RatingsKey(id)).total == AggregateAt(st, RatingsKey(id)).total + r1 + r2
            && NumberAt(st2, UserRatingKey(id)) == r2
  {
  }

  /** Writing the recently-viewed list leaves every per-game entry as it was. */
  lemma RecentWriteKeeps(st: Store, id: string, v: Value)
    ensures AggregateAt(st[RECENT_KEY := v], RatingsKey(id)) == AggregateAt(st, RatingsKey(id))
    ensures NumberAt(st[RECENT_KEY := v], UserRatingKey(id)) == NumberAt(st, UserRatingKey(id))
    ensures CommentsAt(st[RECENT_KEY := v], CommentsKey(id)) == CommentsAt(st, CommentsKey(id))
  {
    KeysDistinct(id, id);
  }

  // ---------------------------------------------------------------------
  // Recently viewed
  // ---------------------------------------------------------------------

  const MAX_RECENT: nat := 10

  function Without(id: string): string -> bool { x => x != id }

  /**
   * `trackRecentlyViewed` on the list: drop `id`, put it in front, keep at
   * most ten. The list starts with `id`, holds it once, and continues with
   * the first nine other ids in their previous order.
   */
  function Tracked(recent: seq<string>, id: string): (r: seq<string>)
    ensures 1 <= |r| <= MAX_RECENT && r[0] == id
    ensures Occurrences(r, id) == 1
    ensures var rest := Keep(recent, Without(id));
            r[1..] == rest[..if |rest| < MAX_RECENT - 1 then |rest| else MAX_RECENT - 1]
    ensures IsSubseq(r[1..], recent)
  {
    var rest := Keep(recent, Without(id));
    var moved := [id] + rest;
    var r := moved[..if |moved| < MAX_RECENT then |moved| else MAX_RECENT];
    TrackedFacts(recent, id, rest, r);
    r
  }

  lemma TrackedFacts(recent: seq<string>, id: string, rest: seq<string>, r: seq<string>)
    requires rest == Keep(recent, Without(id))
    requires var moved := [id] + rest; r == moved[..if |moved| < MAX_RECENT then |moved| else MAX_RECENT]
    ensures Occurrences(r, id) == 1
    ensures r[1..] == rest[..if |rest| < MAX_RECENT - 1 then |rest| else MAX_RECENT - 1]
    ensures IsSubseq(r[1..], recent)
  {
    var m := if |rest| < MAX_RECENT - 1 then |rest| else MAX_RECENT - 1;
    assert r == [id] + rest[..m];
    KeepMembers(recent, Without(id));
    assert id !in rest[..m];
    assert multiset(rest[..m])[id] == 0;
    KeepIsSubseq(recent, Without(id));
    SubseqOfPrefix(rest, recent, m);
  }

  /** Viewing the same game twice in a row gives the list viewing it once gives. */
  lemma TrackedIdempotent(recent: seq<string>, id: string)
    ensures Tracked(Tracked(recent, id), id) == Tracked(recent, id)
  {
    var r := Tracked(recent, id);
    var rest := Keep(recent, Without(id));
    KeepMembers(recent, Without(id));
    forall i | 0 <= i < |r[1..]| ensures Without(id)(r[1..][i]) {
      assert r[1..][i] in rest;
    }
    KeepAll(r[1..], Without(id));
    assert r == [r[0]] + r[1..];
    assert Keep(r, Without(id)) == r[1..];
  }

  // ---------------------------------------------------------------------
  // Comments and requests
  // ---------------------------------------------------------------------

  /** `User${Math.floor(Math.random() * 10000)}`, for the drawn number. */
  function AuthorLabel(n: nat): (author: string)
    requires n < 10000
    ensures |author| > 4 && author[..4] == "User"
    ensures forall k :: 4 <= k < |author| ==> '0' <= author[k] <= '9'
    ensures DecimalValue(author[4..]) == n
  {
    DecimalRoundTrip(n);
    assert ("User" + Decimal(n))[4..] == Decimal(n);
    "User" + Decimal(n)
  }

  /** The store after `addComment` writes: the comment goes in front of the game's list. */
  function WithComment(st: Store, id: string, c: Comment): (st2: Store)
    ensures CommentsAt(st2, CommentsKey(id)) == [c] + CommentsAt(st, CommentsKey(id))
    ensures CommentsAt(st2, CommentsKey(id))[1..] == CommentsAt(st, CommentsKey(id))
    ensures forall k :: k != CommentsKey(id) ==> (k in st2 <==> k in st)
    ensures forall k :: k in st && k != CommentsKey(id) ==> st2[k] == st[k]
  {
    st[CommentsKey(id) := Comments([c] + CommentsAt(st, CommentsKey(id)))]
  }

  /** The store after `submitRequest` writes: the request goes in front of the list. */
  function WithRequest(st: Store, r: Request): (st2: Store)
    ensures RequestsAt(st2, REQUESTS_KEY) == [r] + RequestsAt(st, REQUESTS_KEY)
    ensures RequestsAt(st2, REQUESTS_KEY)[1..] == RequestsAt(st, REQUESTS_KEY)
    ensures forall k :: k != REQUESTS_KEY ==> (k in st2 <==> k in st)
    ensures forall k :: k in st && k != REQUESTS_KEY ==> st2[k] == st[k]
  {
    st[REQUESTS_KEY := Requests([r] + RequestsAt(st, REQUESTS_KEY))]
  }

  /** The request list shows at most twenty requests. */
  const MAX_SHOWN_REQUESTS: nat := 20

  function Votes(r: Request): real { r.votes as real }

  /**
   * `renderRequests`: the requests by votes, most first (ties in stored
   * order), at most twenty; no request left out has more votes than one shown.
   */
  function DisplayedRequests(rs: seq<Request>): (shown: seq<Request>)
    ensures |shown| == if |rs| < MAX_SHOWN_REQUESTS then |rs| else MAX_SHOWN_REQUESTS
    ensures forall i, j :: 0 <= i < j < |shown| ==> shown[i].votes >= shown[j].votes
    ensures multiset(shown) <= multiset(rs)
    ensures forall i, j :: 0 <= i < |shown| && 0 <= j < |rs| && multiset(shown)[rs[j]] < multiset(rs)[rs[j]]
              ==> rs[j].votes <= shown[i].votes
  {
    var shown := TopK(rs, Votes, MAX_SHOWN_REQUESTS);
    assert forall i, j :: 0 <= i < j < |shown| ==> Votes(shown[i]) >= Votes(shown[j]);
    shown
  }

  /**
   * Ties keep the stored order: among the shown requests with any one vote
   * count, the order is that of the stored list, of which they are the first.
   */
  lemma DisplayedRequestsStable(rs: seq<Request>, v: real)
    ensures Keep(DisplayedRequests(rs), KeyIs(Votes, v)) <= Keep(rs, KeyIs(Votes, v))
  {
    var sorted := SortDesc(rs, Votes);
    var n := if |rs| < MAX_SHOWN_REQUESTS then |rs| else MAX_SHOWN_REQUESTS;
    assert DisplayedRequests(rs) == sorted[..n];
    assert sorted == sorted[..n] + sorted[n..];
    KeepAppend(sorted[..n], sorted[n..], KeyIs(Votes, v));
    SortDescStable(rs, Votes, v);
  }

  function HasRequestId(id: int): Request -> bool { (r: Request) => r.id == id }

  /**
   * `voteRequest` on the list: one request with the id gains a vote (the
   * first such, see `VoteGoesToFirst`) and nothing else changes; None when
   * no request has the id, in which case nothing is written back.
   */
  function Voted(rs: seq<Request>, id: int): (r: Option<seq<Request>>)
    ensures r.None? <==> forall j :: 0 <= j < |rs| ==> rs[j].id != id
    ensures r.Some? ==> |r.value| == |rs| && TotalVotes(r.value) == TotalVotes(rs) + 1
    ensures r.Some? ==> forall j :: 0 <= j < |rs| ==>
              r.value[j].id == rs[j].id && r.value[j].text == rs[j].text && r.value[j].time == rs[j].time
    ensures r.Some? ==> forall j :: 0 <= j < |rs| && rs[j].id != id ==> r.value[j] == rs[j]
  {
    match FirstIndex(rs, HasRequestId(id))
    case None => None
    case Some(i) =>
      var x := rs[i].(votes := rs[i].votes + 1);
      TotalVotesUpdate(rs, i, x);
      Some(rs[i := x])
  }

  function TotalVotes(rs: seq<Request>): int
  {
    if rs == [] then 0 else rs[0].votes + TotalVotes(rs[1..])
  }

  lemma {:induction false} TotalVotesUpdate(rs: seq<Request>, i: nat, x: Request)
    requires i < |rs|
    ensures TotalVotes(rs[i := x]) == TotalVotes(rs) - rs[i].votes + x.votes
  {
    if i > 0 {
      TotalVotesUpdate(rs[1..], i - 1, x);
      assert rs[i := x][1..] == rs[1..][i - 1 := x];
    } else {
      assert rs[i := x][1..] == rs[1..];
    }
  }

  /** The vote goes to the first request with the id; later ones with the same id keep theirs. */
  lemma VoteGoesToFirst(rs: seq<Request>, id: int, i: nat)
    requires i < |rs| && rs[i].id == id
    requires forall j :: 0 <= j < i ==> rs[j].id != id
    ensures Voted(rs, id).Some?
    ensures Voted(rs, id).value[i].votes == rs[i].votes + 1
    ensures forall j :: i < j < |rs| ==> Voted(rs, id).value[j] == rs[j]
  {
    assert HasRequestId(id)(rs[i]);
  }

  /** Three votes on a request just submitted, in front with no votes, give it three votes. */
  lemma ThreeVotesOnNewRequest(rs: seq<Request>, r: Request)
    requires r.votes == 0
    ensures Voted([r] + rs, r.id).Some?
    ensures Voted(Voted([r] + rs, r.id).value, r.id).Some?
    ensures Voted(Voted(Voted([r] + rs, r.id).value, r.id).value, r.id).Some?
    ensures Voted(Voted(Voted([r] + rs, r.id).value, r.id).value, r.id).value[0].votes == 3
  {
    var s0 := [r] + rs;
    VoteGoesToFirst(s0, r.id, 0);
    var s1 := Voted(s0, r.id).value;
    VoteGoesToFirst(s1, r.id, 0);
    var s2 := Voted(s1, r.id).value;
    VoteGoesToFirst(s2, r.id, 0);
  }

  // ---------------------------------------------------------------------
  // Leaderboards
  // ---------------------------------------------------------------------

  const LEADERBOARD_SIZE: nat := 6

  function Downloads(g: Game): real { g.downloads as real }
  function Rating(g: Game): real { g.rating }

  function TotalDownloads(games: seq<Game>): (t: int)
    ensures (forall i :: 0 <= i < |games| ==> games[i].downloads >= 0) ==>
              t >= 0 && forall i :: 0 <= i < |games| ==> t >= games[i].downloads
  {
    if games == [] then 0 else TotalDownloads(games[..|games| - 1]) + games[|games| - 1].downloads
  }

  function TotalRating(games: seq<Game>): real
  {
    if games == [] then 0.0 else TotalRating(games[..|games| - 1]) + games[|games| - 1].rating
  }

  /** The two top-six lists and the catalog statistics. */
  datatype Board = Board(
    mostDownloaded: seq<Game>,
    highestRated: seq<Game>,
    totalGames: nat,
    totalDownloads: int,
    averageRating: real)

  /** `renderLeaderboards`, which draws nothing for an empty catalog. */
  function Leaderboard(games: seq<Game>): (b: Option<Board>)
    ensures b.None? <==> games == []
    ensures b.Some? ==> b.value.totalGames == |games| && b.value.totalDownloads == TotalDownloads(games)
    ensures b.Some? ==> b.value.mostDownloaded == TopK(games, Downloads, LEADERBOARD_SIZE)
    ensures b.Some? ==> b.value.highestRated == TopK(games, Rating, LEADERBOARD_SIZE)
  {
    if games == [] then None
    else Some(Board(
      TopK(games, Downloads, LEADERBOARD_SIZE),
      TopK(games, Rating, LEADERBOARD_SIZE),
      |games|,
      TotalDownloads(games),
      TotalRating(games) / |games| as real))
  }

  /** The totals of a catalog cut in two are the sums of the totals of its parts. */
  lemma {:induction false} TotalsAppend(a: seq<Game>, b: seq<Game>)
    ensures TotalDownloads(a + b) == TotalDownloads(a) + TotalDownloads(b)
    ensures TotalRating(a + b) == TotalRating(a) + TotalRating(b)
  {
    if b == [] {
      assert a + b == a;
    } else {
      var init := b[..|b| - 1];
      assert (a + b)[..|a + b| - 1] == a + init;
      assert (a + b)[|a + b| - 1] == b[|b| - 1];
      TotalsAppend(a, init);
    }
  }

  lemma {:induction false} TotalRatingBounds(games: seq<Game>, lo: real, hi: real)
    requires forall i :: 0 <= i < |games| ==> lo <= games[i].rating <= hi
    ensures |games| as real * lo <= TotalRating(games) <= |games| as real * hi
  {
    if games != [] {
      var init := games[..|games| - 1];
      assert forall i :: 0 <= i < |init| ==> init[i] == games[i];
      TotalRatingBounds(init, lo, hi);
      assert (|games| - 1) as real * lo + lo == |games| as real * lo;
      assert (|games| - 1) as real * hi + hi == |games| as real * hi;
    }
  }

  /** The catalog's average rating lies within the range of the games' ratings. */
  lemma AverageRatingInRange(games: seq<Game>, lo: real, hi: real)
    requires games != []
    requires forall i :: 0 <= i < |games| ==> lo <= games[i].rating <= hi
    ensures lo <= Leaderboard(games).value.averageRating <= hi
  {
    TotalRatingBounds(games, lo, hi);
    DivBounds(TotalRating(games), |games| as real, lo, hi);
  }
}
