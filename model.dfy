/**
 * The records of the catalog front end: games as held in memory after
 * loading, the user-generated entries kept in the key-value store, and the
 * values that store holds.
 */
module Model {
  import opened Wrappers

  /** A comment: a session-generated author label, the trimmed text, an ISO time stamp. */
  datatype Comment = Comment(author: string, text: string, time: string)

  /**
   * A game as the catalog holds it. Time stamps are milliseconds since the
   * Unix epoch; `dateAdded` is None when the record's date does not parse,
   * which makes every date comparison on it false. `rating` and
   * `ratingCount` come from the stored aggregate, `comments` from the stored
   * comment list.
   */
  datatype Game = Game(
    id: string,
    title: string,
    description: string,
    category: string,
    downloads: int,
    dateAdded: Option<int>,
    lastUpdated: int,
    rating: real,
    ratingCount: nat,
    comments: seq<Comment>)

  /** A per-game document as fetched; the category may be missing. */
  datatype RawGame = RawGame(
    id: string,
    title: string,
    description: string,
    category: Option<string>,
    downloads: int,
    dateAdded: Option<int>,
    lastUpdated: int)

  /** The stored rating aggregate of one game. */
  datatype Aggregate = Aggregate(total: int, count: nat, average: real)

  /** A game request: its text, votes, ISO time stamp and time-derived id. */
  datatype Request = Request(text: string, votes: int, time: string, id: int)

  /** What a key of the key-value store can hold. */
  datatype Value =
    | Number(n: int)
    | Ratings(agg: Aggregate)
    | Comments(list: seq<Comment>)
    | Ids(ids: seq<string>)
    | Requests(requests: seq<Request>)

  function UserRatingKey(gameId: string): string { "user_rating_" + gameId }
  function RatingsKey(gameId: string): string { "ratings_" + gameId }
  function CommentsKey(gameId: string): string { "comments_" + gameId }
  const RECENT_KEY: string := "recently_viewed"
  const REQUESTS_KEY: string := "game_requests"

  /** Storage keys of different families never collide. */
  lemma KeysDistinct(a: string, b: string)
    ensures UserRatingKey(a) != RatingsKey(b) && UserRatingKey(a) != CommentsKey(b)
    ensures RatingsKey(a) != CommentsKey(b)
    ensures UserRatingKey(a) != RECENT_KEY && RatingsKey(a) != RECENT_KEY && CommentsKey(a) != RECENT_KEY
    ensures UserRatingKey(a) != REQUESTS_KEY && RatingsKey(a) != REQUESTS_KEY && CommentsKey(a) != REQUESTS_KEY
    ensures RECENT_KEY != REQUESTS_KEY
  {
    assert UserRatingKey(a)[0] == 'u' && RatingsKey(b)[0] == 'r' && CommentsKey(b)[0] == 'c';
    assert RatingsKey(a)[1] == 'a' && RECENT_KEY[1] == 'e' && REQUESTS_KEY[0] == 'g';
    assert CommentsKey(a)[0] == 'c' && UserRatingKey(a)[0] == 'u';
  }
}
