/**
 * The records the fetchers produce. Every timestamp is an integer count of
 * milliseconds since the epoch; values are carried through unchanged, and a
 * missing value is `None`.
 */
module Schema {
  import opened Wrappers
  import opened Errors

  const MS_PER_SECOND: int := 1000
  const DAY_MS: int := 86_400_000

  /** The value columns of a candle: Open, High, Low, Close, Volume. */
  datatype Ohlcv<V> = Ohlcv(open: Option<V>, high: Option<V>, low: Option<V>, close: Option<V>, volume: Option<V>)

  /** One row of the candle series. */
  datatype Candle<V> = Candle(timestamp: int, values: Ohlcv<V>)

  /** The value columns of an open-interest or funding-rate row. */
  datatype Ohlc<V> = Ohlc(open: Option<V>, high: Option<V>, low: Option<V>, close: Option<V>)

  /** One row of the open-interest or funding-rate series. */
  datatype LevelRow<V> = LevelRow(timestamp: int, values: Ohlc<V>)

  /** What a paginated fetch returns: its rows, and the requests it issued in order. */
  datatype Fetched<T, Q> = Fetched(rows: seq<T>, requests: seq<Q>)

  /** Puts rows and requests produced earlier in front of a later outcome; an error stays an error. */
  function Extend<T, Q>(rows: seq<T>, requests: seq<Q>, r: Result<Fetched<T, Q>, Error>): Result<Fetched<T, Q>, Error>
  {
    match r
    case Ok(f) => Ok(Fetched(rows + f.rows, requests + f.requests))
    case Err(e) => Err(e)
  }

  lemma ExtendNothing<T, Q>(r: Result<Fetched<T, Q>, Error>)
    ensures Extend([], [], r) == r
  {
    if r.Ok? {
      assert [] + r.value.rows == r.value.rows && [] + r.value.requests == r.value.requests;
    }
  }

  lemma ExtendTwice<T, Q>(rows1: seq<T>, requests1: seq<Q>, rows2: seq<T>, requests2: seq<Q>, r: Result<Fetched<T, Q>, Error>)
    ensures Extend(rows1, requests1, Extend(rows2, requests2, r)) == Extend(rows1 + rows2, requests1 + requests2, r)
  {
    if r.Ok? {
      assert rows1 + (rows2 + r.value.rows) == (rows1 + rows2) + r.value.rows;
      assert requests1 + (requests2 + r.value.requests) == (requests1 + requests2) + r.value.requests;
    }
  }
}
