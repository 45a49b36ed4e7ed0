/**
 * The candle fetcher `fetch_OHLCV`. A cursor walks from the start timestamp
 * to the end timestamp (milliseconds, both inclusive in the loop guard),
 * asking the connector for one page of candles at a time. A page of k records
 * moves the cursor k intervals on, an empty page one interval. A retryable
 * error moves nothing and the same request is sent again. After the loop,
 * records at or past the end are dropped and, for some intervals, timestamps
 * are floored to the day.
 *
 * The connector is replaced by the sequence of its answers, in call order;
 * when that sequence runs out while the loop still asks for pages, the model
 * stops with `ResponsesExhausted` (the program would keep asking).
 */
module Candles {
  import opened Wrappers
  import opened Errors
  import opened Schema
  import Interval

  /** One answer of the connector to a `fetch_ohlcv` call. */
  datatype Page<V> = Success(records: seq<Candle<V>>) | Retryable

  /** The arguments of one `fetch_ohlcv` call: the symbol, the timeframe token and the `since` cursor. */
  datatype CandleRequest = CandleRequest(symbol: string, timeframe: string, since: int)

  /** How far an answer moves the cursor: k records move it k intervals, none moves it one. */
  function Advance<V>(page: Page<V>, multiplier: int): int
  {
    match page
    case Retryable => 0
    case Success(rs) => if |rs| > 0 then |rs| * multiplier else multiplier
  }

  /** The records an answer contributes. */
  function Received<V>(page: Page<V>): seq<Candle<V>>
  {
    if page.Success? then page.records else []
  }

  /** The records of a run of answers, concatenated in arrival order. */
  function Collected<V>(pages: seq<Page<V>>): seq<Candle<V>>
  {
    if pages == [] then [] else Received(pages[0]) + Collected(pages[1..])
  }

  /** The total cursor movement of a run of answers. */
  function Advanced<V>(pages: seq<Page<V>>, multiplier: int): int
  {
    if pages == [] then 0 else Advance(pages[0], multiplier) + Advanced(pages[1..], multiplier)
  }

  /** The number of successful answers in a run. */
  function Successes<V>(pages: seq<Page<V>>): nat
  {
    if pages == [] then 0 else (if pages[0].Success? then 1 else 0) + Successes(pages[1..])
  }

  /**
   * The paging loop from `cursor` on: the records it accumulates and every
   * request it sends, in order.
   */
  function CandlePaging<V>(symbol: string, timeframe: string, cursor: int, end: int, multiplier: int, script: seq<Page<V>>)
    : (r: Result<Fetched<Candle<V>, CandleRequest>, Error>)
    ensures r.Ok? ==> |r.value.requests| <= |script|
    ensures r.Err? ==> r.error == ResponsesExhausted
    decreases |script|
  {
    if cursor > end then Ok(Fetched([], []))
    else if script == [] then Err(ResponsesExhausted)
    else Extend(Received(script[0]), [CandleRequest(symbol, timeframe, cursor)],
                CandlePaging(symbol, timeframe, cursor + Advance(script[0], multiplier), end, multiplier, script[1..]))
  }

  /** Whether the unit character is one of d, w, m: minutes are floored too. */
  predicate FloorsToDay(interval: string)
  {
    |interval| > 0 && interval[|interval| - 1] in "dwm"
  }

  /** The end trim: the records strictly before `end`, in their order. */
  function Trim<V>(rows: seq<Candle<V>>, end: int): (r: seq<Candle<V>>)
    ensures forall i :: 0 <= i < |r| ==> r[i] in rows && r[i].timestamp < end
    ensures forall i :: 0 <= i < |rows| && rows[i].timestamp < end ==> rows[i] in r
    ensures |r| <= |rows|
  {
    if rows == [] then [] else (if rows[0].timestamp < end then [rows[0]] else []) + Trim(rows[1..], end)
  }

  /** Trimming keeps arrival order: the kept records of a run of pages are the kept records of each part, in turn. */
  lemma {:induction false} TrimConcat<V>(a: seq<Candle<V>>, b: seq<Candle<V>>, end: int)
    ensures Trim(a + b, end) == Trim(a, end) + Trim(b, end)
  {
    if a == [] {
      assert a + b == b;
    } else {
      assert (a + b)[0] == a[0] && (a + b)[1..] == a[1..] + b;
      TrimConcat(a[1..], b, end);
    }
  }

  /** A run of records wholly before the end passes through the trim unchanged. */
  lemma {:induction false} TrimAllBefore<V>(rows: seq<Candle<V>>, end: int)
    requires forall i :: 0 <= i < |rows| ==> rows[i].timestamp < end
    ensures Trim(rows, end) == rows
  {
    if rows != [] {
      TrimAllBefore(rows[1..], end);
      assert [rows[0]] + rows[1..] == rows;
    }
  }

  lemma FloorDay(t: int)
    ensures (t - t % DAY_MS) % DAY_MS == 0
    ensures t - t % DAY_MS <= t < t - t % DAY_MS + DAY_MS
  {
    assert t - t % DAY_MS == (t / DAY_MS) * DAY_MS;
  }

  /** Every timestamp moved down to the midnight that starts its day. */
  function FloorToDay<V>(rows: seq<Candle<V>>): (r: seq<Candle<V>>)
    ensures |r| == |rows|
    ensures forall i :: 0 <= i < |rows| ==>
      && r[i].values == rows[i].values
      && r[i].timestamp % DAY_MS == 0
      && r[i].timestamp <= rows[i].timestamp < r[i].timestamp + DAY_MS
  {
    forall t: int ensures (t - t % DAY_MS) % DAY_MS == 0 && t - t % DAY_MS <= t < t - t % DAY_MS + DAY_MS {
      FloorDay(t);
    }
    seq(|rows|, i requires 0 <= i < |rows| => Candle(rows[i].timestamp - rows[i].timestamp % DAY_MS, rows[i].values))
  }

  /** What happens after the loop: trim at the end, then floor when the interval asks for it. */
  function Finish<V>(interval: string, rows: seq<Candle<V>>, endTimestamp: int): seq<Candle<V>>
  {
    var kept := Trim(rows, endTimestamp);
    if FloorsToDay(interval) then FloorToDay(kept) else kept
  }

  /**
   * `fetch_OHLCV` on a connector that does or does not declare candle
   * retrieval, for one symbol, between two dates given as epoch seconds.
   * Every request names the symbol and the interval token as its timeframe.
   */
  function FetchOhlcvSpec<V>(hasFetchOhlcv: bool, symbol: string, interval: string, start: int, end: int, script: seq<Page<V>>): Result<Fetched<Candle<V>, CandleRequest>, Error>
  {
    if !hasFetchOhlcv then Err(FetchOhlcvUnsupported)
    else
      match Interval.ConvertInterval(interval)
      case Err(e) => Err(e)
      case Ok(seconds) =>
        match CandlePaging(symbol, interval, start * MS_PER_SECOND, end * MS_PER_SECOND, MS_PER_SECOND * seconds, script)
        case Err(e) => Err(e)
        case Ok(f) => Ok(Fetched(Finish(interval, f.rows, end * MS_PER_SECOND), f.requests))
  }

  method FetchOhlcv<V>(hasFetchOhlcv: bool, symbol: string, interval: string, start: int, end: int, script: seq<Page<V>>)
    returns (r: Result<Fetched<Candle<V>, CandleRequest>, Error>)
    ensures r == FetchOhlcvSpec(hasFetchOhlcv, symbol, interval, start, end, script)
  {
    if !hasFetchOhlcv {
      return Err(FetchOhlcvUnsupported);
    }
    var startTimestamp := start * MS_PER_SECOND;
    var endTimestamp := end * MS_PER_SECOND;
    var seconds := Interval.ConvertInterval(interval);
    if seconds.Err? {
      return Err(seconds.error);
    }
    var multiplier := MS_PER_SECOND * seconds.value;
    ghost var total := CandlePaging(symbol, interval, startTimestamp, endTimestamp, multiplier, script);
    var ohlcvs: seq<Candle<V>> := [];
    var requests: seq<CandleRequest> := [];
    var i := 0;
    assert script[0..] == script;
    ExtendNothing(total);
    while startTimestamp <= endTimestamp
      invariant 0 <= i <= |script|
      invariant Extend(ohlcvs, requests, CandlePaging(symbol, interval, startTimestamp, endTimestamp, multiplier, script[i..])) == total
      decreases |script| - i
    {
      if i == |script| {
        return Err(ResponsesExhausted);
      }
      PagingStep(symbol, interval, startTimestamp, endTimestamp, multiplier, script, i);
      ExtendTwice(ohlcvs, requests, Received(script[i]), [CandleRequest(symbol, interval, startTimestamp)],
        CandlePaging(symbol, interval, startTimestamp + Advance(script[i], multiplier), endTimestamp, multiplier, script[i + 1..]));
      ghost var next := startTimestamp + Advance(script[i], multiplier);
      ghost var got := ohlcvs + Received(script[i]);
      requests := requests + [CandleRequest(symbol, interval, startTimestamp)];
      match script[i] {
        case Success(ohlcv) =>
          ohlcvs := ohlcvs + ohlcv;
          startTimestamp := startTimestamp + if |ohlcv| > 0 then |ohlcv| * multiplier else multiplier;
        case Retryable =>
          // the source logs the error and sleeps `hold` seconds here
      }
      assert ohlcvs == got && startTimestamp == next;
      i := i + 1;
    }
    assert ohlcvs + [] == ohlcvs && requests + [] == requests;
    r := Ok(Fetched(Finish(interval, ohlcvs, endTimestamp), requests));
  }

  /** One turn of the loop, seen from the answers not yet consumed. */
  lemma PagingStep<V>(symbol: string, timeframe: string, cursor: int, end: int, multiplier: int, script: seq<Page<V>>, i: nat)
    requires cursor <= end && i < |script|
    ensures CandlePaging(symbol, timeframe, cursor, end, multiplier, script[i..])
         == Extend(Received(script[i]), [CandleRequest(symbol, timeframe, cursor)],
                   CandlePaging(symbol, timeframe, cursor + Advance(script[i], multiplier), end, multiplier, script[i + 1..]))
  {
    assert script[i..][0] == script[i] && script[i..][1..] == script[i + 1..];
  }

  lemma {:induction false} AppendPage<V>(pages: seq<Page<V>>, page: Page<V>, multiplier: int)
    ensures Collected(pages + [page]) == Collected(pages) + Received(page)
    ensures Advanced(pages + [page], multiplier) == Advanced(pages, multiplier) + Advance(page, multiplier)
    ensures Successes(pages + [page]) == Successes(pages) + (if page.Success? then 1 else 0)
  {
    if pages == [] {
      assert [page][1..] == [];
    } else {
      assert (pages + [page])[1..] == pages[1..] + [page];
      AppendPage(pages[1..], page, multiplier);
    }
  }

  /**
   * The loop's trace: the records are the pages answered so far, in order;
   * request j is sent at the start plus the movement of the first j answers,
   * never past the end; the cursor after the last answer is past the end.
   */
  lemma {:induction false} PagingTrace<V>(symbol: string, timeframe: string, cursor: int, end: int, multiplier: int, script: seq<Page<V>>)
    decreases |script|
    requires CandlePaging(symbol, timeframe, cursor, end, multiplier, script).Ok?
    ensures var f := CandlePaging(symbol, timeframe, cursor, end, multiplier, script).value;
      && |f.requests| <= |script|
      && f.rows == Collected(script[..|f.requests|])
      && (forall j :: 0 <= j < |f.requests| ==>
            f.requests[j] == CandleRequest(symbol, timeframe, cursor + Advanced(script[..j], multiplier)) && f.requests[j].since <= end)
      && cursor + Advanced(script[..|f.requests|], multiplier) > end
  {
    var f := CandlePaging(symbol, timeframe, cursor, end, multiplier, script).value;
    if cursor > end {
      assert script[..0] == [];
    } else {
      var next := cursor + Advance(script[0], multiplier);
      PagingTrace(symbol, timeframe, next, end, multiplier, script[1..]);
      var g := CandlePaging(symbol, timeframe, next, end, multiplier, script[1..]).value;
      assert f.rows == Received(script[0]) + g.rows;
      assert f.requests == [CandleRequest(symbol, timeframe, cursor)] + g.requests;
      var n := |f.requests|;
      assert script[..n][0] == script[0] && script[..n][1..] == script[1..][..n - 1];
      forall j | 0 <= j < n
        ensures f.requests[j] == CandleRequest(symbol, timeframe, cursor + Advanced(script[..j], multiplier)) && f.requests[j].since <= end
      {
        if j == 0 {
          assert script[..0] == [];
        } else {
          assert f.requests[j] == g.requests[j - 1];
          assert script[..j][0] == script[0] && script[..j][1..] == script[1..][..j - 1];
        }
      }
    }
  }

  /**
   * Consecutive requests: after a retryable error the same request is sent
   * again; after a page of k records `since` moves k intervals on (one for an
   * empty page), so it strictly increases when the interval is positive.
   */
  lemma ConsecutiveRequests<V>(symbol: string, timeframe: string, cursor: int, end: int, multiplier: int, script: seq<Page<V>>, j: nat)
    requires CandlePaging(symbol, timeframe, cursor, end, multiplier, script).Ok?
    requires j + 1 < |CandlePaging(symbol, timeframe, cursor, end, multiplier, script).value.requests|
    ensures var q := CandlePaging(symbol, timeframe, cursor, end, multiplier, script).value.requests;
      && (script[j].Retryable? ==> q[j + 1] == q[j])
      && (script[j].Success? ==> q[j + 1].since == q[j].since + if |script[j].records| > 0 then |script[j].records| * multiplier else multiplier)
      && (script[j].Success? && multiplier > 0 ==> q[j + 1].since > q[j].since)
  {
    var q := CandlePaging(symbol, timeframe, cursor, end, multiplier, script).value.requests;
    PagingTrace(symbol, timeframe, cursor, end, multiplier, script);
    assert q[j] == CandleRequest(symbol, timeframe, cursor + Advanced(script[..j], multiplier));
    assert q[j + 1] == CandleRequest(symbol, timeframe, cursor + Advanced(script[..j + 1], multiplier));
    AppendPage(script[..j], script[j], multiplier);
    assert script[..j + 1] == script[..j] + [script[j]];
    assert q[j + 1].since == q[j].since + Advance(script[j], multiplier);
    if script[j].Success? && multiplier > 0 && |script[j].records| > 0 {
      MultiplyAtLeast(|script[j].records|, multiplier);
    }
  }

  /**
   * Progress: with a positive interval, k successful answers fit in the
   * window, (k - 1) intervals at most from the start to the end.
   */
  lemma {:induction false} SuccessfulPagesBound<V>(symbol: string, timeframe: string, cursor: int, end: int, multiplier: int, script: seq<Page<V>>)
    decreases |script|
    requires multiplier > 0
    requires CandlePaging(symbol, timeframe, cursor, end, multiplier, script).Ok?
    ensures var k := Successes(script[..|CandlePaging(symbol, timeframe, cursor, end, multiplier, script).value.requests|]);
      k == 0 || (k - 1) * multiplier <= end - cursor
  {
    var f := CandlePaging(symbol, timeframe, cursor, end, multiplier, script).value;
    if cursor > end {
      assert script[..0] == [];
    } else {
      var page := script[0];
      var next := cursor + Advance(page, multiplier);
      SuccessfulPagesBound(symbol, timeframe, next, end, multiplier, script[1..]);
      var g := CandlePaging(symbol, timeframe, next, end, multiplier, script[1..]).value;
      var n := |f.requests|;
      assert n == 1 + |g.requests|;
      assert script[..n][0] == page && script[..n][1..] == script[1..][..n - 1];
      var k' := Successes(script[1..][..n - 1]);
      if page.Success? {
        assert Advance(page, multiplier) >= multiplier by {
          if |page.records| > 0 {
            MultiplyAtLeast(|page.records|, multiplier);
          }
        }
        BoundStep(k', multiplier, end - cursor, Advance(page, multiplier));
      }
    }
  }

  lemma MultiplyAtLeast(k: int, m: int)
    requires k >= 1 && m > 0
    ensures k * m >= m
  {
  }

  lemma BoundStep(k: nat, m: int, room: int, step: int)
    requires m > 0 && step >= m && room >= 0
    requires k == 0 || (k - 1) * m <= room - step
    ensures k * m <= room
  {
    if k > 0 {
      assert (k - 1) * m + m == k * m;
    }
  }

  /** A run of k retryable errors. */
  function Retries<V>(k: nat): seq<Page<V>>
  {
    if k == 0 then [] else [Retryable] + Retries(k - 1)
  }

  /** k copies of one request. */
  function Repeat<Q>(request: Q, k: nat): seq<Q>
  {
    if k == 0 then [] else [request] + Repeat(request, k - 1)
  }

  /** Retryable errors in front of the answers only repeat the pending request. */
  lemma {:induction false} RetriesOnlyRepeatRequests<V>(symbol: string, timeframe: string, cursor: int, end: int, multiplier: int, k: nat, rest: seq<Page<V>>)
    requires cursor <= end
    ensures CandlePaging(symbol, timeframe, cursor, end, multiplier, Retries<V>(k) + rest)
         == Extend([], Repeat(CandleRequest(symbol, timeframe, cursor), k), CandlePaging(symbol, timeframe, cursor, end, multiplier, rest))
  {
    var tail := CandlePaging(symbol, timeframe, cursor, end, multiplier, rest);
    if k == 0 {
      assert Retries<V>(0) + rest == rest;
      if tail.Ok? {
        assert [] + tail.value.rows == tail.value.rows && [] + tail.value.requests == tail.value.requests;
      }
    } else {
      var s := Retries<V>(k) + rest;
      var none: seq<Candle<V>> := [];
      assert s[0] == Retryable && s[1..] == Retries<V>(k - 1) + rest;
      assert Received(s[0]) == none && Advance(s[0], multiplier) == 0;
      var request := CandleRequest(symbol, timeframe, cursor);
      assert CandlePaging(symbol, timeframe, cursor, end, multiplier, s) == Extend(none, [request], CandlePaging(symbol, timeframe, cursor, end, multiplier, s[1..]));
      RetriesOnlyRepeatRequests(symbol, timeframe, cursor, end, multiplier, k - 1, rest);
      ExtendTwice(none, [request], none, Repeat(request, k - 1), tail);
      assert none + none == none && [request] + Repeat(request, k - 1) == Repeat(request, k);
    }
  }

  /**
   * The candles a fetch returns are the answered pages' records, trimmed at
   * the end and floored when the interval asks for it; nothing at or past the
   * end survives; every request asks for the symbol at the interval and
   * stays within the window.
   */
  lemma FetchedCandles<V>(hasFetchOhlcv: bool, symbol: string, interval: string, start: int, end: int, script: seq<Page<V>>)
    requires FetchOhlcvSpec(hasFetchOhlcv, symbol, interval, start, end, script).Ok?
    ensures var f := FetchOhlcvSpec(hasFetchOhlcv, symbol, interval, start, end, script).value;
      var raw := Collected(script[..|f.requests|]);
      && |f.requests| <= |script|
      && f.rows == Finish(interval, raw, end * MS_PER_SECOND)
      && (forall i :: 0 <= i < |f.rows| ==> f.rows[i].timestamp < end * MS_PER_SECOND)
      && (FloorsToDay(interval) ==> forall i :: 0 <= i < |f.rows| ==> f.rows[i].timestamp % DAY_MS == 0)
      && (!FloorsToDay(interval) ==> forall i :: 0 <= i < |f.rows| ==> f.rows[i] in raw)
      && (!FloorsToDay(interval) ==> forall i :: 0 <= i < |raw| && raw[i].timestamp < end * MS_PER_SECOND ==> raw[i] in f.rows)
      && (forall j :: 0 <= j < |f.requests| ==>
            f.requests[j].symbol == symbol && f.requests[j].timeframe == interval && f.requests[j].since <= end * MS_PER_SECOND)
      && (|f.requests| > 0 ==> f.requests[0].since == start * MS_PER_SECOND)
  {
    var seconds := Interval.ConvertInterval(interval).value;
    var multiplier := MS_PER_SECOND * seconds;
    PagingTrace(symbol, interval, start * MS_PER_SECOND, end * MS_PER_SECOND, multiplier, script);
    var f := FetchOhlcvSpec(hasFetchOhlcv, symbol, interval, start, end, script).value;
    var raw := Collected(script[..|f.requests|]);
    var kept := Trim(raw, end * MS_PER_SECOND);
    assert |f.requests| > 0 ==> script[..0] == [];
    forall i | 0 <= i < |f.rows|
      ensures f.rows[i].timestamp < end * MS_PER_SECOND
    {
      assert kept[i] in kept;
    }
  }

  /** With the start after the end no page is requested and nothing is returned. */
  lemma EmptyWindow<V>(hasFetchOhlcv: bool, symbol: string, interval: string, start: int, end: int, script: seq<Page<V>>)
    requires hasFetchOhlcv && Interval.ConvertInterval(interval).Ok?
    requires start > end
    ensures FetchOhlcvSpec(hasFetchOhlcv, symbol, interval, start, end, script) == Ok(Fetched([], []))
  {
  }

  /**
   * Retries are invisible in the result: k retryable errors before the
   * answers give the same candles, with the first request sent k more times.
   */
  lemma RetriesDoNotChangeCandles<V>(hasFetchOhlcv: bool, symbol: string, interval: string, start: int, end: int, k: nat, rest: seq<Page<V>>)
    requires start <= end
    ensures FetchOhlcvSpec(hasFetchOhlcv, symbol, interval, start, end, Retries<V>(k) + rest)
         == match FetchOhlcvSpec(hasFetchOhlcv, symbol, interval, start, end, rest)
            case Ok(f) => Ok(Fetched(f.rows, Repeat(CandleRequest(symbol, interval, start * MS_PER_SECOND), k) + f.requests))
            case Err(e) => Err(e)
  {
    if hasFetchOhlcv && Interval.ConvertInterval(interval).Ok? {
      var multiplier := MS_PER_SECOND * Interval.ConvertInterval(interval).value;
      assert start * MS_PER_SECOND <= end * MS_PER_SECOND;
      RetriesOnlyRepeatRequests(symbol, interval, start * MS_PER_SECOND, end * MS_PER_SECOND, multiplier, k, rest);
      var tail := CandlePaging(symbol, interval, start * MS_PER_SECOND, end * MS_PER_SECOND, multiplier, rest);
      if tail.Ok? {
        assert [] + tail.value.rows == tail.value.rows;
      }
    }
  }

  /** The floor also applies to minute intervals, not to hour intervals. */
  lemma FloorExamples()
    ensures FloorsToDay("1d") && FloorsToDay("1w") && FloorsToDay("15m")
    ensures !FloorsToDay("4h")
  {
  }
}
