/**
 * The open-interest and funding-rate fetchers `get_oi_ohlc` and
 * `get_fr_ohlc`. The two are the same loop over a different endpoint and
 * column prefix: after validating the instrument, a cursor in epoch seconds
 * walks the window in fixed strides of 4500 intervals, each request asking
 * for up to 4500 points from the cursor to the end. The stride does not depend
 * on how many points came back, and a failed request is not retried.
 *
 * The metadata service is replaced by the sequence of its answers, in call
 * order; running out of answers stops the model with `ResponsesExhausted`.
 */
module Levels {
  import opened Wrappers
  import opened Errors
  import opened Schema
  import Interval
  import Validation

  /** Which history a fetch reads. */
  datatype Kind = OI | FR

  /** The history endpoint, relative to the futures API base. */
  function Endpoint(kind: Kind): string
  {
    match kind
    case OI => "openInterest/ohlc-history"
    case FR => "fundingRate/ohlc-history"
  }

  /** The number of points asked for per request, and the stride in intervals. */
  const PAGE_LIMIT: int := 4500

  /** One raw point of a page: `t` in epoch seconds and the four values. */
  datatype Point<V> = Point(t: int, o: Option<V>, h: Option<V>, l: Option<V>, c: Option<V>)

  /** One answer of the service: the page's points, or a request that raised. */
  datatype Response<V> = Points(data: seq<Point<V>>) | Failed

  /** What stays fixed over one fetch. */
  datatype Query = Query(kind: Kind, exchange: string, symbol: string, interval: string)

  /** The parameters of one history request. */
  datatype Request = Request(endpoint: string, exchange: string, symbol: string, interval: string,
                             startTime: int, endTime: int, limit: int)

  function RequestAt(q: Query, startTime: int, endTime: int): Request
  {
    Request(Endpoint(q.kind), q.exchange, q.symbol, q.interval, startTime, endTime, PAGE_LIMIT)
  }

  /** The renamed row of a point; its timestamp goes from seconds to milliseconds. */
  function RenamePoint<V>(p: Point<V>): LevelRow<V>
  {
    LevelRow(p.t * MS_PER_SECOND, Ohlc(p.o, p.h, p.l, p.c))
  }

  function Rename<V>(data: seq<Point<V>>): seq<LevelRow<V>>
  {
    seq(|data|, i requires 0 <= i < |data| => RenamePoint(data[i]))
  }

  /** The renamed rows of a run of answers, concatenated in order. */
  function Renamed<V>(pages: seq<Response<V>>): seq<LevelRow<V>>
  {
    if pages == [] then [] else (if pages[0].Points? then Rename(pages[0].data) else []) + Renamed(pages[1..])
  }

  /**
   * The paging loop from `cursor` on. An empty page has no 't' column, so
   * selecting it raises, as does a failed request.
   */
  function LevelPaging<V>(q: Query, cursor: int, end: int, increment: int, pages: seq<Response<V>>): (r: Result<Fetched<LevelRow<V>, Request>, Error>)
    ensures r.Ok? ==> |r.value.requests| <= |pages|
    decreases |pages|
  {
    if cursor > end then Ok(Fetched([], []))
    else if pages == [] then Err(ResponsesExhausted)
    else
      match pages[0]
      case Failed => Err(RequestFailed)
      case Points(data) =>
        if data == [] then Err(MissingTimestamp)
        else Extend(Rename(data), [RequestAt(q, cursor, end)], LevelPaging(q, cursor + increment, end, increment, pages[1..]))
  }

  /** `get_oi_ohlc` or `get_fr_ohlc` between two dates given as epoch seconds. */
  function GetLevelSeriesSpec<V>(index: Validation.ValidationIndex, q: Query, start: int, end: int, pages: seq<Response<V>>): Result<Fetched<LevelRow<V>, Request>, Error>
  {
    if !Validation.Validate(index, q.exchange, q.symbol) then Err(UnsupportedInstrument)
    else
      match Interval.ConvertInterval(q.interval)
      case Err(e) => Err(e)
      case Ok(seconds) => LevelPaging(q, start, end, PAGE_LIMIT * seconds, pages)
  }

  /** One turn of the loop, seen from the answers not yet consumed. */
  lemma LevelStep<V>(q: Query, cursor: int, end: int, increment: int, pages: seq<Response<V>>, i: nat)
    requires cursor <= end && i < |pages|
    ensures LevelPaging(q, cursor, end, increment, pages[i..])
         == match pages[i]
            case Failed => Err(RequestFailed)
            case Points(data) =>
              if data == [] then Err(MissingTimestamp)
              else Extend(Rename(data), [RequestAt(q, cursor, end)], LevelPaging(q, cursor + increment, end, increment, pages[i + 1..]))
  {
    assert pages[i..][0] == pages[i] && pages[i..][1..] == pages[i + 1..];
  }

  method GetLevelSeries<V>(index: Validation.ValidationIndex, q: Query, start: int, end: int, pages: seq<Response<V>>)
    returns (r: Result<Fetched<LevelRow<V>, Request>, Error>)
    ensures r == GetLevelSeriesSpec(index, q, start, end, pages)
  {
    if !Validation.Validate(index, q.exchange, q.symbol) {
      return Err(UnsupportedInstrument);
    }
    var startTimestamp := start;
    var endTimestamp := end;
    var seconds := Interval.ConvertInterval(q.interval);
    if seconds.Err? {
      return Err(seconds.error);
    }
    var increment := PAGE_LIMIT * seconds.value;
    ghost var total := LevelPaging(q, startTimestamp, endTimestamp, increment, pages);
    var ret: seq<LevelRow<V>> := [];
    var requests: seq<Request> := [];
    var i := 0;
    assert pages[0..] == pages;
    ExtendNothing(total);
    while startTimestamp <= endTimestamp
      invariant 0 <= i <= |pages|
      invariant Extend(ret, requests, LevelPaging(q, startTimestamp, endTimestamp, increment, pages[i..])) == total
      decreases |pages| - i
    {
      if i == |pages| {
        return Err(ResponsesExhausted);
      }
      LevelStep(q, startTimestamp, endTimestamp, increment, pages, i);
      var request := RequestAt(q, startTimestamp, endTimestamp);
      match pages[i] {
        case Failed =>
          return Err(RequestFailed);
        case Points(data) =>
          if data == [] {
            return Err(MissingTimestamp);
          }
          var df := Rename(data);
          ExtendTwice(ret, requests, df, [request],
            LevelPaging(q, startTimestamp + increment, endTimestamp, increment, pages[i + 1..]));
          ret := ret + df;
      }
      requests := requests + [request];
      startTimestamp := startTimestamp + increment;
      i := i + 1;
    }
    assert ret + [] == ret && requests + [] == requests;
    r := Ok(Fetched(ret, requests));
  }

  lemma Stride(j: int, increment: int)
    ensures (j - 1) * increment + increment == j * increment
  {
  }

  /**
   * The loop's trace: request j starts j strides after the cursor, always
   * ends at the end, asks for 4500 points and lies within the window; the
   * stride after the last request leaves the window; the rows are the renamed
   * pages in order.
   */
  lemma {:induction false} LevelTrace<V>(q: Query, cursor: int, end: int, increment: int, pages: seq<Response<V>>)
    requires LevelPaging(q, cursor, end, increment, pages).Ok?
    ensures var f := LevelPaging(q, cursor, end, increment, pages).value;
      var n := |f.requests|;
      && f.rows == Renamed(pages[..n])
      && (forall j :: 0 <= j < n ==> f.requests[j] == RequestAt(q, cursor + j * increment, end))
      && (forall j :: 0 <= j < n ==> cursor + j * increment <= end)
      && cursor + n * increment > end
    decreases |pages|
  {
    var f := LevelPaging(q, cursor, end, increment, pages).value;
    if cursor > end {
      assert pages[..0] == [];
    } else {
      LevelTrace(q, cursor + increment, end, increment, pages[1..]);
      var g := LevelPaging(q, cursor + increment, end, increment, pages[1..]).value;
      var n := |f.requests|;
      assert f.rows == Rename(pages[0].data) + g.rows;
      assert f.requests == [RequestAt(q, cursor, end)] + g.requests;
      assert pages[..n][0] == pages[0] && pages[..n][1..] == pages[1..][..n - 1];
      forall j | 0 <= j < n
        ensures f.requests[j] == RequestAt(q, cursor + j * increment, end) && cursor + j * increment <= end
      {
        if j > 0 {
          Stride(j, increment);
          assert f.requests[j] == g.requests[j - 1];
        }
      }
      Stride(n, increment);
    }
  }

  lemma MulLessInverse(a: int, b: int, d: int)
    requires d > 0 && a * d < b * d
    ensures a < b
  {
  }

  lemma CountFromBounds(room: int, increment: int, n: int)
    requires increment > 0 && n >= 1
    requires (n - 1) * increment <= room < n * increment
    ensures room / increment == n - 1
  {
    var k := room / increment;
    assert room == k * increment + room % increment;
    assert (k + 1) * increment == k * increment + increment;
    MulLessInverse(n - 1, k + 1, increment);
    MulLessInverse(k, n, increment);
  }

  /** With a positive stride the fetch sends (end - start) div stride + 1 requests, none for an empty window. */
  lemma RequestCount<V>(q: Query, cursor: int, end: int, increment: int, pages: seq<Response<V>>)
    requires increment > 0
    requires LevelPaging(q, cursor, end, increment, pages).Ok?
    ensures |LevelPaging(q, cursor, end, increment, pages).value.requests|
         == if cursor <= end then (end - cursor) / increment + 1 else 0
  {
    LevelTrace(q, cursor, end, increment, pages);
    var n := |LevelPaging(q, cursor, end, increment, pages).value.requests|;
    if cursor <= end {
      assert n != 0;
      CountFromBounds(end - cursor, increment, n);
    }
  }

  /**
   * No retry and no partial result: a failed request or an empty page aborts
   * the whole fetch when every earlier answer was a non-empty page.
   */
  lemma {:induction false} BadPageAborts<V>(q: Query, cursor: int, end: int, increment: int, pages: seq<Response<V>>, j: nat)
    requires j < |pages| && (pages[j].Failed? || pages[j].data == [])
    requires forall l :: 0 <= l < j ==> pages[l].Points? && pages[l].data != []
    requires forall l :: 0 <= l <= j ==> cursor + l * increment <= end
    ensures LevelPaging(q, cursor, end, increment, pages) == Err(if pages[j].Failed? then RequestFailed else MissingTimestamp)
    decreases j
  {
    assert cursor + 0 * increment <= end;
    if j > 0 {
      forall l | 0 <= l <= j - 1
        ensures (cursor + increment) + l * increment <= end
      {
        Stride(l + 1, increment);
        assert cursor + (l + 1) * increment <= end;
      }
      assert pages[1..][j - 1] == pages[j];
      BadPageAborts(q, cursor + increment, end, increment, pages[1..], j - 1);
    }
  }

  /**
   * What a successful `get_oi_ohlc` or `get_fr_ohlc` promises: the instrument
   * was validated; request j starts j strides of 4500 intervals after the
   * start, independent of page sizes; with a positive stride there are
   * (end - start) div stride + 1 of them; the rows are the renamed pages.
   */
  lemma LevelSeriesShape<V>(index: Validation.ValidationIndex, q: Query, start: int, end: int, pages: seq<Response<V>>)
    requires GetLevelSeriesSpec(index, q, start, end, pages).Ok?
    ensures Validation.Validate(index, q.exchange, q.symbol)
    ensures var f := GetLevelSeriesSpec(index, q, start, end, pages).value;
      var increment := PAGE_LIMIT * Interval.ConvertInterval(q.interval).value;
      var n := |f.requests|;
      && f.rows == Renamed(pages[..n])
      && (forall j :: 0 <= j < n ==> f.requests[j] == RequestAt(q, start + j * increment, end))
      && (increment > 0 ==> n == if start <= end then (end - start) / increment + 1 else 0)
  {
    var increment := PAGE_LIMIT * Interval.ConvertInterval(q.interval).value;
    LevelTrace(q, start, end, increment, pages);
    if increment > 0 {
      RequestCount(q, start, end, increment, pages);
    }
  }
}
