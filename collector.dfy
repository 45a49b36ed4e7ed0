/**
 * The public entry points of the collector that compose the pieces:
 * `get_ohlcv` (dispatch, then candle fetch) and `get_all` (the three
 * fetches, then alignment). The validation snapshot is passed in as a value,
 * and the upstream services as the sequences of their answers.
 */
module Collector {
  import opened Wrappers
  import opened Errors
  import opened Schema
  import Exchanges
  import Validation
  import Candles
  import Levels
  import Aligner

  /** `get_ohlcv`: select the connector for the exchange, then fetch its candles for the symbol. */
  function GetOhlcvSpec<V>(exchange: string, symbol: string, futures: bool, candleCapable: set<Exchanges.Connector>,
                           interval: string, start: int, end: int, script: seq<Candles.Page<V>>)
    : Result<Fetched<Candle<V>, Candles.CandleRequest>, Error>
  {
    match Exchanges.SelectConnector(exchange, futures)
    case Err(e) => Err(e)
    case Ok(connector) => Candles.FetchOhlcvSpec(connector in candleCapable, symbol, interval, start, end, script)
  }

  method GetOhlcv<V>(exchange: string, symbol: string, futures: bool, candleCapable: set<Exchanges.Connector>,
                     interval: string, start: int, end: int, script: seq<Candles.Page<V>>)
    returns (r: Result<Fetched<Candle<V>, Candles.CandleRequest>, Error>)
    ensures r == GetOhlcvSpec(exchange, symbol, futures, candleCapable, interval, start, end, script)
  {
    var connector := Exchanges.SelectConnector(exchange, futures);
    if connector.Err? {
      return Err(connector.error);
    }
    r := Candles.FetchOhlcv(connector.value in candleCapable, symbol, interval, start, end, script);
  }

  /** The answers each upstream gives during one `get_all` call. */
  datatype Upstream<V> = Upstream(oiPages: seq<Levels.Response<V>>, frPages: seq<Levels.Response<V>>,
                                  candlePages: seq<Candles.Page<V>>)

  /**
   * The outcome of `get_all`: the aligned rows it returns, and the requests it
   * sent to the open-interest, funding-rate and candle services, in order.
   */
  datatype Gathered<V> = Gathered(rows: seq<Aligner.AlignedRow<V>>, oiRequests: seq<Levels.Request>,
                                  frRequests: seq<Levels.Request>, candleRequests: seq<Candles.CandleRequest>)

  /** `get_all`: open interest, funding rate and candles, inner-joined on timestamp. */
  function GetAllSpec<V>(index: Validation.ValidationIndex, exchange: string, symbolCcxt: string, symbolCoinglass: string,
                         interval: string, start: int, end: int, futures: bool,
                         candleCapable: set<Exchanges.Connector>, upstream: Upstream<V>)
    : Result<Gathered<V>, Error>
  {
    match Levels.GetLevelSeriesSpec(index, Levels.Query(Levels.OI, exchange, symbolCoinglass, interval), start, end, upstream.oiPages)
    case Err(e) => Err(e)
    case Ok(oi) =>
      match Levels.GetLevelSeriesSpec(index, Levels.Query(Levels.FR, exchange, symbolCoinglass, interval), start, end, upstream.frPages)
      case Err(e) => Err(e)
      case Ok(fr) =>
        match GetOhlcvSpec(exchange, symbolCcxt, futures, candleCapable, interval, start, end, upstream.candlePages)
        case Err(e) => Err(e)
        case Ok(ohlcv) => Ok(Gathered(Aligner.Align(ohlcv.rows, oi.rows, fr.rows), oi.requests, fr.requests, ohlcv.requests))
  }

  method GetAll<V>(index: Validation.ValidationIndex, exchange: string, symbolCcxt: string, symbolCoinglass: string,
                   interval: string, start: int, end: int, futures: bool,
                   candleCapable: set<Exchanges.Connector>, upstream: Upstream<V>)
    returns (r: Result<Gathered<V>, Error>)
    ensures r == GetAllSpec(index, exchange, symbolCcxt, symbolCoinglass, interval, start, end, futures, candleCapable, upstream)
  {
    var oiData := Levels.GetLevelSeries(index, Levels.Query(Levels.OI, exchange, symbolCoinglass, interval), start, end, upstream.oiPages);
    if oiData.Err? {
      return Err(oiData.error);
    }
    var frData := Levels.GetLevelSeries(index, Levels.Query(Levels.FR, exchange, symbolCoinglass, interval), start, end, upstream.frPages);
    if frData.Err? {
      return Err(frData.error);
    }
    var ohlcvData := GetOhlcv(exchange, symbolCcxt, futures, candleCapable, interval, start, end, upstream.candlePages);
    if ohlcvData.Err? {
      return Err(ohlcvData.error);
    }
    var rows := Aligner.Align(ohlcvData.value.rows, oiData.value.rows, frData.value.rows);
    r := Ok(Gathered(rows, oiData.value.requests, frData.value.requests, ohlcvData.value.requests));
  }

  /**
   * A successful `get_all` had a supported exchange and a validated
   * instrument, and each of its rows is complete and lies before the end.
   */
  lemma AlignedSeriesShape<V>(index: Validation.ValidationIndex, exchange: string, symbolCcxt: string, symbolCoinglass: string,
                              interval: string, start: int, end: int, futures: bool,
                              candleCapable: set<Exchanges.Connector>, upstream: Upstream<V>)
    requires GetAllSpec(index, exchange, symbolCcxt, symbolCoinglass, interval, start, end, futures, candleCapable, upstream).Ok?
    ensures exchange in Exchanges.SupportedExchanges
    ensures Validation.Validate(index, exchange, symbolCoinglass)
    ensures var rows := GetAllSpec(index, exchange, symbolCcxt, symbolCoinglass, interval, start, end, futures, candleCapable, upstream).value.rows;
      forall p :: 0 <= p < |rows| ==> Aligner.Complete(rows[p]) && rows[p].timestamp < end * MS_PER_SECOND
  {
    var connector := Exchanges.SelectConnector(exchange, futures).value;
    var oi := Levels.GetLevelSeriesSpec(index, Levels.Query(Levels.OI, exchange, symbolCoinglass, interval), start, end, upstream.oiPages).value;
    var fr := Levels.GetLevelSeriesSpec(index, Levels.Query(Levels.FR, exchange, symbolCoinglass, interval), start, end, upstream.frPages).value;
    var ohlcv := Candles.FetchOhlcvSpec(connector in candleCapable, symbolCcxt, interval, start, end, upstream.candlePages).value;
    Candles.FetchedCandles(connector in candleCapable, symbolCcxt, interval, start, end, upstream.candlePages);
    Aligner.AlignedRowsFromCandles(ohlcv.rows, oi.rows, fr.rows);
  }

  /**
   * Which symbol each service is asked for: the candle connector gets the
   * exchange's own symbol at the interval, while both history endpoints get
   * the metadata symbol, the exchange and the interval.
   */
  lemma RequestsNameTheirSymbols<V>(index: Validation.ValidationIndex, exchange: string, symbolCcxt: string, symbolCoinglass: string,
                                    interval: string, start: int, end: int, futures: bool,
                                    candleCapable: set<Exchanges.Connector>, upstream: Upstream<V>)
    requires GetAllSpec(index, exchange, symbolCcxt, symbolCoinglass, interval, start, end, futures, candleCapable, upstream).Ok?
    ensures var g := GetAllSpec(index, exchange, symbolCcxt, symbolCoinglass, interval, start, end, futures, candleCapable, upstream).value;
      && (forall j :: 0 <= j < |g.candleRequests| ==>
            g.candleRequests[j].symbol == symbolCcxt && g.candleRequests[j].timeframe == interval)
      && (forall j :: 0 <= j < |g.oiRequests| ==>
            g.oiRequests[j].endpoint == Levels.Endpoint(Levels.OI) && g.oiRequests[j].exchange == exchange
            && g.oiRequests[j].symbol == symbolCoinglass && g.oiRequests[j].interval == interval)
      && (forall j :: 0 <= j < |g.frRequests| ==>
            g.frRequests[j].endpoint == Levels.Endpoint(Levels.FR) && g.frRequests[j].exchange == exchange
            && g.frRequests[j].symbol == symbolCoinglass && g.frRequests[j].interval == interval)
  {
    var connector := Exchanges.SelectConnector(exchange, futures).value;
    Levels.LevelSeriesShape(index, Levels.Query(Levels.OI, exchange, symbolCoinglass, interval), start, end, upstream.oiPages);
    Levels.LevelSeriesShape(index, Levels.Query(Levels.FR, exchange, symbolCoinglass, interval), start, end, upstream.frPages);
    Candles.FetchedCandles(connector in candleCapable, symbolCcxt, interval, start, end, upstream.candlePages);
  }

  /** The OI fetch comes first: an unvalidated instrument fails before anything else is looked at. */
  lemma UnsupportedInstrumentFirst<V>(index: Validation.ValidationIndex, exchange: string, symbolCcxt: string, symbolCoinglass: string,
                                      interval: string, start: int, end: int, futures: bool,
                                      candleCapable: set<Exchanges.Connector>, upstream: Upstream<V>)
    requires !Validation.Validate(index, exchange, symbolCoinglass)
    ensures GetAllSpec(index, exchange, symbolCcxt, symbolCoinglass, interval, start, end, futures, candleCapable, upstream)
         == Err(UnsupportedInstrument)
  {
  }
}
