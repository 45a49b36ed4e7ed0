/**
 * The exchange registry of `get_ohlcv`: an exchange name and a futures flag
 * select one trading-data connector out of a closed set.
 */
module Exchanges {
  import opened Wrappers
  import opened Errors

  /** The connectors the collector can construct. */
  datatype Connector =
    | Okx | Kraken | KrakenFutures | Huobi | Deribit | Bybit
    | Binance | BinanceCoinM | Bitget | Bitmex

  /** The exchange names `get_ohlcv` accepts. */
  const SupportedExchanges: set<string> :=
    {"OKX", "Kraken", "Huobi", "Deribit", "Bybit", "Binance", "Bitget", "Bitmex"}

  /** The exchanges whose connector depends on the futures flag. */
  const SplitExchanges: set<string> := {"Kraken", "Binance"}

  /** The dispatch of `get_ohlcv`. */
  function SelectConnector(exchange: string, futures: bool): (r: Result<Connector, Error>)
    ensures r.Ok? <==> exchange in SupportedExchanges
    ensures r.Err? ==> r.error == UnsupportedExchange
  {
    if exchange == "OKX" then Ok(Okx)
    else if exchange == "Kraken" then (if futures then Ok(KrakenFutures) else Ok(Kraken))
    else if exchange == "Huobi" then Ok(Huobi)
    else if exchange == "Deribit" then Ok(Deribit)
    else if exchange == "Bybit" then Ok(Bybit)
    else if exchange == "Binance" then (if futures then Ok(BinanceCoinM) else Ok(Binance))
    else if exchange == "Bitget" then Ok(Bitget)
    else if exchange == "Bitmex" then Ok(Bitmex)
    else Err(UnsupportedExchange)
  }

  /** The exchange name that selects a connector. */
  function ExchangeName(c: Connector): string
  {
    match c
    case Okx => "OKX"
    case Kraken | KrakenFutures => "Kraken"
    case Huobi => "Huobi"
    case Deribit => "Deribit"
    case Bybit => "Bybit"
    case Binance | BinanceCoinM => "Binance"
    case Bitget => "Bitget"
    case Bitmex => "Bitmex"
  }

  /** Whether a connector is the futures variant of a split exchange. */
  predicate IsFuturesConnector(c: Connector)
  {
    c == KrakenFutures || c == BinanceCoinM
  }

  /** The futures flag changes the connector exactly for Kraken and Binance. */
  lemma FuturesFlagMatters(exchange: string)
    ensures SelectConnector(exchange, true) != SelectConnector(exchange, false) <==> exchange in SplitExchanges
  {
  }

  /** Every connector is selected by its own exchange name and flag, and by nothing else. */
  lemma SelectionRoundTrip(c: Connector, exchange: string, futures: bool)
    ensures SelectConnector(ExchangeName(c), IsFuturesConnector(c)) == Ok(c)
    ensures SelectConnector(exchange, futures) == Ok(c) ==>
      exchange == ExchangeName(c) && (exchange in SplitExchanges ==> futures == IsFuturesConnector(c))
  {
  }
}
