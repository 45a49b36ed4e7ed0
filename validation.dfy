/**
 * The instrument validator: a snapshot of which instruments each exchange
 * supports, taken once when the collector is built, and a lookup on it.
 */
module Validation {

  /** One entry of the snapshot; only its identifier takes part in validation. */
  datatype Instrument = Instrument(instrumentId: string)

  /** Exchange name to the instruments listed for it. */
  type ValidationIndex = map<string, seq<Instrument>>

  /** The search of `validate`: scan in order, stop at the first exact match. */
  function Listed(instruments: seq<Instrument>, symbol: string): (r: bool)
    ensures r <==> exists i :: 0 <= i < |instruments| && instruments[i].instrumentId == symbol
  {
    if instruments == [] then false
    else if instruments[0].instrumentId == symbol then true
    else
      var rest := Listed(instruments[1..], symbol);
      assert forall i :: 1 <= i < |instruments| ==> instruments[i] == instruments[1..][i - 1];
      rest
  }

  /**
   * `validate`: false for an exchange missing from the snapshot (no lookup
   * error), otherwise whether some listed identifier equals the symbol exactly.
   */
  function Validate(index: ValidationIndex, exchange: string, symbol: string): (r: bool)
    ensures exchange !in index ==> !r
    ensures r <==> exchange in index && exists i :: 0 <= i < |index[exchange]| && index[exchange][i].instrumentId == symbol
  {
    exchange in index && Listed(index[exchange], symbol)
  }

  /** A symbol that only contains a listed identifier, or is contained in one, is not supported. */
  lemma NoSubstringMatch(index: ValidationIndex, exchange: string, symbol: string)
    requires exchange in index
    requires forall i :: 0 <= i < |index[exchange]| ==> index[exchange][i].instrumentId != symbol
    ensures !Validate(index, exchange, symbol)
  {
  }

  lemma Examples()
    ensures Validate(map["Binance" := [Instrument("BTCUSDT")]], "Binance", "BTCUSDT")
    ensures !Validate(map["Binance" := [Instrument("BTCUSDT")]], "Binance", "ETHUSDT")
    ensures !Validate(map["Binance" := [Instrument("BTCUSDT")]], "Binance", "BTC")
    ensures !Validate(map["Binance" := [Instrument("BTCUSDT")]], "OKX", "BTCUSDT")
  {
    var index: ValidationIndex := map["Binance" := [Instrument("BTCUSDT")]];
    assert index["Binance"][0].instrumentId == "BTCUSDT";
  }
}
