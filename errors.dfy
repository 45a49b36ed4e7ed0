/** The exceptions the collector can raise, one constructor per kind. */
module Errors {

  datatype Error =
    | EmptyInterval          // `interval[-1]` on the empty token raises IndexError
    | InvalidNumber          // `int()` rejects the prefix of an 'm' or 'h' token
    | InvalidInterval        // the unit character is not one of m, h, d, w
    | UnsupportedExchange    // `get_ohlcv` has no connector for the exchange name
    | FetchOhlcvUnsupported  // the connector does not declare `fetchOHLCV`
    | UnsupportedInstrument  // `validate` failed before an OI/FR fetch
    | RequestFailed          // an OI/FR request raised (no retry there)
    | MissingTimestamp       // an OI/FR page with no points has no 't' column
    | ResponsesExhausted     // the scripted responses ran out while the loop still requests pages
}
