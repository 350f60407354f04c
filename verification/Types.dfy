/** The SDK's data types. float64 is modelled by real, a time.Time by its number of nanoseconds. */
module Types {

  datatype Option<+T> = None | Some(value: T)

  datatype Candle = Candle(timestamp: int, open: real, high: real, low: real, close: real, volume: real)

  datatype ChartData = ChartData(
    symbol: string, resolution: string, candles: seq<Candle>, fetchedAt: int, cached: bool, latencyMs: int)
}
