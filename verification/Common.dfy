/** Vocabulary the models share. */
module Common {

  datatype Option<T> = None | Some(value: T)

  datatype Side = Buy | Sell

  datatype Direction = NoDirection | Long | Short

  // One candle.
  datatype Kline = Kline(openTime: int, closeTime: int, isClosed: bool, open: real, high: real, low: real, close: real)

  function Abs(x: real): real { if x >= 0.0 then x else -x }

  function Min(a: int, b: int): int { if a <= b then a else b }

  function Max(a: int, b: int): int { if a >= b then a else b }

  function MaxReal(a: real, b: real): real { if a >= b then a else b }
}
