/** The values that travel through marketflow: price updates, window keys and table rows. */
module Model {

  datatype Option<+T> = None | Some(value: T)

  /** An instant or a duration in nanoseconds, as in Go's time package. */
  type Time = int

  const SECOND: Time := 1_000_000_000
  const MINUTE: Time := 60 * SECOND

  /** Whole seconds since the epoch, rounded towards the past. */
  function Unix(t: Time): int {
    t / SECOND
  }

  lemma UnixOrder(a: Time, b: Time)
    ensures a <= b ==> Unix(a) <= Unix(b)
    ensures a >= b + SECOND ==> Unix(a) > Unix(b)
    ensures Unix(a) <= Unix(b) ==> a < b + SECOND
  {}

  /** Times are in nanoseconds. */
  lemma Units()
    ensures SECOND == 1_000_000_000 && MINUTE == 60 * 1_000_000_000
  {}

  /** A second is the whole second that contains the instant. */
  lemma UnixIsSecond(t: Time)
    ensures Unix(t) * 1_000_000_000 <= t < (Unix(t) + 1) * 1_000_000_000
  {}

  /** The two variable parts of the cache keys `latest:<exchange>:<symbol>` and `window:<exchange>:<symbol>`. */
  datatype Key = Key(exchange: string, symbol: string)

  datatype Update = Update(symbol: string, exchange: string, price: real, timestamp: Time)

  function KeyOf(u: Update): Key {
    Key(u.exchange, u.symbol)
  }

  /** An aggregated price: one row of the table, and the answer of the highest and lowest queries. */
  datatype Row = Row(pair: string, exchange: string, timestamp: Time, average: real, min: real, max: real)

  /** The row a worker writes when the cache refuses an update. */
  function FallbackRow(u: Update): Row {
    Row(u.symbol, u.exchange, u.timestamp, u.price, u.price, u.price)
  }

  /** A pool asked for no workers, or fewer, gets one; and so do the output channels of a fan-out. */
  function AtLeastOne(n: int): (m: nat)
    ensures m >= 1 && (n >= 1 ==> m == n) && (n < 1 ==> m == 1)
  {
    if n <= 0 then 1 else n
  }
}
