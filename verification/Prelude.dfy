/** Small vocabulary shared by every component: optional values and the broker's clock
    arithmetic. */
module Prelude {

  datatype Option<+T> = None | Some(value: T)

  /** Epoch seconds. */
  type Timestamp = int

  function Min(a: int, b: int): int {
    if a <= b then a else b
  }

  function Max(a: int, b: int): int {
    if a >= b then a else b
  }

  /** Seconds from `earlier` to `now`, clamped at zero against a backwards clock step. */
  function Since(now: Timestamp, earlier: Timestamp): nat {
    if now < earlier then 0 else now - earlier
  }
}
