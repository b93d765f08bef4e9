/** Small value types shared by every module: optional values and the
    JavaScript `||` defaults the handlers apply to stored fields. */
module Common {

  datatype Option<+T> = None | Some(value: T)

  /** `stored || fallback` for a stored string, where "" stands for a
      field that is absent from the record. */
  function OrDefault(s: string, fallback: string): string {
    if s != "" then s else fallback
  }

  /** `(n || 0)` for an optional stored number. */
  function OrZero(n: Option<int>): int {
    if n.Some? then n.value else 0
  }
}
