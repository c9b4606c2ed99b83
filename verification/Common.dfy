/** Constants, bytes and C arithmetic shared by the programs. */
module Common {
  const MSS: nat := 1000    // payload bytes of one packet
  const WS: nat := 20000    // slots of the ring buffer
  const CAPACITY: nat := 20000000  // WS * MSS

  datatype Option<T> = None | Some(value: T)

  newtype byte = x: int | 0 <= x < 256

  type Block = b: seq<byte> | |b| == MSS witness seq(MSS, _ => 0)

  /** Integer division and remainder that truncate toward zero, for a positive divisor. */
  function TruncDiv(a: int, b: int): int
    requires b > 0
  {
    if a >= 0 then a / b else -(-a / b)
  }

  function TruncMod(a: int, b: int): int
    requires b > 0
  {
    a - b * TruncDiv(a, b)
  }

  function Max2(a: int, b: int): (m: int)
    ensures m >= a && m >= b && (m == a || m == b)
  {
    if a > b then a else b
  }

  function Min2(a: int, b: int): (m: int)
    ensures m <= a && m <= b && (m == a || m == b)
  {
    if a > b then b else a
  }
}
