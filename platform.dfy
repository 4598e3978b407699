/**
 * Machine-level types shared by every part of the model: `timeval_t` is a
 * 32-bit unsigned tick count (platform.h), and the counters of the decoder are
 * C `unsigned int`s. Both wrap around modulo 2^32; the helpers below write
 * that wrap-around out explicitly.
 */
module Platform {

  const WORD: int := 0x1_0000_0000

  /** timeval_t: a free-running 32-bit tick count. */
  type Time = t: int | 0 <= t < WORD

  /** A C `unsigned int` / `uint32_t`. */
  type Uint32 = x: int | 0 <= x < WORD

  /** `x + 1` in unsigned 32-bit arithmetic. */
  function Inc32(x: Uint32): (r: Uint32)
    ensures x < WORD - 1 ==> r == x + 1
    ensures x == WORD - 1 ==> r == 0
  {
    (x + 1) % WORD
  }

  /** `a - b` in unsigned 32-bit arithmetic (the tick distance from b to a). */
  function Sub32(a: Uint32, b: Uint32): (r: Uint32)
    ensures b <= a ==> r == a - b
    ensures a < b ==> r == a - b + WORD
  {
    (a - b) % WORD
  }
}
