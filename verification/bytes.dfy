/**
 * Shared vocabulary of the three firmwares: bytes, 32-bit millisecond
 * clocks and an Option type.
 */
module Bytes {

  /** An unsigned 8-bit value (`uint8_t`). */
  type byte = x: int | 0 <= x < 256

  const TWO_POW_32: int := 0x1_0000_0000

  /** An unsigned 32-bit value: the `millis()` clock and its timestamps. */
  type u32 = x: int | 0 <= x < TWO_POW_32

  /**
   * `now - since` computed on `unsigned long` (32 bits on both the Teensy
   * and the ESP32): the difference wraps around modulo 2^32.
   */
  function Elapsed(now: u32, since: u32): (d: u32)
    ensures since <= now ==> d == now - since
    ensures now < since ==> d == now - since + TWO_POW_32
  {
    (now - since) % TWO_POW_32
  }

  /** `static_cast<uint8_t>(x)`: conversion to unsigned 8 bits keeps x modulo 256. */
  function ToByte(x: int): (b: byte)
    ensures 0 <= x < 256 ==> b == x
    ensures (x - b) % 256 == 0
  {
    x % 256
  }

  /** The byte a `char` of the serial line is stored in. */
  function CharByte(c: char): byte
  {
    ToByte(c as int)
  }

  datatype Option<T> = None | Some(value: T)

  /** A sequence of n zero bytes (`= {0}` initialisers, `memset`). */
  function Zeros(n: nat): (z: seq<byte>)
    ensures |z| == n && forall i :: 0 <= i < n ==> z[i] == 0
  {
    seq(n, _ => 0)
  }
}
