/** Bytes and fixed-size reports. */
module Wire {
  const REPORT_SIZE: nat := 64
  const SAMPLE_BUFFER_SIZE: nat := 320

  type Byte = b: int | 0 <= b < 256

  type Frame = f: seq<Byte> | |f| == REPORT_SIZE witness seq(REPORT_SIZE, i => 0)

  /** A big-endian 16-bit number. */
  function U16(hi: Byte, lo: Byte): nat {
    hi * 256 + lo
  }
}
