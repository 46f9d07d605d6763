/** The checksum that closes every commit-log record. */
module Checksum {
  import opened Bytes

  type quad = s: bytes | |s| == 4 witness [0, 0, 0, 0]

  /**
   * CRC-32C of a byte string, as its four little-endian bytes. Left uninterpreted:
   * every result of this project holds for any checksum function whatsoever.
   */
  const Crc32c: bytes -> quad
}
