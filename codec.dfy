/** Bytes, unsigned 64-bit integers and the little-endian encoding that
    `u64::from_le_bytes` and Borsh use for them. */
module Codec {

  /** One byte, as the `u8` elements of instruction data and account data. */
  type byte = b: int | 0 <= b < 256

  const U64_LIMIT: nat := 0x1_0000_0000_0000_0000

  /** Rust's `u64`. */
  type u64 = n: int | 0 <= n < U64_LIMIT

  /** 256 to the power k: one more than the largest value k bytes can hold. */
  function Pow256(k: nat): (p: nat)
    ensures p >= 1
  {
    if k == 0 then 1 else 256 * Pow256(k - 1)
  }

  lemma Pow256Eight()
    ensures Pow256(8) == U64_LIMIT
  {
  }

  /** The unsigned value of s read little-endian: s[0] is the least significant byte. */
  function LeValue(s: seq<byte>): (v: nat)
    ensures v < Pow256(|s|)
  {
    if s == [] then 0 else s[0] + 256 * LeValue(s[1..])
  }

  /** The `width` low-order bytes of n, least significant first. */
  function LeBytes(n: nat, width: nat): (s: seq<byte>)
    ensures |s| == width
  {
    if width == 0 then [] else [n % 256] + LeBytes(n / 256, width - 1)
  }

  /** Reading back the encoding of a value that fits gives the value. */
  lemma {:induction false} LeValueOfBytes(n: nat, width: nat)
    requires n < Pow256(width)
    ensures LeValue(LeBytes(n, width)) == n
  {
    if width > 0 {
      LeValueOfBytes(n / 256, width - 1);
      assert LeBytes(n, width)[1..] == LeBytes(n / 256, width - 1);
    }
  }

  /** Re-encoding the value of a byte string at its own width gives the same bytes. */
  lemma {:induction false} LeBytesOfValue(s: seq<byte>)
    ensures LeBytes(LeValue(s), |s|) == s
  {
    if s != [] {
      LeBytesOfValue(s[1..]);
      var n := LeValue(s);
      assert n % 256 == s[0] && n / 256 == LeValue(s[1..]);
    }
  }

  /** `u64::from_le_bytes(data.try_into()?)`: the conversion to `[u8; 8]` fails
      unless the slice has exactly eight bytes. */
  function U64FromLe(data: seq<byte>): (r: Option<u64>)
    ensures r.Some? <==> |data| == 8
    ensures r.Some? ==> r.value == LeValue(data) && LeBytes(r.value, 8) == data
  {
    if |data| != 8 then None
    else
      Pow256Eight();
      LeBytesOfValue(data);
      Some(LeValue(data))
  }

  /** u64::to_le_bytes. */
  function U64ToLe(n: u64): (s: seq<byte>)
    ensures |s| == 8 && U64FromLe(s) == Some(n)
  {
    Pow256Eight();
    LeValueOfBytes(n, 8);
    LeBytes(n, 8)
  }

  datatype Option<T> = None | Some(value: T)
}
