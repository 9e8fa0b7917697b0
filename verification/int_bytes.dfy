/** `toBytes` / `toInteger` of the trunk `common.Utils`: a Java `int` to four
    bytes, most significant first, and back. A Java `int` is modelled as a
    `bv32` and a Java `byte` as a `bv8` (their two's-complement bit
    patterns). `toBytes` uses the arithmetic shift `>>`; after the mask
    `& 0xff` it selects the same eight bits as the logical shift used here. */
module IntBytes {
  import opened Outcomes

  /** `toInteger(bytes)`: ORs the first four bytes, masked to eight bits,
      into one int; an array shorter than four throws, here `None`. */
  function ToInteger(b: seq<bv8>): (r: Option<bv32>)
    ensures r.Some? <==> |b| >= 4
    ensures r.Some? ==> (r.value >> 24) as bv8 == b[0] && (r.value & 0xFF) as bv8 == b[3]
  {
    if |b| < 4 then None
    else Some(((b[0] as bv32) << 24) | ((b[1] as bv32) << 16) | ((b[2] as bv32) << 8) | (b[3] as bv32))
  }

  /** `toBytes(intg)`: big-endian, `ret[0]` holds bits 31..24 and `ret[3]`
      bits 7..0; reading the bytes back gives `x`. */
  function ToBytes(x: bv32): (r: seq<bv8>)
    ensures |r| == 4
    ensures (r[0] as bv32) << 24 == x & 0xFF00_0000
    ensures (r[1] as bv32) << 16 == x & 0x00FF_0000
    ensures (r[2] as bv32) << 8 == x & 0x0000_FF00
    ensures r[3] as bv32 == x & 0x0000_00FF
    ensures ToInteger(r) == Some(x)
  {
    [((x >> 24) & 0xFF) as bv8, ((x >> 16) & 0xFF) as bv8, ((x >> 8) & 0xFF) as bv8, (x & 0xFF) as bv8]
  }

  /** Any four bytes survive the trip through an int. */
  lemma {:induction false} BytesRoundTrip(b: seq<bv8>)
    requires |b| == 4
    ensures ToInteger(b).Some? && ToBytes(ToInteger(b).value) == b
  {
  }
}
