/** The two-lane packing of a 256-bit word: a signed 128-bit amount in each half. */
module BalanceDelta {
  const TWO_127: int := 0x8000_0000_0000_0000_0000_0000_0000_0000
  const TWO_128: int := 0x1_0000_0000_0000_0000_0000_0000_0000_0000
  const TWO_255: int := TWO_127 * TWO_128
  const TWO_256: int := TWO_128 * TWO_128

  type Byte = b: int | 0 <= b < 256
  type U128 = u: int | 0 <= u < TWO_128
  type U256 = u: int | 0 <= u < TWO_256
  type I128 = x: int | -TWO_127 <= x < TWO_127
  type I256 = x: int | -TWO_255 <= x < TWO_255

  // ── Two's complement ───────────────────────────────────────────────────

  function AsI128(u: U128): I128 {
    if u >= TWO_127 then u - TWO_128 else u
  }

  function AsU128(x: I128): U128 {
    if x < 0 then x + TWO_128 else x
  }

  function IntoRaw(x: I256): U256 {
    if x < 0 then x + TWO_256 else x
  }

  function FromRaw(u: U256): I256 {
    if u >= TWO_255 then u - TWO_256 else u
  }

  // ── Big-endian bytes ───────────────────────────────────────────────────

  function Pow256(n: nat): int {
    if n == 0 then 1 else 256 * Pow256(n - 1)
  }

  function FromBeBytes(bytes: seq<Byte>): int {
    if bytes == [] then 0 else FromBeBytes(bytes[..|bytes| - 1]) * 256 + bytes[|bytes| - 1]
  }

  function ToBeBytes(u: nat, n: nat): (bytes: seq<Byte>)
    ensures |bytes| == n
  {
    if n == 0 then [] else ToBeBytes(u / 256, n - 1) + [u % 256]
  }

  lemma {:induction false} BytesHoldTheNumber(u: nat, n: nat)
    requires u < Pow256(n)
    ensures FromBeBytes(ToBeBytes(u, n)) == u
  {
    if n > 0 {
      BytesHoldTheNumber(u / 256, n - 1);
      var bytes := ToBeBytes(u, n);
      assert bytes[..n - 1] == ToBeBytes(u / 256, n - 1);
    }
  }

  lemma {:induction false} BytesConcatenate(a: seq<Byte>, b: seq<Byte>)
    ensures FromBeBytes(a + b) == FromBeBytes(a) * Pow256(|b|) + FromBeBytes(b)
    decreases |b|
  {
    if b == [] {
      assert a + b == a;
    } else {
      var shorter, last := b[..|b| - 1], b[|b| - 1];
      BytesConcatenate(a, shorter);
      assert (a + b)[..|a + b| - 1] == a + shorter;
      calc {
        FromBeBytes(a + b);
        FromBeBytes(a + shorter) * 256 + last;
        (FromBeBytes(a) * Pow256(|shorter|) + FromBeBytes(shorter)) * 256 + last;
        FromBeBytes(a) * (256 * Pow256(|shorter|)) + (FromBeBytes(shorter) * 256 + last);
      }
    }
  }

  lemma {:induction false} SixteenBytesAre128Bits()
    ensures Pow256(16) == TWO_128
  {
    assert Pow256(4) == 0x1_0000_0000;
    assert Pow256(8) == 0x1_0000_0000 * Pow256(4);
    assert Pow256(12) == 0x1_0000_0000 * Pow256(8);
    assert Pow256(16) == 0x1_0000_0000 * Pow256(12);
  }

  // ── The packing ────────────────────────────────────────────────────────

  /** `(amount0, amount1)` from the high and the low half. */
  function UnpackBalanceDelta(delta: I256): (I128, I128) {
    var raw := IntoRaw(delta);
    (AsI128(raw / TWO_128), AsI128(raw % TWO_128))
  }

  /** The word is the first amount in its upper half and the bits of the second below. */
  lemma {:induction false} TheLanesMakeTheWord(delta: I256)
    ensures var (amount0, amount1) := UnpackBalanceDelta(delta);
            delta == amount0 * TWO_128 + if amount1 >= 0 then amount1 else amount1 + TWO_128
  {
  }

  lemma {:induction false} LanesFit(hi: U128, lo: U128)
    ensures 0 <= hi * TWO_128 + lo < TWO_256
    ensures (hi * TWO_128 + lo) / TWO_128 == hi && (hi * TWO_128 + lo) % TWO_128 == lo
  {
  }

  lemma {:induction false} PackedBytes(hi: U128, lo: U128)
    ensures FromBeBytes(ToBeBytes(hi, 16) + ToBeBytes(lo, 16)) == hi * TWO_128 + lo
  {
    SixteenBytesAre128Bits();
    BytesHoldTheNumber(hi, 16);
    BytesHoldTheNumber(lo, 16);
    BytesConcatenate(ToBeBytes(hi, 16), ToBeBytes(lo, 16));
  }

  /** Thirty-two bytes: the sixteen of each amount, `amount0` first. */
  function PackBalanceDelta(amount0: I128, amount1: I128): I256 {
    PackedBytes(AsU128(amount0), AsU128(amount1));
    LanesFit(AsU128(amount0), AsU128(amount1));
    FromRaw(FromBeBytes(ToBeBytes(AsU128(amount0), 16) + ToBeBytes(AsU128(amount1), 16)))
  }

  /** The packed word, as its two lanes. */
  lemma {:induction false} PackedLanes(amount0: I128, amount1: I128)
    ensures var raw := IntoRaw(PackBalanceDelta(amount0, amount1));
            raw / TWO_128 == AsU128(amount0) && raw % TWO_128 == AsU128(amount1)
  {
    var hi, lo := AsU128(amount0), AsU128(amount1);
    PackedBytes(hi, lo);
    LanesFit(hi, lo);
    RawRoundTrip(hi * TWO_128 + lo);
  }

  lemma {:induction false} RawRoundTrip(raw: U256)
    ensures IntoRaw(FromRaw(raw)) == raw
  {
  }

  lemma {:induction false} SignRoundTrip(x: I128)
    ensures AsI128(AsU128(x)) == x
  {
  }

  /** Every pair of amounts survives the round trip, whatever the signs: neither lane
      reads the other. */
  lemma {:induction false} UnpackUndoesPack(amount0: I128, amount1: I128)
    ensures UnpackBalanceDelta(PackBalanceDelta(amount0, amount1)) == (amount0, amount1)
  {
    PackedLanes(amount0, amount1);
    SignRoundTrip(amount0);
    SignRoundTrip(amount1);
  }

  /** And every word does. */
  lemma {:induction false} PackUndoesUnpack(delta: I256)
    ensures var (amount0, amount1) := UnpackBalanceDelta(delta);
            PackBalanceDelta(amount0, amount1) == delta
  {
    var raw := IntoRaw(delta);
    PackedBytes(raw / TWO_128, raw % TWO_128);
  }

  /** One lane changes alone: the other amount leaves this half's bits as they were. */
  lemma {:induction false} LanesAreIndependent(amount: I128, one: I128, other: I128)
    ensures IntoRaw(PackBalanceDelta(amount, one)) / TWO_128 == IntoRaw(PackBalanceDelta(amount, other)) / TWO_128
    ensures IntoRaw(PackBalanceDelta(one, amount)) % TWO_128 == IntoRaw(PackBalanceDelta(other, amount)) % TWO_128
  {
    PackedLanes(amount, one);
    PackedLanes(amount, other);
    PackedLanes(one, amount);
    PackedLanes(other, amount);
  }
}
