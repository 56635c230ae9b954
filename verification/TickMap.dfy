/** The pool's initialized ticks, rebuilt from the tick bitmap: one word per 256 tick
    spacings over the whole domain, then the tick word of every set bit. */
module TickMap {
  import opened BalanceDelta

  const MIN_TICK: int := -138_180
  const MAX_TICK: int := 138_180
  const MAX_SPACING: int := 0x7F_FFFF

  type Spacing = s: int | 1 <= s <= MAX_SPACING witness 1

  predicate FitsI32(x: int) {
    -0x8000_0000 <= x < 0x8000_0000
  }

  /** Bit `bit` of a word, the lowest first. */
  predicate Bit(word: nat, bit: nat) {
    if bit == 0 then word % 2 == 1 else Bit(word / 2, bit - 1)
  }

  /** `div_euclid` by a positive divisor is Dafny's division. */
  function MinWord(spacing: Spacing): int {
    MIN_TICK / spacing / 256
  }

  function MaxWord(spacing: Spacing): int {
    MAX_TICK / spacing / 256
  }

  // ── Enumeration ────────────────────────────────────────────────────────

  /** The ticks of one word, from bit `from` on; `tickAt` turns an index into a tick. */
  function WordTicks(word: int, bits: nat, tickAt: int -> int, from: nat): seq<int>
    decreases 256 - from, bits
  {
    if from >= 256 then []
    else (if Bit(bits, from) then [tickAt(word * 256 + from)] else []) + WordTicks(word, bits, tickAt, from + 1)
  }

  function BitmapTicks(word: int, bitmaps: seq<nat>, tickAt: int -> int): seq<int>
    decreases |bitmaps|
  {
    if bitmaps == [] then []
    else WordTicks(word, bitmaps[0], tickAt, 0) + BitmapTicks(word + 1, bitmaps[1..], tickAt)
  }

  function Multiples(spacing: Spacing): int -> int {
    k => k * spacing
  }

  /** What a 32-bit product keeps, where overflow is not checked. */
  function Wrap32(x: int): int {
    (x + 0x8000_0000) % 0x1_0000_0000 - 0x8000_0000
  }

  /** The tick of an index in 32-bit arithmetic. */
  function Products(spacing: Spacing): int -> int {
    k => Wrap32(Wrap32(k) * spacing)
  }

  function InDomain(ticks: seq<int>): seq<int> {
    if ticks == [] then []
    else (if MIN_TICK <= ticks[0] <= MAX_TICK then [ticks[0]] else []) + InDomain(ticks[1..])
  }

  /** The ticks of the bits set in the words answered from `MinWord` on; how many words
      were answered is not checked. */
  function InitializedTicks(bitmaps: seq<nat>, spacing: Spacing): seq<int> {
    InDomain(BitmapTicks(MinWord(spacing), bitmaps, Products(spacing)))
  }

  /** Whether the highest index of that many words has a product of 32 bits. */
  predicate WordsFit(spacing: Spacing, count: nat) {
    count == 0 || FitsI32(((MinWord(spacing) + count) * 256 - 1) * spacing)
  }

  predicate Ascending(ticks: seq<int>) {
    forall i, j :: 0 <= i < j < |ticks| ==> ticks[i] < ticks[j]
  }

  // ── Index arithmetic ───────────────────────────────────────────────────

  lemma {:induction false} ProductIsNonnegative(a: nat, b: nat)
    ensures a * b >= 0
  {
  }

  lemma {:induction false} MultiplesGrow(a: int, b: int, s: Spacing)
    ensures a < b <==> a * s < b * s
    ensures a <= b <==> a * s <= b * s
  {
    if a < b {
      ProductIsNonnegative(b - a - 1, s);
      assert b * s == a * s + s + (b - a - 1) * s;
    } else {
      ProductIsNonnegative(a - b, s);
      assert a * s == b * s + (a - b) * s;
      if a > b {
        ProductIsNonnegative(a - b - 1, s);
        assert (a - b) * s == s + (a - b - 1) * s;
      }
    }
  }

  lemma {:induction false} OneMore(k: int, s: Spacing)
    ensures (k + 1) * s == k * s + s
  {
  }

  lemma {:induction false} QuotientBounds(t: int, s: Spacing)
    ensures (t / s) * s <= t < (t / s) * s + s
    ensures t == (t / s) * s + t % s
  {
  }

  lemma {:induction false} QuotientIsUnique(t: int, k: int, s: Spacing)
    requires k * s <= t < k * s + s
    ensures t / s == k
  {
    var q := t / s;
    QuotientBounds(t, s);
    OneMore(q, s);
    OneMore(k, s);
    MultiplesGrow(k, q + 1, s);
    MultiplesGrow(q, k + 1, s);
  }

  lemma {:induction false} DivisionGrows(a: int, b: int, s: Spacing)
    requires a <= b
    ensures a / s <= b / s
  {
    QuotientBounds(a, s);
    QuotientBounds(b, s);
    OneMore(b / s, s);
    MultiplesGrow(a / s, b / s + 1, s);
  }

  // ── Width ──────────────────────────────────────────────────────────────

  /** The lowest index the enumeration visits, against the domain's lowest. */
  lemma {:induction false} LowestIndex(spacing: Spacing)
    ensures MinWord(spacing) * 256 >= MIN_TICK - 255
    ensures MinWord(spacing) * 256 * spacing >= -0x8000_0000
  {
    var q := MIN_TICK / spacing;
    var low := MinWord(spacing) * 256;
    QuotientBounds(MIN_TICK, spacing);
    if spacing > -MIN_TICK {
      QuotientIsUnique(MIN_TICK, -1, spacing);
      assert low == -256;
    } else {
      OneMore(q, spacing);
      MultiplesGrow(MIN_TICK, q + 1, spacing);
      MultiplesGrow(MIN_TICK, -1, spacing);
      assert low >= q - 255;
      MultiplesGrow(q - 255, low, spacing);
      assert (q - 255) * spacing == q * spacing - 255 * spacing;
      MultiplesGrow(1, spacing, 1);
      QuotientNotBelow(spacing);
    }
  }

  lemma {:induction false} QuotientNotBelow(spacing: Spacing)
    ensures MIN_TICK / spacing >= MIN_TICK && MAX_TICK / spacing <= MAX_TICK
  {
    QuotientBounds(MIN_TICK, spacing);
    QuotientBounds(MAX_TICK, spacing);
    ProductIsNonnegative(-MIN_TICK, spacing - 1);
    assert (-MIN_TICK) * (spacing - 1) == MIN_TICK - MIN_TICK * spacing;
    OneMore(MIN_TICK / spacing, spacing);
    MultiplesGrow(MIN_TICK, MIN_TICK / spacing + 1, spacing);
    ProductIsNonnegative(MAX_TICK, spacing - 1);
    assert MAX_TICK * (spacing - 1) == MAX_TICK * spacing - MAX_TICK;
    MultiplesGrow(MAX_TICK / spacing, MAX_TICK, spacing);
  }

  /** The highest index, in the same way. */
  lemma {:induction false} HighestIndex(spacing: Spacing)
    ensures MaxWord(spacing) * 256 + 255 <= MAX_TICK + 255
    ensures (MaxWord(spacing) * 256 + 255) * spacing < 0x8000_0000
  {
    var top := MAX_TICK / spacing;
    var high := MaxWord(spacing) * 256 + 255;
    QuotientBounds(MAX_TICK, spacing);
    QuotientNotBelow(spacing);
    assert high <= top + 255;
    MultiplesGrow(high, top + 255, spacing);
    assert (top + 255) * spacing == top * spacing + 255 * spacing;
  }

  /** No intermediate of the tick arithmetic leaves `i32`, for any spacing an `int24`
      can hold. */
  lemma {:induction false} NothingOverflows(spacing: Spacing, word: int, bit: nat)
    requires MinWord(spacing) <= word <= MaxWord(spacing) && bit < 256
    ensures FitsI32(word) && FitsI32(word * 256) && FitsI32(word * 256 + bit)
    ensures FitsI32((word * 256 + bit) * spacing)
  {
    LowestIndex(spacing);
    HighestIndex(spacing);
    MultiplesGrow(MinWord(spacing) * 256, word * 256 + bit, spacing);
    MultiplesGrow(word * 256 + bit, MaxWord(spacing) * 256 + 255, spacing);
  }

  /** The exact bound: every product of that many words fits 32 bits exactly when the
      highest does. */
  lemma {:induction false} EveryProductFitsExactlyWhenTheHighestDoes(spacing: Spacing, count: nat)
    ensures WordsFit(spacing, count) <==>
            forall k :: MinWord(spacing) * 256 <= k < (MinWord(spacing) + count) * 256 ==> FitsI32(k * spacing)
  {
    LowestIndex(spacing);
    var top := (MinWord(spacing) + count) * 256 - 1;
    if WordsFit(spacing, count) {
      forall k | MinWord(spacing) * 256 <= k < (MinWord(spacing) + count) * 256
        ensures FitsI32(k * spacing)
      {
        MultiplesGrow(MinWord(spacing) * 256, k, spacing);
        MultiplesGrow(k, top, spacing);
      }
    } else {
      assert MinWord(spacing) * 256 <= top && !FitsI32(top * spacing);
    }
  }

  /** The words asked for are within it. */
  lemma {:induction false} TheWordsAskedForFit(spacing: Spacing)
    ensures WordsFit(spacing, WordCount(spacing))
  {
    LowestIndex(spacing);
    HighestIndex(spacing);
    MultiplesGrow(MinWord(spacing) * 256, MaxWord(spacing) * 256 + 255, spacing);
  }

  lemma {:induction false} AProductThatFits(k: int, spacing: Spacing)
    requires FitsI32(k * spacing)
    ensures Products(spacing)(k) == Multiples(spacing)(k)
  {
    if k >= 0 {
      ProductIsNonnegative(k, spacing - 1);
      assert k * spacing == k + k * (spacing - 1);
    } else {
      ProductIsNonnegative(-k, spacing - 1);
      assert (-k) * (spacing - 1) == -(k * spacing) + k;
    }
  }

  lemma {:induction false} WordTicksAgree(word: int, bits: nat, f: int -> int, g: int -> int, from: nat)
    requires forall k :: word * 256 <= k < word * 256 + 256 ==> f(k) == g(k)
    ensures WordTicks(word, bits, f, from) == WordTicks(word, bits, g, from)
    decreases 256 - from
  {
    if from < 256 {
      WordTicksAgree(word, bits, f, g, from + 1);
    }
  }

  lemma {:induction false} BitmapTicksAgree(word: int, bitmaps: seq<nat>, f: int -> int, g: int -> int)
    requires forall k :: word * 256 <= k < (word + |bitmaps|) * 256 ==> f(k) == g(k)
    ensures BitmapTicks(word, bitmaps, f) == BitmapTicks(word, bitmaps, g)
    decreases |bitmaps|
  {
    if bitmaps != [] {
      WordTicksAgree(word, bitmaps[0], f, g, 0);
      BitmapTicksAgree(word + 1, bitmaps[1..], f, g);
    }
  }

  /** Within the bound the 32-bit enumeration is the enumeration over the integers. */
  lemma {:induction false} NoTickWraps(bitmaps: seq<nat>, spacing: Spacing)
    requires WordsFit(spacing, |bitmaps|)
    ensures BitmapTicks(MinWord(spacing), bitmaps, Products(spacing))
            == BitmapTicks(MinWord(spacing), bitmaps, Multiples(spacing))
  {
    EveryProductFitsExactlyWhenTheHighestDoes(spacing, |bitmaps|);
    forall k | MinWord(spacing) * 256 <= k < (MinWord(spacing) + |bitmaps|) * 256
      ensures Products(spacing)(k) == Multiples(spacing)(k)
    {
      AProductThatFits(k, spacing);
    }
    BitmapTicksAgree(MinWord(spacing), bitmaps, Products(spacing), Multiples(spacing));
  }

  /** Past it, an answer that is two words too long puts a tick into the domain that no
      spacing reaches. */
  lemma {:induction false} AnAnswerTooLongMakesATickUp()
    ensures !WordsFit(MAX_SPACING, 4) && WordCount(MAX_SPACING) == 2
    ensures InitializedTicks([0, 0, 0, 1], MAX_SPACING) == [-512] && !Aligned(-512, MAX_SPACING)
  {
    var tickAt := Products(MAX_SPACING);
    assert MinWord(MAX_SPACING) == -1;
    assert tickAt(512) == -512;
    NoBitsNoTicks(-1, tickAt, 0);
    NoBitsNoTicks(0, tickAt, 0);
    NoBitsNoTicks(1, tickAt, 0);
    LowestBitOnly(2, tickAt);
    var bitmaps := [0, 0, 0, 1];
    assert bitmaps[1..] == [0, 0, 1] && bitmaps[1..][1..] == [0, 1] && bitmaps[1..][1..][1..] == [1];
    assert bitmaps[1..][1..][1..][1..] == [];
    assert BitmapTicks(3, [], tickAt) == [];
    assert BitmapTicks(2, [1], tickAt) == [-512];
    assert BitmapTicks(1, [0, 1], tickAt) == [-512];
    assert BitmapTicks(0, [0, 0, 1], tickAt) == [-512];
    assert BitmapTicks(-1, bitmaps, tickAt) == [-512];
  }

  lemma {:induction false} ZeroHasNoBits(bit: nat)
    ensures !Bit(0, bit)
    decreases bit
  {
    if bit > 0 {
      ZeroHasNoBits(bit - 1);
    }
  }

  lemma {:induction false} NoBitsNoTicks(word: int, tickAt: int -> int, from: nat)
    ensures WordTicks(word, 0, tickAt, from) == []
    decreases 256 - from
  {
    if from < 256 {
      ZeroHasNoBits(from);
      NoBitsNoTicks(word, tickAt, from + 1);
    }
  }

  lemma {:induction false} LowestBitOnly(word: int, tickAt: int -> int)
    ensures WordTicks(word, 1, tickAt, 0) == [tickAt(word * 256)]
  {
    NothingPastTheLowestBit(word, tickAt, 1);
  }

  lemma {:induction false} NothingPastTheLowestBit(word: int, tickAt: int -> int, from: nat)
    requires from > 0
    ensures WordTicks(word, 1, tickAt, from) == []
    decreases 256 - from
  {
    if from < 256 {
      ZeroHasNoBits(from - 1);
      NothingPastTheLowestBit(word, tickAt, from + 1);
    }
  }

  // ── Exactness of the enumeration ───────────────────────────────────────

  predicate IsBitOf(t: int, word: int, bits: nat, tickAt: int -> int, bit: nat) {
    bit < 256 && Bit(bits, bit) && t == tickAt(word * 256 + bit)
  }

  lemma {:induction false} WordTicksAreTheSetBits(word: int, bits: nat, tickAt: int -> int, from: nat, t: int)
    requires from <= 256
    ensures t in WordTicks(word, bits, tickAt, from) <==>
              exists bit: nat :: from <= bit && IsBitOf(t, word, bits, tickAt, bit)
    decreases 256 - from
  {
    if from < 256 {
      WordTicksAreTheSetBits(word, bits, tickAt, from + 1, t);
      if t in WordTicks(word, bits, tickAt, from) && t !in WordTicks(word, bits, tickAt, from + 1) {
        assert IsBitOf(t, word, bits, tickAt, from);
      }
    }
  }

  /** Index `k` is answered by one of the words, on a set bit, and gives the tick. */
  predicate IsIndexOf(t: int, word: int, bitmaps: seq<nat>, tickAt: int -> int, k: int) {
    0 <= k / 256 - word < |bitmaps| && Bit(bitmaps[k / 256 - word], k % 256) && t == tickAt(k)
  }

  lemma {:induction false} AListedTickHasAnIndex(word: int, bitmaps: seq<nat>, tickAt: int -> int, t: int)
    returns (k: int)
    requires t in BitmapTicks(word, bitmaps, tickAt)
    ensures IsIndexOf(t, word, bitmaps, tickAt, k)
    decreases |bitmaps|
  {
    if t in WordTicks(word, bitmaps[0], tickAt, 0) {
      WordTicksAreTheSetBits(word, bitmaps[0], tickAt, 0, t);
      var bit: nat :| IsBitOf(t, word, bitmaps[0], tickAt, bit);
      k := word * 256 + bit;
      assert k / 256 == word && k % 256 == bit;
    } else {
      k := AListedTickHasAnIndex(word + 1, bitmaps[1..], tickAt, t);
    }
  }

  lemma {:induction false} AnIndexedTickIsListed(word: int, bitmaps: seq<nat>, tickAt: int -> int, t: int, k: int)
    requires IsIndexOf(t, word, bitmaps, tickAt, k)
    ensures t in BitmapTicks(word, bitmaps, tickAt)
    decreases |bitmaps|
  {
    if k / 256 == word {
      WordTicksAreTheSetBits(word, bitmaps[0], tickAt, 0, t);
      assert k == word * 256 + k % 256;
      assert IsBitOf(t, word, bitmaps[0], tickAt, k % 256);
    } else {
      AnIndexedTickIsListed(word + 1, bitmaps[1..], tickAt, t, k);
    }
  }

  lemma {:induction false} InDomainKeeps(ticks: seq<int>, t: int)
    ensures t in InDomain(ticks) <==> t in ticks && MIN_TICK <= t <= MAX_TICK
    decreases |ticks|
  {
    if ticks != [] {
      InDomainKeeps(ticks[1..], t);
    }
  }

  predicate Aligned(t: int, spacing: Spacing) {
    t % spacing == 0
  }

  lemma {:induction false} AlignedTicksAreMultiples(t: int, k: int, spacing: Spacing)
    ensures t == Multiples(spacing)(k) <==> Aligned(t, spacing) && t / spacing == k
  {
    QuotientBounds(t, spacing);
    if t == k * spacing {
      QuotientIsUnique(t, k, spacing);
    }
  }

  /** For any number of words that fit: exactly the aligned ticks of the domain whose word
      was answered and whose bit is set. */
  lemma {:induction false} EnumerationIsExact(bitmaps: seq<nat>, spacing: Spacing, t: int)
    requires WordsFit(spacing, |bitmaps|)
    ensures t in InitializedTicks(bitmaps, spacing) <==>
              MIN_TICK <= t <= MAX_TICK && Aligned(t, spacing)
              && IsIndexOf(t, MinWord(spacing), bitmaps, Multiples(spacing), t / spacing)
  {
    var first, ticks := MinWord(spacing), BitmapTicks(MinWord(spacing), bitmaps, Multiples(spacing));
    NoTickWraps(bitmaps, spacing);
    InDomainKeeps(ticks, t);
    if t in ticks {
      var k := AListedTickHasAnIndex(first, bitmaps, Multiples(spacing), t);
      AlignedTicksAreMultiples(t, k, spacing);
    }
    if IsIndexOf(t, first, bitmaps, Multiples(spacing), t / spacing) {
      AnIndexedTickIsListed(first, bitmaps, Multiples(spacing), t, t / spacing);
      AlignedTicksAreMultiples(t, t / spacing, spacing);
    }
  }

  // ── Order ──────────────────────────────────────────────────────────────

  ghost predicate Growing(tickAt: int -> int) {
    forall a, b :: a < b ==> tickAt(a) < tickAt(b)
  }

  lemma {:induction false} WordTicksAscend(word: int, bits: nat, tickAt: int -> int, from: nat)
    requires from <= 256 && Growing(tickAt)
    ensures Ascending(WordTicks(word, bits, tickAt, from))
    ensures forall t :: t in WordTicks(word, bits, tickAt, from) ==>
              tickAt(word * 256 + from) <= t < tickAt(word * 256 + 256)
    decreases 256 - from
  {
    if from < 256 {
      WordTicksAscend(word, bits, tickAt, from + 1);
      var rest := WordTicks(word, bits, tickAt, from + 1);
      assert forall i :: 0 <= i < |rest| ==> rest[i] in rest;
    }
  }

  lemma {:induction false} AscendingJoins(a: seq<int>, b: seq<int>, m: int)
    requires Ascending(a) && Ascending(b)
    requires forall t :: t in a ==> t < m
    requires forall t :: t in b ==> m <= t
    ensures Ascending(a + b)
  {
    forall i, j | 0 <= i < j < |a + b|
      ensures (a + b)[i] < (a + b)[j]
    {
      if i < |a| <= j {
        assert a[i] in a && b[j - |a|] in b;
      }
    }
  }

  lemma {:induction false} BitmapTicksAscend(word: int, bitmaps: seq<nat>, tickAt: int -> int)
    requires Growing(tickAt)
    ensures Ascending(BitmapTicks(word, bitmaps, tickAt))
    ensures forall t :: t in BitmapTicks(word, bitmaps, tickAt) ==> tickAt(word * 256) <= t
    decreases |bitmaps|
  {
    if bitmaps != [] {
      WordTicksAscend(word, bitmaps[0], tickAt, 0);
      BitmapTicksAscend(word + 1, bitmaps[1..], tickAt);
      assert (word + 1) * 256 == word * 256 + 256;
      AscendingJoins(WordTicks(word, bitmaps[0], tickAt, 0), BitmapTicks(word + 1, bitmaps[1..], tickAt),
                     tickAt(word * 256 + 256));
    }
  }

  lemma {:induction false} FilteringAscends(ticks: seq<int>)
    requires Ascending(ticks)
    ensures Ascending(InDomain(ticks))
    decreases |ticks|
  {
    if ticks != [] {
      FilteringAscends(ticks[1..]);
      forall t | t in InDomain(ticks[1..])
        ensures ticks[0] < t
      {
        InDomainKeeps(ticks[1..], t);
      }
      var rest := InDomain(ticks[1..]);
      assert forall i :: 0 <= i < |rest| ==> rest[i] in rest;
    }
  }

  /** No tick twice, and the lowest first. */
  lemma {:induction false} TicksAscend(bitmaps: seq<nat>, spacing: Spacing)
    requires WordsFit(spacing, |bitmaps|)
    ensures Ascending(InitializedTicks(bitmaps, spacing))
  {
    NoTickWraps(bitmaps, spacing);
    forall a, b | a < b
      ensures Multiples(spacing)(a) < Multiples(spacing)(b)
    {
      MultiplesGrow(a, b, spacing);
    }
    BitmapTicksAscend(MinWord(spacing), bitmaps, Multiples(spacing));
    FilteringAscends(BitmapTicks(MinWord(spacing), bitmaps, Multiples(spacing)));
  }

  // ── The map ────────────────────────────────────────────────────────────

  datatype TickLiquidity = TickLiquidity(gross: U128, net: I128)

  /** `liquidityNet` in the high half of a tick's word, `liquidityGross` in the low. */
  function DecodeTick(raw: U256): TickLiquidity {
    TickLiquidity(raw % TWO_128, AsI128(raw / TWO_128))
  }

  function ZipIntoMap(ticks: seq<int>, words: seq<U256>): map<int, TickLiquidity> {
    if ticks == [] || words == [] then map[]
    else map[ticks[0] := DecodeTick(words[0])] + ZipIntoMap(ticks[1..], words[1..])
  }

  /** The pool's storage, by what the slots stand for. */
  datatype PoolStorage = PoolStorage(bitmap: int -> U256, tick: int -> U256)

  function WordCount(spacing: Spacing): nat {
    DivisionGrows(MIN_TICK, MAX_TICK, spacing);
    MaxWord(spacing) - MinWord(spacing) + 1
  }

  function BitmapWords(bitmap: int -> U256, first: int, count: nat): (words: seq<nat>)
    ensures |words| == count
    ensures forall i :: 0 <= i < count ==> words[i] == bitmap(first + i)
  {
    seq(count, i => bitmap(first + i) as nat)
  }

  function TickWords(tick: int -> U256, ticks: seq<int>): (words: seq<U256>)
    ensures |words| == |ticks|
    ensures forall i :: 0 <= i < |ticks| ==> words[i] == tick(ticks[i])
  {
    seq(|ticks|, i requires 0 <= i < |ticks| => tick(ticks[i]))
  }

  function ReadTickMap(storage: PoolStorage, spacing: Spacing): map<int, TickLiquidity> {
    var ticks := InitializedTicks(BitmapWords(storage.bitmap, MinWord(spacing), WordCount(spacing)), spacing);
    ZipIntoMap(ticks, TickWords(storage.tick, ticks))
  }

  lemma {:induction false} ZippedByPosition(ticks: seq<int>, words: seq<U256>, t: int)
    requires Ascending(ticks) && |ticks| == |words|
    ensures t in ZipIntoMap(ticks, words) <==> t in ticks
    ensures forall i :: 0 <= i < |ticks| && ticks[i] == t ==> ZipIntoMap(ticks, words)[t] == DecodeTick(words[i])
    decreases |ticks|
  {
    if ticks != [] {
      ZippedByPosition(ticks[1..], words[1..], t);
      forall i | 0 <= i < |ticks| && ticks[i] == t
        ensures ZipIntoMap(ticks, words)[t] == DecodeTick(words[i])
      {
        if i > 0 {
          assert ticks[1..][i - 1] == t;
        } else {
          assert t !in ticks[1..];
        }
      }
    }
  }

  /** Every index the domain's ticks can have is in the words asked for. */
  lemma {:induction false} DomainIsAnswered(t: int, spacing: Spacing)
    requires MIN_TICK <= t <= MAX_TICK
    ensures 0 <= (t / spacing) / 256 - MinWord(spacing) < WordCount(spacing)
  {
    DivisionGrows(MIN_TICK, t, spacing);
    DivisionGrows(t, MAX_TICK, spacing);
  }

  /** The tick map is the pool's own: a tick is in it exactly when it is an aligned tick
      of the domain whose bit the pool has set, and its entry is that tick's own stored
      word, the gross liquidity its lower half and the net its upper in two's complement. */
  lemma {:induction false} TickMapIsThePools(storage: PoolStorage, spacing: Spacing, t: int)
    ensures t in ReadTickMap(storage, spacing) <==>
              MIN_TICK <= t <= MAX_TICK && Aligned(t, spacing)
              && Bit(storage.bitmap((t / spacing) / 256), (t / spacing) % 256)
    ensures t in ReadTickMap(storage, spacing) ==>
              var entry := ReadTickMap(storage, spacing)[t];
              storage.tick(t) == entry.gross + TWO_128 * if entry.net >= 0 then entry.net else entry.net + TWO_128
  {
    var bitmaps := BitmapWords(storage.bitmap, MinWord(spacing), WordCount(spacing));
    var ticks := InitializedTicks(bitmaps, spacing);
    TheWordsAskedForFit(spacing);
    EnumerationIsExact(bitmaps, spacing, t);
    AlignedTicksAreMultiples(t, t / spacing, spacing);
    if MIN_TICK <= t <= MAX_TICK {
      DomainIsAnswered(t, spacing);
    }
    TicksAscend(bitmaps, spacing);
    ZippedByPosition(ticks, TickWords(storage.tick, ticks), t);
    if t in ticks {
      var i :| 0 <= i < |ticks| && ticks[i] == t;
      assert ReadTickMap(storage, spacing)[t] == DecodeTick(storage.tick(t));
    }
  }

  function Pow2(n: nat): (p: nat)
    ensures p > 0
  {
    if n == 0 then 1 else 2 * Pow2(n - 1)
  }

  lemma {:induction false} DivideTwice(word: nat, p: nat)
    requires p > 0
    ensures word / 2 / p == word / (2 * p)
  {
    var q := word / 2 / p;
    assert q * p <= word / 2 < q * p + p;
    assert q * (2 * p) == 2 * (q * p);
    assert q * (2 * p) <= word < q * (2 * p) + 2 * p;
    QuotientOf(word, 2 * p, q);
  }

  lemma {:induction false} QuotientOf(a: nat, d: nat, q: nat)
    requires d > 0 && q * d <= a < q * d + d
    ensures a / d == q
  {
    var r := a / d;
    assert r * d <= a < r * d + d;
    assert (r + 1) * d == r * d + d && (q + 1) * d == q * d + d;
    FactorOrder(q, r + 1, d);
    FactorOrder(r, q + 1, d);
  }

  lemma {:induction false} FactorOrder(a: int, b: int, d: nat)
    ensures a * d < b * d ==> a < b
  {
    if a >= b {
      ProductIsNonnegative(a - b, d);
      assert a * d == b * d + (a - b) * d;
    }
  }

  /** A bit is the binary digit of its place. */
  lemma {:induction false} BitIsTheDigit(word: nat, bit: nat)
    ensures Bit(word, bit) <==> word / Pow2(bit) % 2 == 1
    decreases bit
  {
    if bit > 0 {
      BitIsTheDigit(word / 2, bit - 1);
      DivideTwice(word, Pow2(bit - 1));
    }
  }

  // ── Answers of the wrong length ────────────────────────────────────────

  function Shorter(a: nat, b: nat): nat {
    if a <= b then a else b
  }

  lemma {:induction false} ZipStopsAtTheShorter(ticks: seq<int>, words: seq<U256>)
    ensures var n := Shorter(|ticks|, |words|);
            ZipIntoMap(ticks, words) == ZipIntoMap(ticks[..n], words[..n])
    decreases |ticks|
  {
    if ticks != [] && words != [] {
      var n := Shorter(|ticks|, |words|);
      ZipStopsAtTheShorter(ticks[1..], words[1..]);
      assert ticks[..n][1..] == ticks[1..][..n - 1];
      assert words[..n][1..] == words[1..][..n - 1];
    }
  }

  /** The number of tick words answered is not checked. Too few and the highest ticks are
      missing from the map without an error: every initialized tick is in it exactly when
      there were at least as many words as ticks. */
  lemma {:induction false} TheMapIsCompleteExactlyWhenEveryTickWasAnswered(
      bitmaps: seq<nat>, spacing: Spacing, words: seq<U256>)
    requires WordsFit(spacing, |bitmaps|)
    ensures var ticks := InitializedTicks(bitmaps, spacing);
            (forall t :: t in ticks ==> t in ZipIntoMap(ticks, words)) <==> |words| >= |ticks|
    ensures var ticks := InitializedTicks(bitmaps, spacing);
            forall i :: 0 <= i < |ticks| ==> (ticks[i] in ZipIntoMap(ticks, words) <==> i < |words|)
  {
    var ticks := InitializedTicks(bitmaps, spacing);
    var n := Shorter(|ticks|, |words|);
    TicksAscend(bitmaps, spacing);
    ZipStopsAtTheShorter(ticks, words);
    forall i | 0 <= i < |ticks|
      ensures ticks[i] in ZipIntoMap(ticks, words) <==> i < |words|
    {
      ZippedByPosition(ticks[..n], words[..n], ticks[i]);
      if i < |words| {
        assert ticks[..n][i] == ticks[i];
      }
    }
    if |words| < |ticks| {
      assert ticks[|words|] in ticks;
    }
  }

  /** The input: the pool has set tick 0, and no tick word is answered. The map is empty
      and nothing fails. */
  lemma {:induction false} AnAnswerTooShortDropsATick()
    ensures InitializedTicks([0, 1], MAX_SPACING) == [0] && ZipIntoMap([0], []) == map[]
  {
    var tickAt := Products(MAX_SPACING);
    assert MinWord(MAX_SPACING) == -1;
    assert tickAt(0) == 0;
    NoBitsNoTicks(-1, tickAt, 0);
    LowestBitOnly(0, tickAt);
    var bitmaps := [0, 1];
    assert bitmaps[1..] == [1] && bitmaps[1..][1..] == [];
    assert BitmapTicks(1, [], tickAt) == [];
    assert BitmapTicks(0, [1], tickAt) == [0];
    assert BitmapTicks(-1, bitmaps, tickAt) == [0];
  }
}
