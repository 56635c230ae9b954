/** The fee-growth batch of a set of maker positions: one `extsload` whose flat answer is
    indexed back to the pool, the distinct band ticks and the positions. */
module FeeGrowth {
  import opened Wrappers
  import opened Rows
  import BalanceDelta

  type Tick = int
  type Word = int

  /** A storage slot of the pool manager, named by what it is hashed from. */
  datatype Slot =
    | Global1(poolId: int)
    | Outside1(poolId: int, tick: Tick)
    | Inside1(poolId: int, owner: int, tickLower: Tick, tickUpper: Tick, salt: PosId)

  /** A position row with its maker details, as decoded: the fields the batch looks at,
      the rest as one opaque value. */
  datatype MakerRow = MakerRow(liquidity: nat, tickLower: Tick, tickUpper: Tick, liqMarginRatio: nat,
                               delta: BalanceDelta.I256, rest: int)

  /** A maker position that survived the row read and awaits the slot reads. */
  datatype PendingMaker = PendingMaker(inputIndex: nat, posId: PosId, row: MakerRow, tickLower: Tick, tickUpper: Tick)

  // ── Sorted sets of ticks ───────────────────────────────────────────────

  function Insert(s: seq<Tick>, t: Tick): seq<Tick> {
    if s == [] || t < s[0] then [t] + s
    else if t == s[0] then s
    else [s[0]] + Insert(s[1..], t)
  }

  /** The distinct band ticks of the makers, in ascending order. */
  function BandTicks(pending: seq<PendingMaker>): seq<Tick> {
    if pending == [] then []
    else Insert(Insert(BandTicks(pending[1..]), pending[0].tickUpper), pending[0].tickLower)
  }

  predicate Ascending(s: seq<Tick>) {
    forall i, j :: 0 <= i < j < |s| ==> s[i] < s[j]
  }

  predicate IsBoundary(pending: seq<PendingMaker>, t: Tick) {
    exists maker :: maker in pending && (t == maker.tickLower || t == maker.tickUpper)
  }

  lemma {:induction false} InsertKeepsAscending(s: seq<Tick>, t: Tick)
    requires Ascending(s)
    ensures Ascending(Insert(s, t))
    ensures forall u :: u in Insert(s, t) <==> u in s || u == t
    decreases |s|
  {
    if s != [] && t > s[0] {
      InsertKeepsAscending(s[1..], t);
      var rest := Insert(s[1..], t);
      assert forall u :: u in rest ==> s[0] < u;
      assert s == [s[0]] + s[1..];
    }
  }

  /** Every boundary is among the band ticks, once, and nothing else is. */
  lemma {:induction false} BandTicksAreTheBoundaries(pending: seq<PendingMaker>)
    ensures Ascending(BandTicks(pending))
    ensures forall t :: t in BandTicks(pending) <==> IsBoundary(pending, t)
    decreases |pending|
  {
    if pending != [] {
      var maker, rest := pending[0], pending[1..];
      BandTicksAreTheBoundaries(rest);
      InsertKeepsAscending(BandTicks(rest), maker.tickUpper);
      InsertKeepsAscending(Insert(BandTicks(rest), maker.tickUpper), maker.tickLower);
      forall t
        ensures IsBoundary(pending, t) <==> IsBoundary(rest, t) || t == maker.tickLower || t == maker.tickUpper
      {
        assert forall m :: m in pending <==> m == maker || m in rest;
      }
    }
  }

  // ── The layout ─────────────────────────────────────────────────────────

  datatype FeeGrowthLayout = FeeGrowthLayout(tickWord: map<Tick, nat>, firstInsideWord: nat, wordCount: nat)

  function OutsideSlots(poolId: int, ticks: seq<Tick>): (slots: seq<Slot>)
    ensures |slots| == |ticks|
    ensures forall k :: 0 <= k < |ticks| ==> slots[k] == Outside1(poolId, ticks[k])
  {
    seq(|ticks|, k requires 0 <= k < |ticks| => Outside1(poolId, ticks[k]))
  }

  function InsideSlot(poolId: int, perp: int, maker: PendingMaker): Slot {
    Inside1(poolId, perp, maker.tickLower, maker.tickUpper, maker.posId)
  }

  function InsideSlots(poolId: int, perp: int, pending: seq<PendingMaker>): (slots: seq<Slot>)
    ensures |slots| == |pending|
    ensures forall i :: 0 <= i < |pending| ==> slots[i] == InsideSlot(poolId, perp, pending[i])
  {
    seq(|pending|, i requires 0 <= i < |pending| => InsideSlot(poolId, perp, pending[i]))
  }

  /** The slots of one batch: the pool's word, one per distinct tick, one per position. */
  function SlotsOf(poolId: int, perp: int, pending: seq<PendingMaker>): seq<Slot> {
    [Global1(poolId)] + OutsideSlots(poolId, BandTicks(pending)) + InsideSlots(poolId, perp, pending)
  }

  /** Ticks numbered from word 1. */
  function Numbered(ticks: seq<Tick>): map<Tick, nat> {
    if ticks == [] then map[]
    else Numbered(ticks[..|ticks| - 1])[ticks[|ticks| - 1] := |ticks|]
  }

  function LayoutOf(pending: seq<PendingMaker>): FeeGrowthLayout {
    var ticks := |BandTicks(pending)|;
    FeeGrowthLayout(Numbered(BandTicks(pending)), 1 + ticks, 1 + ticks + |pending|)
  }

  /** The layout and its slot vector, built push by push. */
  method NewLayout(poolId: int, perp: int, pending: seq<PendingMaker>)
    returns (layout: FeeGrowthLayout, slots: seq<Slot>)
    ensures layout == LayoutOf(pending)
    ensures slots == SlotsOf(poolId, perp, pending)
  {
    var ticks := BandTicks(pending);
    slots := [Global1(poolId)];
    var tickWord: map<Tick, nat> := map[];
    for k := 0 to |ticks|
      invariant slots == [Global1(poolId)] + OutsideSlots(poolId, ticks[..k])
      invariant tickWord == Numbered(ticks[..k])
    {
      tickWord := tickWord[ticks[k] := |slots|];
      slots := slots + [Outside1(poolId, ticks[k])];
      assert ticks[..k + 1][..k] == ticks[..k];
    }
    assert ticks[..|ticks|] == ticks;
    var firstInsideWord := |slots|;
    for i := 0 to |pending|
      invariant slots == [Global1(poolId)] + OutsideSlots(poolId, ticks) + InsideSlots(poolId, perp, pending[..i])
    {
      slots := slots + [Inside1(poolId, perp, pending[i].tickLower, pending[i].tickUpper, pending[i].posId)];
    }
    assert pending[..|pending|] == pending;
    layout := FeeGrowthLayout(tickWord, firstInsideWord, |slots|);
  }

  lemma {:induction false} NumberedFromOne(ticks: seq<Tick>)
    requires Ascending(ticks)
    ensures forall t :: t in Numbered(ticks) <==> t in ticks
    ensures forall k :: 0 <= k < |ticks| ==> Numbered(ticks)[ticks[k]] == 1 + k
    decreases |ticks|
  {
    if ticks != [] {
      var front := ticks[..|ticks| - 1];
      NumberedFromOne(front);
      assert ticks == front + [ticks[|ticks| - 1]];
      assert forall k :: 0 <= k < |front| ==> front[k] == ticks[k];
    }
  }

  lemma {:induction false} DistinctTicks(ticks: seq<Tick>)
    requires Ascending(ticks)
    ensures |set t | t in ticks| == |ticks|
    decreases |ticks|
  {
    if ticks != [] {
      var front, last := ticks[..|ticks| - 1], ticks[|ticks| - 1];
      DistinctTicks(front);
      assert ticks == front + [last];
      assert (set t | t in ticks) == (set t | t in front) + {last};
      assert last !in front;
    }
  }

  /** The batch asks for one word for the pool, one for each distinct boundary and one
      for each position. */
  lemma {:induction false} WordCountIsExact(poolId: int, perp: int, pending: seq<PendingMaker>)
    ensures LayoutOf(pending).wordCount == |SlotsOf(poolId, perp, pending)|
    ensures LayoutOf(pending).wordCount == 1 + |set t | t in BandTicks(pending)| + |pending|
  {
    BandTicksAreTheBoundaries(pending);
    DistinctTicks(BandTicks(pending));
  }

  // ── The words ──────────────────────────────────────────────────────────

  datatype FeeGrowthWords = FeeGrowthWords(layout: FeeGrowthLayout, words: seq<Word>) {
    /** Every index of the layout is a word. */
    predicate Valid() {
      && |words| > 0
      && (forall t :: t in layout.tickWord ==> layout.tickWord[t] < |words|)
      && layout.firstInsideWord <= |words|
    }

    function Global(): Word
      requires Valid()
    {
      words[0]
    }

    function Outside(tick: Tick): Result<Word, ReadError>
      requires Valid()
    {
      if tick in layout.tickWord then Ok(words[layout.tickWord[tick]]) else Err(StorageReadFailed(None))
    }

    function InsideLast(position: nat): Word
      requires layout.firstInsideWord + position < |words|
    {
      words[layout.firstInsideWord + position]
    }
  }

  /** The one `extsload` of the batch; an answer of any other length fails it. */
  method ReadFeeGrowth(poolId: int, perp: int, pending: seq<PendingMaker>,
                       extsload: seq<Slot> -> Result<seq<Word>, ReadError>)
    returns (out: Result<FeeGrowthWords, ReadError>)
    ensures out == FeeGrowthOf(pending, extsload(SlotsOf(poolId, perp, pending)))
    ensures var slots := SlotsOf(poolId, perp, pending);
            match extsload(slots)
            case Err(e) => out == Err(e)
            case Ok(words) => if |words| == |slots| then out.Ok? && out.value.words == words
                              else out == Err(StorageReadFailed(None))
  {
    var layout, slots := NewLayout(poolId, perp, pending);
    match extsload(slots)
    case Err(e) => out := Err(e);
    case Ok(words) =>
      if |words| != layout.wordCount {
        out := Err(StorageReadFailed(None));
      } else {
        out := Ok(FeeGrowthWords(layout, words));
      }
  }

  function FeeGrowthOf(pending: seq<PendingMaker>, answer: Result<seq<Word>, ReadError>)
    : Result<FeeGrowthWords, ReadError> {
    match answer
    case Err(e) => Err(e)
    case Ok(words) =>
      if |words| != LayoutOf(pending).wordCount then Err(StorageReadFailed(None))
      else Ok(FeeGrowthWords(LayoutOf(pending), words))
  }

  /** Whatever the node answers, an accepted answer has a word for every index a pending
      maker uses, so the branch for a tick missing from the layout is never taken. */
  lemma {:induction false} NoTickIsMissing(pending: seq<PendingMaker>, answer: Result<seq<Word>, ReadError>, i: nat)
    requires i < |pending|
    requires FeeGrowthOf(pending, answer).Ok?
    ensures var fees := FeeGrowthOf(pending, answer).value;
            && fees.Valid()
            && fees.Outside(pending[i].tickLower).Ok?
            && fees.Outside(pending[i].tickUpper).Ok?
            && fees.layout.firstInsideWord + i < |fees.words|
  {
    BandTicksAreTheBoundaries(pending);
    NumberedFromOne(BandTicks(pending));
    assert IsBoundary(pending, pending[i].tickLower);
    assert IsBoundary(pending, pending[i].tickUpper);
    forall t | t in Numbered(BandTicks(pending))
      ensures Numbered(BandTicks(pending))[t] <= |BandTicks(pending)|
    {
      var k := WordOfATick(pending, t);
    }
  }

  lemma {:induction false} WordOfATick(pending: seq<PendingMaker>, t: Tick) returns (k: nat)
    requires t in BandTicks(pending)
    ensures k < |BandTicks(pending)| && BandTicks(pending)[k] == t
    ensures t in Numbered(BandTicks(pending)) && Numbered(BandTicks(pending))[t] == 1 + k
  {
    BandTicksAreTheBoundaries(pending);
    NumberedFromOne(BandTicks(pending));
    k :| 0 <= k < |BandTicks(pending)| && BandTicks(pending)[k] == t;
  }

  lemma {:induction false} JoinedAt<T>(head: T, middle: seq<T>, tail: seq<T>, word: nat)
    requires word < 1 + |middle| + |tail|
    ensures ([head] + middle + tail)[word]
            == if word == 0 then head
               else if word <= |middle| then middle[word - 1]
               else tail[word - 1 - |middle|]
  {
  }

  function Stored(slots: seq<Slot>, storage: Slot -> Word): (words: seq<Word>)
    ensures |words| == |slots|
    ensures forall k :: 0 <= k < |slots| ==> words[k] == storage(slots[k])
  {
    seq(|slots|, k requires 0 <= k < |slots| => storage(slots[k]))
  }

  /** Against a node that reads the slots it is asked for, the deduplicated batch gives
      every maker the words at its own slots, as one read per maker and slot would. */
  lemma {:induction false} EveryMakerGetsItsOwnWords(poolId: int, perp: int, pending: seq<PendingMaker>,
                                                     storage: Slot -> Word, i: nat)
    requires i < |pending|
    ensures var read := FeeGrowthOf(pending, Ok(Stored(SlotsOf(poolId, perp, pending), storage)));
            var maker := pending[i];
            && read.Ok?
            && read.value.Valid()
            && read.value.Global() == storage(Global1(poolId))
            && read.value.Outside(maker.tickLower) == Ok(storage(Outside1(poolId, maker.tickLower)))
            && read.value.Outside(maker.tickUpper) == Ok(storage(Outside1(poolId, maker.tickUpper)))
            && read.value.layout.firstInsideWord + i < |read.value.words|
            && read.value.InsideLast(i)
               == storage(Inside1(poolId, perp, maker.tickLower, maker.tickUpper, maker.posId))
  {
    var slots := SlotsOf(poolId, perp, pending);
    NoTickIsMissing(pending, Ok(Stored(slots, storage)), i);
    BandTicksAreTheBoundaries(pending);
    assert IsBoundary(pending, pending[i].tickLower);
    assert IsBoundary(pending, pending[i].tickUpper);
    OutsideIsRead(poolId, perp, pending, storage, pending[i].tickLower);
    OutsideIsRead(poolId, perp, pending, storage, pending[i].tickUpper);
    JoinedAt(Global1(poolId), OutsideSlots(poolId, BandTicks(pending)), InsideSlots(poolId, perp, pending), 0);
    JoinedAt(Global1(poolId), OutsideSlots(poolId, BandTicks(pending)), InsideSlots(poolId, perp, pending),
             1 + |BandTicks(pending)| + i);
  }

  lemma {:induction false} OutsideIsRead(poolId: int, perp: int, pending: seq<PendingMaker>, storage: Slot -> Word,
                                         t: Tick)
    requires t in BandTicks(pending)
    ensures t in LayoutOf(pending).tickWord
    ensures var words := Stored(SlotsOf(poolId, perp, pending), storage);
            var word := LayoutOf(pending).tickWord[t];
            word < |words| && words[word] == storage(Outside1(poolId, t))
  {
    var k := WordOfATick(pending, t);
    JoinedAt(Global1(poolId), OutsideSlots(poolId, BandTicks(pending)), InsideSlots(poolId, perp, pending), 1 + k);
  }
}
