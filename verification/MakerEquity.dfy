/** The maker-equity batch: rows, then the slot reads of the makers among them, merged
    back into one outcome per id in input order. */
module MakerEquity {
  import opened Wrappers
  import opened Rows
  import opened FeeGrowth
  import opened TickFunding
  import BalanceDelta

  const UNISWAP_MAX_TICK: int := 887_272
  const MAX_E6: nat := 16_777_215
  const WORDS: int := BalanceDelta.TWO_256

  datatype Kind = Computed(equity: int) | NotAMaker | Failed(error: ReadError)

  datatype Outcome = Outcome(posId: PosId, kind: Kind)

  /** What the settle math is given for one maker. */
  datatype MakerState = MakerState(
    row: MakerRow,
    deltaPerp: BalanceDelta.I128, deltaUsd: BalanceDelta.I128,
    tickLower: Tick, tickUpper: Tick,
    fundingLower: Funding, fundingUpper: Funding,
    feeGrowthInside1: Word, feeGrowthInside1Last: Word)

  /** Everything a chunk is read against: the pool, the accrued market (its tick and its
      settle math), and the answers of the node to the two slot reads. */
  datatype Market = Market(
    poolId: int,
    perp: int,
    currentTick: Tick,
    settle: MakerState -> Result<int, ReadError>,
    extsload: seq<Slot> -> Result<seq<Word>, ReadError>,
    tickFunding: seq<Tick> -> map<Tick, TickRead>)

  // ── One maker ──────────────────────────────────────────────────────────

  predicate InDomain(tick: Tick) {
    -UNISWAP_MAX_TICK <= tick <= UNISWAP_MAX_TICK
  }

  /** The lower tick is looked at first. */
  function NewPending(inputIndex: nat, posId: PosId, row: MakerRow): Result<PendingMaker, ReadError> {
    if !InDomain(row.tickLower) then Err(InvalidTickRange(row.tickLower, row.tickLower))
    else if !InDomain(row.tickUpper) then Err(InvalidTickRange(row.tickUpper, row.tickUpper))
    else Ok(PendingMaker(inputIndex, posId, row, row.tickLower, row.tickUpper))
  }

  function TickFundingFor(funding: map<Tick, TickRead>, tick: Tick): Result<Funding, ReadError> {
    if tick !in funding then Err(StorageReadFailed(None))
    else match funding[tick]
      case Ok(words) => Ok(words)
      case Err(cause) => Err(StorageReadFailed(Some(cause)))
  }

  /** Wrapping subtraction of 256-bit words. */
  function Since(now: Word, before: Word): Word {
    if now >= before then now - before else now - before + WORDS
  }

  function FeeGrowthInside(global: Word, outsideLower: Word, outsideUpper: Word, tickLower: Tick, tickUpper: Tick,
                           currentTick: Tick): Word {
    var below := if currentTick >= tickLower then outsideLower else Since(global, outsideLower);
    var above := if currentTick < tickUpper then outsideUpper else Since(global, outsideUpper);
    Since(Since(global, below), above)
  }

  function RatioFromE6(e6: nat): Result<nat, ReadError> {
    if e6 <= MAX_E6 then Ok(e6) else Err(InvalidMarginRatio(e6))
  }

  /** The settle preview of one maker from its reads; the first failing one is its error. */
  function Settled(market: Market, maker: PendingMaker, fundingLower: Result<Funding, ReadError>,
                   fundingUpper: Result<Funding, ReadError>, global: Word, outsideLower: Result<Word, ReadError>,
                   outsideUpper: Result<Word, ReadError>, insideLast: Word)
    : Result<int, ReadError>
  {
    if fundingLower.Err? then Err(fundingLower.error)
    else if fundingUpper.Err? then Err(fundingUpper.error)
    else if outsideLower.Err? then Err(outsideLower.error)
    else if outsideUpper.Err? then Err(outsideUpper.error)
    else if RatioFromE6(maker.row.liqMarginRatio).Err? then Err(RatioFromE6(maker.row.liqMarginRatio).error)
    else
      var (deltaPerp, deltaUsd) := BalanceDelta.UnpackBalanceDelta(maker.row.delta);
      market.settle(MakerState(maker.row, deltaPerp, deltaUsd, maker.tickLower, maker.tickUpper,
                               fundingLower.value, fundingUpper.value,
                               FeeGrowthInside(global, outsideLower.value, outsideUpper.value,
                                               maker.tickLower, maker.tickUpper, market.currentTick),
                               insideLast))
  }

  // ── The makers of a chunk ──────────────────────────────────────────────

  function FeeRead(market: Market, pending: seq<PendingMaker>): Result<FeeGrowthWords, ReadError> {
    FeeGrowthOf(pending, market.extsload(SlotsOf(market.poolId, market.perp, pending)))
  }

  /** The settle preview of the `i`-th pending maker from the batched reads. */
  function EquityAt(market: Market, pending: seq<PendingMaker>, i: nat): Result<int, ReadError>
    requires i < |pending|
  {
    var read := FeeRead(market, pending);
    if read.Err? then Err(Shared(read.error))
    else
      NoTickIsMissing(pending, market.extsload(SlotsOf(market.poolId, market.perp, pending)), i);
      var fees, funding, maker := read.value, market.tickFunding(BandTicks(pending)), pending[i];
      Settled(market, maker, TickFundingFor(funding, maker.tickLower), TickFundingFor(funding, maker.tickUpper),
              fees.Global(), fees.Outside(maker.tickLower), fees.Outside(maker.tickUpper), fees.InsideLast(i))
  }

  /** No makers, no reads; otherwise one result per maker, in their order. */
  function PendingEquities(market: Market, pending: seq<PendingMaker>): (equities: seq<Result<int, ReadError>>)
    ensures |equities| == |pending|
    ensures forall i: nat :: i < |pending| ==> equities[i] == EquityAt(market, pending, i)
  {
    seq(|pending|, i requires 0 <= i < |pending| => EquityAt(market, pending, i))
  }

  function KindOf(equity: Result<int, ReadError>): Kind {
    match equity
    case Ok(breakdown) => Computed(breakdown)
    case Err(e) => Failed(e)
  }

  // ── The chunk ──────────────────────────────────────────────────────────

  type MakerRows = seq<RowOutcome<MakerRow>>

  /** Whether row `i` yields a maker that awaits the slot reads. */
  predicate Awaits(rows: MakerRows, i: nat)
    requires i < |rows|
  {
    rows[i].row.Ok? && rows[i].row.value.Some? && NewPending(i, rows[i].posId, rows[i].row.value.value).Ok?
  }

  function MakerAt(rows: MakerRows, i: nat): PendingMaker
    requires i < |rows| && Awaits(rows, i)
  {
    NewPending(i, rows[i].posId, rows[i].row.value.value).value
  }

  /** The makers among the first `n` rows, in order. */
  function Makers(rows: MakerRows, n: nat): seq<PendingMaker>
    requires n <= |rows|
  {
    if n == 0 then []
    else if Awaits(rows, n - 1) then Makers(rows, n - 1) + [MakerAt(rows, n - 1)]
    else Makers(rows, n - 1)
  }

  /** The kind a row has by itself, before any slot is read. */
  function EarlyKind(rows: MakerRows, i: nat): Kind
    requires i < |rows|
  {
    match rows[i].row
    case Err(e) => Failed(e)
    case Ok(None) => NotAMaker
    case Ok(Some(row)) =>
      match NewPending(i, rows[i].posId, row)
      case Ok(_) => NotAMaker
      case Err(e) => Failed(e)
  }

  function KindAt(market: Market, rows: MakerRows, i: nat): Kind
    requires i < |rows|
  {
    if Awaits(rows, i) then
      MakersAreSpread(rows, |rows|, i);
      KindOf(EquityAt(market, Makers(rows, |rows|), |Makers(rows, i)|))
    else EarlyKind(rows, i)
  }

  function ChunkKinds(market: Market, rows: MakerRows): (kinds: seq<Kind>)
    ensures |kinds| == |rows|
    ensures forall i: nat :: i < |rows| ==> kinds[i] == KindAt(market, rows, i)
  {
    seq(|rows|, i requires 0 <= i < |rows| => KindAt(market, rows, i))
  }

  /** A later maker has a later input index, and the number of makers before row `i` is
      where row `i`'s own maker stands. */
  lemma {:induction false} MakersAreSpread(rows: MakerRows, n: nat, i: nat)
    requires i < n <= |rows|
    ensures |Makers(rows, i)| <= |Makers(rows, n)|
    ensures Awaits(rows, i) ==>
              |Makers(rows, i)| < |Makers(rows, n)| && Makers(rows, n)[|Makers(rows, i)|] == MakerAt(rows, i)
    decreases n
  {
    if i < n - 1 {
      MakersAreSpread(rows, n - 1, i);
    }
  }

  lemma {:induction false} MakersComeFromRows(rows: MakerRows, n: nat, k: nat)
    requires n <= |rows| && k < |Makers(rows, n)|
    ensures var i := Makers(rows, n)[k].inputIndex;
            i < n && Awaits(rows, i) && Makers(rows, n)[k] == MakerAt(rows, i) && |Makers(rows, i)| == k
    decreases n
  {
    if k < |Makers(rows, n - 1)| {
      MakersComeFromRows(rows, n - 1, k);
    }
  }

  /** One chunk: a first loop over the rows, the slot reads, and a second loop that puts
      each maker's result at its input index. */
  method ChunkEquities(market: Market, posIds: seq<PosId>, rows: MakerRows) returns (kinds: seq<Kind>)
    requires |rows| == |posIds|
    ensures kinds == ChunkKinds(market, rows)
  {
    kinds := seq(|posIds|, _ => NotAMaker);
    var pending: seq<PendingMaker> := [];
    for inputIndex := 0 to |rows|
      invariant |kinds| == |rows|
      invariant pending == Makers(rows, inputIndex)
      invariant forall i: nat :: i < inputIndex ==> kinds[i] == EarlyKind(rows, i)
      invariant forall i: nat :: inputIndex <= i < |rows| ==> kinds[i] == NotAMaker
    {
      match rows[inputIndex].row
      case Ok(None) =>
      case Ok(Some(row)) =>
        match NewPending(inputIndex, rows[inputIndex].posId, row) {
          case Ok(maker) => pending := pending + [maker];
          case Err(e) => kinds := kinds[inputIndex := Failed(e)];
        }
      case Err(e) => kinds := kinds[inputIndex := Failed(e)];
    }
    var equities := PendingEquities(market, pending);
    for k := 0 to |pending|
      invariant |kinds| == |rows|
      invariant forall i: nat :: i < |rows| ==>
                  kinds[i] == if Awaits(rows, i) && |Makers(rows, i)| < k then KindAt(market, rows, i)
                              else EarlyKind(rows, i)
    {
      MakersComeFromRows(rows, |rows|, k);
      forall i: nat | i < |rows| && Awaits(rows, i) && |Makers(rows, i)| == k
        ensures i == pending[k].inputIndex
      {
        MakersAreSpread(rows, |rows|, i);
      }
      kinds := kinds[pending[k].inputIndex := KindOf(equities[k])];
    }
    forall i: nat | i < |rows| && Awaits(rows, i)
      ensures |Makers(rows, i)| < |pending|
    {
      MakersAreSpread(rows, |rows|, i);
    }
  }
}
