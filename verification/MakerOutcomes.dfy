/** What the maker-equity batch promises: every id has the outcome it would have alone,
    and a failure reaches exactly the ids it concerns. */
module MakerOutcomes {
  import opened Wrappers
  import opened Rows
  import opened FeeGrowth
  import opened TickFunding
  import opened MakerEquity
  import BalanceDelta

  // ── One id alone ───────────────────────────────────────────────────────

  function OneTick(tickRead: Tick -> TickRead, tick: Tick): Result<Funding, ReadError> {
    match tickRead(tick)
    case Ok(words) => Ok(words)
    case Err(cause) => Err(StorageReadFailed(Some(cause)))
  }

  /** The outcome of one id from reads of its own: its row, the two funding reads of its
      ticks and the four slots it needs, each read where it is stored. */
  function KindAlone(market: Market, storage: Slot -> Word, tickRead: Tick -> TickRead,
                     posId: PosId, row: Result<Option<MakerRow>, ReadError>): Kind
  {
    match row
    case Err(e) => Failed(e)
    case Ok(None) => NotAMaker
    case Ok(Some(details)) =>
      var lower, upper := details.tickLower, details.tickUpper;
      if !(-887_272 <= lower <= 887_272) then Failed(InvalidTickRange(lower, lower))
      else if !(-887_272 <= upper <= 887_272) then Failed(InvalidTickRange(upper, upper))
      else if tickRead(lower).Err? then Failed(StorageReadFailed(Some(tickRead(lower).error)))
      else if tickRead(upper).Err? then Failed(StorageReadFailed(Some(tickRead(upper).error)))
      else if details.liqMarginRatio > MAX_E6 then Failed(InvalidMarginRatio(details.liqMarginRatio))
      else
        match market.settle(StateAlone(market, storage, details, posId, tickRead(lower).value, tickRead(upper).value))
        case Ok(equity) => Computed(equity)
        case Err(e) => Failed(e)
  }

  /** What the settle math is given for it. */
  function StateAlone(market: Market, storage: Slot -> Word, details: MakerRow, posId: PosId,
                      fundingLower: Funding, fundingUpper: Funding): MakerState
  {
    var lower, upper := details.tickLower, details.tickUpper;
    var (deltaPerp, deltaUsd) := BalanceDelta.UnpackBalanceDelta(details.delta);
    var inside := FeeGrowthInside(storage(Global1(market.poolId)), storage(Outside1(market.poolId, lower)),
                                  storage(Outside1(market.poolId, upper)), lower, upper, market.currentTick);
    MakerState(details, deltaPerp, deltaUsd, lower, upper, fundingLower, fundingUpper,
               inside, storage(Inside1(market.poolId, market.perp, lower, upper, posId)))
  }

  /** The node answers this chunk's two slot reads by what is stored. */
  predicate AnswersTruly(market: Market, pending: seq<PendingMaker>, storage: Slot -> Word,
                         tickRead: Tick -> TickRead) {
    var slots, funding := SlotsOf(market.poolId, market.perp, pending), market.tickFunding(BandTicks(pending));
    && market.extsload(slots) == Ok(Stored(slots, storage))
    && forall t :: t in BandTicks(pending) ==> t in funding && funding[t] == tickRead(t)
  }

  lemma {:induction false} MakerEqualsAlone(market: Market, pending: seq<PendingMaker>, storage: Slot -> Word,
                                            tickRead: Tick -> TickRead, k: nat)
    requires k < |pending|
    requires AnswersTruly(market, pending, storage, tickRead)
    ensures var maker := pending[k];
            EquityAt(market, pending, k)
            == Settled(market, maker, OneTick(tickRead, maker.tickLower), OneTick(tickRead, maker.tickUpper),
                       storage(Global1(market.poolId)),
                       Ok(storage(Outside1(market.poolId, maker.tickLower))),
                       Ok(storage(Outside1(market.poolId, maker.tickUpper))),
                       storage(InsideSlot(market.poolId, market.perp, maker)))
  {
    EveryMakerGetsItsOwnWords(market.poolId, market.perp, pending, storage, k);
    BandTicksAreTheBoundaries(pending);
    assert IsBoundary(pending, pending[k].tickLower) && IsBoundary(pending, pending[k].tickUpper);
  }

  /** The batch refines one read per id: the deduplicated words, the shared tick reads
      and the scatter by input index together give row `i` its own outcome. */
  lemma {:induction false} ChunkEqualsAlone(market: Market, rows: MakerRows, storage: Slot -> Word,
                                            tickRead: Tick -> TickRead, i: nat)
    requires i < |rows|
    requires AnswersTruly(market, Makers(rows, |rows|), storage, tickRead)
    ensures ChunkKinds(market, rows)[i] == KindAlone(market, storage, tickRead, rows[i].posId, rows[i].row)
  {
    if Awaits(rows, i) {
      MakersAreSpread(rows, |rows|, i);
      MakerEqualsAlone(market, Makers(rows, |rows|), storage, tickRead, |Makers(rows, i)|);
    }
  }

  /** So the company an id is read in does not show: in two chunks, at two positions, the
      same row has the same outcome. */
  lemma {:induction false} OutcomesDoNotDependOnTheBatch(market: Market, rows: MakerRows, others: MakerRows,
                                                         storage: Slot -> Word, tickRead: Tick -> TickRead, i: nat,
                                                         j: nat)
    requires i < |rows| && j < |others| && rows[i] == others[j]
    requires AnswersTruly(market, Makers(rows, |rows|), storage, tickRead)
    requires AnswersTruly(market, Makers(others, |others|), storage, tickRead)
    ensures ChunkKinds(market, rows)[i] == ChunkKinds(market, others)[j]
  {
    ChunkEqualsAlone(market, rows, storage, tickRead, i);
    ChunkEqualsAlone(market, others, storage, tickRead, j);
  }

  // ── Failures ───────────────────────────────────────────────────────────

  /** One of the reads the maker at row `i` shares with others failed. */
  predicate SharedReadFails(market: Market, rows: MakerRows, i: nat)
    requires i < |rows| && Awaits(rows, i)
  {
    var pending, maker := Makers(rows, |rows|), MakerAt(rows, i);
    var funding := market.tickFunding(BandTicks(pending));
    || FeeRead(market, pending).Err?
    || TickFundingFor(funding, maker.tickLower).Err?
    || TickFundingFor(funding, maker.tickUpper).Err?
  }

  predicate BandIsRejected(row: Result<Option<MakerRow>, ReadError>) {
    row.Ok? && row.value.Some? && !(InDomain(row.value.value.tickLower) && InDomain(row.value.value.tickUpper))
  }

  /** The tick outside the domain, the lower if both are. */
  function BandError(row: MakerRow): ReadError {
    var t := if -887_272 <= row.tickLower <= 887_272 then row.tickUpper else row.tickLower;
    InvalidTickRange(t, t)
  }

  /** The shared failure a maker carries: the fee-growth read's, else the lower tick's, else
      the upper's. */
  function SharedError(market: Market, pending: seq<PendingMaker>, row: MakerRow): ReadError {
    var read, funding := FeeRead(market, pending), market.tickFunding(BandTicks(pending));
    if read.Err? then Shared(read.error)
    else if row.tickLower !in funding || funding[row.tickLower].Err? then TickError(funding, row.tickLower)
    else TickError(funding, row.tickUpper)
  }

  /** Retryable with the transport failure of the tick's read, if there was one. */
  function TickError(funding: map<Tick, TickRead>, tick: Tick): ReadError {
    StorageReadFailed(if tick in funding && funding[tick].Err? then Some(funding[tick].error) else None)
  }

  predicate IsOfRow(state: MakerState, row: MakerRow) {
    state.row == row && state.tickLower == row.tickLower && state.tickUpper == row.tickUpper
  }

  /** `state` is what the settle math should be given for the `k`-th maker: its own row
      and ticks, the lanes of its own delta in their order, the funding and the outside
      growth read for each of its ticks, and its own checkpoint. */
  predicate IsSettleInput(market: Market, pending: seq<PendingMaker>, k: nat, state: MakerState)
    requires k < |pending|
  {
    var maker, read, funding := pending[k], FeeRead(market, pending), market.tickFunding(BandTicks(pending));
    && state.row == maker.row && state.tickLower == maker.tickLower && state.tickUpper == maker.tickUpper
    && BalanceDelta.PackBalanceDelta(state.deltaPerp, state.deltaUsd) == maker.row.delta
    && TickFundingFor(funding, maker.tickLower) == Ok(state.fundingLower)
    && TickFundingFor(funding, maker.tickUpper) == Ok(state.fundingUpper)
    && read.Ok? && read.value.Valid() && read.value.layout.firstInsideWord + k < |read.value.words|
    && state.feeGrowthInside1Last == read.value.InsideLast(k)
    && read.value.Outside(maker.tickLower).Ok? && read.value.Outside(maker.tickUpper).Ok?
    && state.feeGrowthInside1 == FeeGrowthInside(read.value.Global(), read.value.Outside(maker.tickLower).value,
                                                 read.value.Outside(maker.tickUpper).value,
                                                 maker.tickLower, maker.tickUpper, market.currentTick)
  }

  /** Whatever the node answers, a row is a non-maker exactly when it says so, and failed
      exactly when its row, its band, the shared fee-growth read, one of its two ticks or
      its own settle math failed; in particular no tick is ever missing. */
  lemma {:induction false} OutcomesAreExact(market: Market, rows: MakerRows, i: nat)
    requires i < |rows|
    ensures var kind, pending := ChunkKinds(market, rows)[i], Makers(rows, |rows|);
            && (kind.NotAMaker? <==> rows[i].row == Ok(None))
            && (rows[i].row.Err? ==> kind == Failed(rows[i].row.error))
            && (!Awaits(rows, i) ==> (kind.Failed? <==> rows[i].row.Err? || BandIsRejected(rows[i].row)))
            && (BandIsRejected(rows[i].row) ==> kind == Failed(BandError(rows[i].row.value.value)))
            && (Awaits(rows, i) && SharedReadFails(market, rows, i) ==>
                  kind == Failed(SharedError(market, pending, rows[i].row.value.value)))
            && (Awaits(rows, i) && !SharedReadFails(market, rows, i) ==>
                  |Makers(rows, i)| < |pending|
                  && exists state :: IsSettleInput(market, pending, |Makers(rows, i)|, state)
                                     && IsOfRow(state, rows[i].row.value.value)
                                     && kind == KindOf(SettleResult(market, state)))
  {
    if Awaits(rows, i) {
      MakersAreSpread(rows, |rows|, i);
      if !SharedReadFails(market, rows, i) {
        SettleInputExists(market, Makers(rows, |rows|), |Makers(rows, i)|);
        var state :| Settles(market, Makers(rows, |rows|), |Makers(rows, i)|, state);
      }
    }
  }

  function SettleResult(market: Market, state: MakerState): Result<int, ReadError> {
    if state.row.liqMarginRatio <= MAX_E6 then market.settle(state)
    else Err(InvalidMarginRatio(state.row.liqMarginRatio))
  }

  predicate Settles(market: Market, pending: seq<PendingMaker>, k: nat, state: MakerState)
    requires k < |pending|
  {
    IsSettleInput(market, pending, k, state) && EquityAt(market, pending, k) == SettleResult(market, state)
  }

  lemma {:induction false} SettleInputExists(market: Market, pending: seq<PendingMaker>, k: nat)
    requires k < |pending|
    requires FeeRead(market, pending).Ok?
    requires TickFundingFor(market.tickFunding(BandTicks(pending)), pending[k].tickLower).Ok?
    requires TickFundingFor(market.tickFunding(BandTicks(pending)), pending[k].tickUpper).Ok?
    ensures exists state :: Settles(market, pending, k, state)
  {
    NoTickIsMissing(pending, market.extsload(SlotsOf(market.poolId, market.perp, pending)), k);
    var fees, maker := FeeRead(market, pending).value, pending[k];
    var funding := market.tickFunding(BandTicks(pending));
    var (deltaPerp, deltaUsd) := BalanceDelta.UnpackBalanceDelta(maker.row.delta);
    BalanceDelta.PackUndoesUnpack(maker.row.delta);
    var state := MakerState(maker.row, deltaPerp, deltaUsd, maker.tickLower, maker.tickUpper,
                            TickFundingFor(funding, maker.tickLower).value,
                            TickFundingFor(funding, maker.tickUpper).value,
                            FeeGrowthInside(fees.Global(), fees.Outside(maker.tickLower).value,
                                            fees.Outside(maker.tickUpper).value,
                                            maker.tickLower, maker.tickUpper, market.currentTick),
                            fees.InsideLast(k));
    assert Settles(market, pending, k, state);
  }

  /** A failed fee-growth read fails the chunk's open makers with the one shared cause,
      and no other id of the chunk. */
  lemma {:induction false} AFeeGrowthFailureIsShared(market: Market, rows: MakerRows, i: nat)
    requires i < |rows|
    requires FeeRead(market, Makers(rows, |rows|)).Err?
    ensures ChunkKinds(market, rows)[i]
            == if Awaits(rows, i) then Failed(Shared(FeeRead(market, Makers(rows, |rows|)).error))
               else EarlyKind(rows, i)
  {
    if Awaits(rows, i) {
      MakersAreSpread(rows, |rows|, i);
    }
  }

  /** Two markets that differ at most in what the node answers about one tick. */
  ghost predicate DifferOnlyAt(one: Market, other: Market, bad: Tick) {
    && other == one.(tickFunding := other.tickFunding)
    && forall ticks, t :: t != bad ==> SameReadOf(one.tickFunding(ticks), other.tickFunding(ticks), t)
  }

  predicate SameReadOf(one: map<Tick, TickRead>, other: map<Tick, TickRead>, t: Tick) {
    (t in one <==> t in other) && (t in one ==> one[t] == other[t])
  }

  /** A failed tick read fails no maker that does not use the tick: whatever is answered
      about it, their outcomes stay. */
  lemma {:induction false} ABadTickReachesOnlyItsMakers(one: Market, other: Market, bad: Tick, rows: MakerRows, i: nat)
    requires i < |rows|
    requires DifferOnlyAt(one, other, bad)
    requires Awaits(rows, i) ==> MakerAt(rows, i).tickLower != bad && MakerAt(rows, i).tickUpper != bad
    ensures ChunkKinds(one, rows)[i] == ChunkKinds(other, rows)[i]
  {
    if Awaits(rows, i) {
      var pending := Makers(rows, |rows|);
      MakersAreSpread(rows, |rows|, i);
      var maker := pending[|Makers(rows, i)|];
      var ticks := BandTicks(pending);
      assert SameReadOf(one.tickFunding(ticks), other.tickFunding(ticks), maker.tickLower);
      assert SameReadOf(one.tickFunding(ticks), other.tickFunding(ticks), maker.tickUpper);
      assert TickFundingFor(one.tickFunding(BandTicks(pending)), maker.tickLower)
             == TickFundingFor(other.tickFunding(BandTicks(pending)), maker.tickLower);
      assert TickFundingFor(one.tickFunding(BandTicks(pending)), maker.tickUpper)
             == TickFundingFor(other.tickFunding(BandTicks(pending)), maker.tickUpper);
    }
  }

  // ── The whole batch ────────────────────────────────────────────────────

  const CALLS: nat := 2

  /** The two rows of an id decoded; no liquidity means not a maker. */
  function MakerDecode(decodeRows: (PosId, Row, Row) -> Result<MakerRow, ReadError>)
    : (PosId, seq<Row>) -> Result<Option<MakerRow>, ReadError> {
    (posId: PosId, rows: seq<Row>) =>
      if |rows| != CALLS then Err(DecodeFailed)
      else match decodeRows(posId, rows[0], rows[1])
        case Err(e) => Err(e)
        case Ok(row) => Ok(if row.liquidity != 0 then Some(row) else None)
  }

  type MakerDecoder = (PosId, seq<Row>) -> Result<Option<MakerRow>, ReadError>

  function EquityReader(market: Market, node: Node, decode: MakerDecoder): seq<PosId> -> seq<Kind> {
    chunk => ChunkKinds(market, BatchRows(chunk, MAX_ROW_BATCH, CALLS, node, decode))
  }

  function ZipOutcomes(posIds: seq<PosId>, kinds: seq<Kind>): seq<Outcome> {
    if posIds == [] || kinds == [] then []
    else [Outcome(posIds[0], kinds[0])] + ZipOutcomes(posIds[1..], kinds[1..])
  }

  /** Chunks of ids read by themselves, joined in input order and named again; only the
      market-wide read fails the call, and no ids read nothing. */
  function MakerEquities(posIds: seq<PosId>, market: Result<Market, ReadError>, node: Node, decode: MakerDecoder)
    : Result<seq<Outcome>, ReadError> {
    if posIds == [] then Ok([])
    else match market
      case Err(e) => Err(e)
      case Ok(read) => Ok(ZipOutcomes(posIds, FlatMap(Chunks(posIds, MAX_ROW_BATCH), EquityReader(read, node, decode))))
  }

  /** The call fails only with the market-wide read, and no ids ask for nothing. */
  lemma {:induction false} OnlyTheMarketFailsTheCall(posIds: seq<PosId>, market: Result<Market, ReadError>, node: Node,
                                                     decode: MakerDecoder)
    ensures var out := MakerEquities(posIds, market, node, decode);
            && (out.Err? <==> posIds != [] && market.Err?)
            && (out.Err? ==> out.error == market.error)
            && (posIds == [] ==> out == Ok([]))
  {
  }

  lemma {:induction false} ZipKeepsOrder(posIds: seq<PosId>, kinds: seq<Kind>)
    requires |posIds| == |kinds|
    ensures |ZipOutcomes(posIds, kinds)| == |posIds|
    ensures forall i: nat :: i < |posIds| ==> ZipOutcomes(posIds, kinds)[i] == Outcome(posIds[i], kinds[i])
    decreases |posIds|
  {
    if posIds != [] {
      ZipKeepsOrder(posIds[1..], kinds[1..]);
    }
  }

  lemma {:induction false} ReaderHasOneKindPerId(market: Market, node: Node, decode: MakerDecoder)
    ensures forall chunk :: |EquityReader(market, node, decode)(chunk)| == |chunk|
  {
    forall chunk: seq<PosId>
      ensures |EquityReader(market, node, decode)(chunk)| == |chunk|
    {
      OneRowPerId(chunk, MAX_ROW_BATCH, CALLS, node, decode);
    }
  }

  /** Every id asked for comes back as exactly one outcome, in input order, under its own
      name, with the kind its own chunk found for it. */
  lemma {:induction false} OneOutcomePerId(posIds: seq<PosId>, market: Market, node: Node, decode: MakerDecoder, i: nat)
    requires i < |posIds|
    ensures var out := MakerEquities(posIds, Ok(market), node, decode);
            var read := EquityReader(market, node, decode);
            && out.Ok?
            && |out.value| == |posIds|
            && (forall chunk :: |read(chunk)| == |chunk|)
            && out.value[i] == Outcome(posIds[i], ReadAt(posIds, MAX_ROW_BATCH, read, i))
  {
    var read := EquityReader(market, node, decode);
    ReaderHasOneKindPerId(market, node, decode);
    JoinIsPointwise(posIds, MAX_ROW_BATCH, read, i);
    ZipKeepsOrder(posIds, FlatMap(Chunks(posIds, MAX_ROW_BATCH), read));
  }

  lemma {:induction false} ReadAtEqualsAlone(posIds: seq<PosId>, market: Market, node: Node, decode: MakerDecoder,
                                             encode: PosId -> seq<Call>, reply: Call -> Row, storage: Slot -> Word,
                                             tickRead: Tick -> TickRead, chunk: seq<PosId>, j: nat)
    requires j < |chunk|
    requires forall id :: |encode(id)| == CALLS
    requires forall asked :: node(asked) == Ok(Replies(FlatMap(asked, encode), reply))
    requires forall pending :: AnswersTruly(market, pending, storage, tickRead)
    ensures var kinds := EquityReader(market, node, decode)(chunk);
            |kinds| > j
            && kinds[j] == KindAlone(market, storage, tickRead, chunk[j],
                                     decode(chunk[j], Replies(encode(chunk[j]), reply)))
  {
    var rows := BatchRows(chunk, MAX_ROW_BATCH, CALLS, node, decode);
    TruthfulBatchIsUnchunked(chunk, MAX_ROW_BATCH, CALLS, encode, reply, node, decode, j);
    ChunkEqualsAlone(market, rows, storage, tickRead, j);
  }

  /** Against a truthful node the whole batch, for any number of ids, is one read per
      id: multicall chunks, deduplicated words, shared ticks and the merge do not show. */
  lemma {:induction false} BatchEqualsAlone(posIds: seq<PosId>, market: Market, node: Node, decode: MakerDecoder,
                                            encode: PosId -> seq<Call>, reply: Call -> Row,
                                            storage: Slot -> Word, tickRead: Tick -> TickRead, i: nat)
    requires i < |posIds|
    requires forall id :: |encode(id)| == CALLS
    requires forall asked :: node(asked) == Ok(Replies(FlatMap(asked, encode), reply))
    requires forall pending :: AnswersTruly(market, pending, storage, tickRead)
    ensures var out := MakerEquities(posIds, Ok(market), node, decode);
            var posId := posIds[i];
            && out.Ok?
            && |out.value| == |posIds|
            && out.value[i] == Outcome(posId, KindAlone(market, storage, tickRead, posId,
                                                        decode(posId, Replies(encode(posId), reply))))
  {
    var read, posId := EquityReader(market, node, decode), posIds[i];
    OneOutcomePerId(posIds, market, node, decode, i);
    assert ReadAt(posIds, MAX_ROW_BATCH, read, i)
           == KindAlone(market, storage, tickRead, posId, decode(posId, Replies(encode(posId), reply))) by {
      ReadAtEqualsAlone(posIds, market, node, decode, encode, reply, storage, tickRead,
                        ChunkAt(posIds, MAX_ROW_BATCH, i), i - ChunkStart(i, MAX_ROW_BATCH));
    }
  }

  // ── The whole batch against a chain ────────────────────────────────────

  /** The chain, by what is stored where and what each call replies. */
  datatype Chain = Chain(fees: Slot -> Word, funding: FundingSlot -> Word, reply: Call -> Row)

  /** The market's two slot reads go to this chain: the `extsload` answers what is stored,
      and the tick reads are those of a truthful endpoint, by `ReadTickFunding`. */
  ghost predicate ReadsThrough(market: Market, endpoint: Endpoint, chain: Chain) {
    && Truthful(endpoint, chain.funding)
    && (forall slots :: market.extsload(slots) == Ok(Stored(slots, chain.fees)))
    && forall ticks :: IsTickRead(market.tickFunding(ticks), endpoint, ticks)
  }

  /** What `ReadTickFunding` ensures of its map. */
  ghost predicate IsTickRead(funding: map<Tick, TickRead>, endpoint: Endpoint, ticks: seq<Tick>) {
    && (forall t :: t in funding <==> t in ticks)
    && forall t :: t in ticks ==> funding[t] == ReadOf(endpoint, endpoint.proof(Keys(ticks)), t)
  }

  lemma {:induction false} ReadingThroughIsTrue(market: Market, endpoint: Endpoint, chain: Chain,
                                                pending: seq<PendingMaker>)
    requires ReadsThrough(market, endpoint, chain)
    ensures AnswersTruly(market, pending, chain.fees, StoredFunding(chain.funding))
  {
    var ticks := BandTicks(pending);
    assert IsTickRead(market.tickFunding(ticks), endpoint, ticks);
    forall t | t in ticks
      ensures market.tickFunding(ticks)[t] == StoredFunding(chain.funding)(t)
    {
      ATruthfulEndpointReadsTheStorage(endpoint, chain.funding, ticks, t);
    }
  }

  /** An id's own two rows, decoded. */
  function RowOnChain(chain: Chain, encode: PosId -> seq<Call>,
                      decodeRows: (PosId, Row, Row) -> Result<MakerRow, ReadError>, posId: PosId)
    : Result<Option<MakerRow>, ReadError>
    requires |encode(posId)| == CALLS
  {
    var calls := encode(posId);
    match decodeRows(posId, chain.reply(calls[0]), chain.reply(calls[1]))
    case Err(e) => Err(e)
    case Ok(row) => if row.liquidity == 0 then Ok(None) else Ok(Some(row))
  }

  /** The outcome an id has on the chain: failed rows are its failure, no liquidity means
      not a maker, and a maker is settled from its own stored words. */
  function KindOnChain(market: Market, chain: Chain, encode: PosId -> seq<Call>,
                       decodeRows: (PosId, Row, Row) -> Result<MakerRow, ReadError>, posId: PosId): Kind
    requires |encode(posId)| == CALLS
  {
    KindAlone(market, chain.fees, StoredFunding(chain.funding), posId, RowOnChain(chain, encode, decodeRows, posId))
  }

  /** From the multicalls to the outcomes: whichever way the endpoint reads the ticks, and
      for any number of ids, the batch returns each id under its own name with the
      outcome it has on the chain. */
  lemma {:induction false} TheBatchReadsTheChain(posIds: seq<PosId>, market: Market, endpoint: Endpoint, chain: Chain,
                                                 node: Node, encode: PosId -> seq<Call>,
                                                 decodeRows: (PosId, Row, Row) -> Result<MakerRow, ReadError>, i: nat)
    requires i < |posIds|
    requires forall id :: |encode(id)| == CALLS
    requires forall asked :: node(asked) == Ok(Replies(FlatMap(asked, encode), chain.reply))
    requires ReadsThrough(market, endpoint, chain)
    ensures var out := MakerEquities(posIds, Ok(market), node, MakerDecode(decodeRows));
            var posId := posIds[i];
            && out.Ok?
            && |out.value| == |posIds|
            && |encode(posId)| == CALLS
            && out.value[i] == Outcome(posId, KindOnChain(market, chain, encode, decodeRows, posId))
  {
    var decode, posId := MakerDecode(decodeRows), posIds[i];
    forall pending
      ensures AnswersTruly(market, pending, chain.fees, StoredFunding(chain.funding))
    {
      ReadingThroughIsTrue(market, endpoint, chain, pending);
    }
    BatchEqualsAlone(posIds, market, node, decode, encode, chain.reply, chain.fees, StoredFunding(chain.funding), i);
    assert decode(posId, Replies(encode(posId), chain.reply)) == RowOnChain(chain, encode, decodeRows, posId);
  }

  /** On the chain, an id is not a maker exactly when its row decodes without liquidity. */
  lemma {:induction false} NotAMakerIsNoLiquidity(market: Market, chain: Chain, encode: PosId -> seq<Call>,
                                                  decodeRows: (PosId, Row, Row) -> Result<MakerRow, ReadError>,
                                                  posId: PosId)
    requires |encode(posId)| == CALLS
    ensures var row := decodeRows(posId, chain.reply(encode(posId)[0]), chain.reply(encode(posId)[1]));
            KindOnChain(market, chain, encode, decodeRows, posId).NotAMaker? <==> row.Ok? && row.value.liquidity == 0
  {
  }
}
