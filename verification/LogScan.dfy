/** Reading a block range's logs in pieces: oldest first in windows, or newest first
    until enough logs are held. */
module LogScan {
  import opened Wrappers

  const U64_MAX: int := 0xffff_ffff_ffff_ffff

  /** A log by its block and its position there. */
  datatype Log = Log(block: int, index: int)

  /** The matching logs of each block, in chain order. */
  type Chain = int -> seq<Log>

  datatype ScanError =
    | InvalidConfig
    | InvalidBlockRange(fromBlock: int, toBlock: int)
    | ReadFailed(cause: int)
    | PrintFailed(cause: int)

  /** What the width search and the server make of one request: the number of blocks
      accepted in the end, or a failure no narrower request fixes. */
  datatype Request = Accepted(width: int) | Refused(cause: int)

  /** The widths come from the search, which never returns less than one block. */
  type Requests = r: int -> Request | forall i :: r(i).Accepted? ==> r(i).width >= 1
    witness (_: int) => Accepted(1)

  /** The logs of blocks `low..=high`, in chain order. */
  function LogsIn(chain: Chain, low: int, high: int): seq<Log>
    decreases high - low + 1
  {
    if low > high then [] else LogsIn(chain, low, high - 1) + chain(high)
  }

  lemma {:induction false} RangesJoin(chain: Chain, low: int, middle: int, high: int)
    requires low <= middle + 1 && middle <= high
    ensures LogsIn(chain, low, high) == LogsIn(chain, low, middle) + LogsIn(chain, middle + 1, high)
    decreases high - middle
  {
    if middle < high {
      RangesJoin(chain, low, middle, high - 1);
    } else {
      assert LogsIn(chain, middle + 1, high) == [];
    }
  }

  function Min(a: int, b: int): int {
    if a <= b then a else b
  }

  function Max(a: int, b: int): int {
    if a >= b then a else b
  }

  function SaturatingSub(a: int, b: int): int {
    Max(a - b, 0)
  }

  // ── Oldest first ───────────────────────────────────────────────────────

  /** What is read so far, and the next blocks after it. */
  function Extended(chain: Chain, low: int, middle: int, high: int, read: seq<Log>, chunk: seq<Log>): (logs: seq<Log>)
    requires low <= middle <= high + 1
    requires read == LogsIn(chain, low, middle - 1) && chunk == LogsIn(chain, middle, high)
    ensures logs == LogsIn(chain, low, high)
  {
    RangesJoin(chain, low, middle - 1, high);
    read + chunk
  }

  /** The lowest block still unread before request `i` of a window. */
  function Low(requests: Requests, fromBlock: int, toBlock: int, i: nat): int {
    if i == 0 then fromBlock
    else
      var low := Low(requests, fromBlock, toBlock, i - 1);
      match requests(i - 1)
      case Refused(_) => low
      case Accepted(width) => low + Min(width - 1, toBlock - low) + 1
  }

  /** Request `i` of the window is sent, as blocks are unread, and it is the one that fails. */
  ghost predicate ReadFailsAt(requests: Requests, fromBlock: int, toBlock: int, i: nat) {
    && requests(i).Refused?
    && (forall j: nat :: j < i ==> requests(j).Accepted?)
    && Low(requests, fromBlock, toBlock, i) <= toBlock
  }

  ghost predicate ReadFails(requests: Requests, fromBlock: int, toBlock: int) {
    exists i: nat :: ReadFailsAt(requests, fromBlock, toBlock, i)
  }

  lemma {:induction false} PastTheWindow(requests: Requests, fromBlock: int, toBlock: int, i: nat, j: nat)
    requires i <= j && Low(requests, fromBlock, toBlock, i) == toBlock + 1
    ensures Low(requests, fromBlock, toBlock, j) == toBlock + 1
    decreases j
  {
    if i < j {
      PastTheWindow(requests, fromBlock, toBlock, i, j - 1);
    }
  }

  lemma {:induction false} AWindowReadInFull(requests: Requests, fromBlock: int, toBlock: int, i: nat)
    requires forall j: nat :: j < i ==> requests(j).Accepted?
    requires Low(requests, fromBlock, toBlock, i) == toBlock + 1
    ensures !ReadFails(requests, fromBlock, toBlock)
  {
    forall j: nat
      ensures !ReadFailsAt(requests, fromBlock, toBlock, j)
    {
      if j >= i {
        PastTheWindow(requests, fromBlock, toBlock, i, j);
      }
    }
  }

  /** One window, read completely whatever widths its requests have; it fails exactly when
      a request that was needed does. */
  method ReadWindow(chain: Chain, fromBlock: int, toBlock: int, requests: Requests)
    returns (out: Result<seq<Log>, ScanError>)
    requires 0 <= fromBlock <= toBlock <= U64_MAX
    ensures out.Ok? ==> out.value == LogsIn(chain, fromBlock, toBlock)
    ensures out.Err? <==> ReadFails(requests, fromBlock, toBlock)
    ensures out.Err? ==> exists i: nat :: ReadFailsAt(requests, fromBlock, toBlock, i)
                                          && out == Err(ReadFailed(requests(i).cause))
  {
    var logs: seq<Log> := [];
    var low, i := fromBlock, 0;
    while true
      invariant fromBlock <= low <= toBlock
      invariant i >= 0 && low == Low(requests, fromBlock, toBlock, i)
      invariant forall j: nat :: j < i ==> requests(j).Accepted?
      invariant logs == LogsIn(chain, fromBlock, low - 1)
      decreases toBlock - low
    {
      match requests(i)
      case Refused(cause) =>
        assert ReadFailsAt(requests, fromBlock, toBlock, i);
        return Err(ReadFailed(cause));
      case Accepted(width) =>
        var high := low + Min(width - 1, toBlock - low);
        logs := Extended(chain, fromBlock, low, high, logs, LogsIn(chain, low, high));
        if high == toBlock {
          AWindowReadInFull(requests, fromBlock, toBlock, i + 1);
          return Ok(logs);
        }
        low := high + 1;
        i := i + 1;
    }
  }

  /** Where window `k` ends when it begins at `low`. */
  function WindowEnd(carve: Requests, toBlock: int, low: int, k: nat): int {
    match carve(k)
    case Refused(_) => low
    case Accepted(width) => Min(Min(low + (width - 1), U64_MAX), toBlock)
  }

  /** Where window `k` begins; past the range when there is no such window. */
  function WindowStart(carve: Requests, fromBlock: int, toBlock: int, k: nat): int {
    if k == 0 then fromBlock
    else
      var low := WindowStart(carve, fromBlock, toBlock, k - 1);
      if low > toBlock then low else WindowEnd(carve, toBlock, low, k - 1) + 1
  }

  /** Window `k` is one of the range's, and its read fails. */
  ghost predicate WindowFails(carve: Requests, windows: int -> Requests, fromBlock: int, toBlock: int, k: nat) {
    var low := WindowStart(carve, fromBlock, toBlock, k);
    low <= toBlock && ReadFails(windows(k), low, WindowEnd(carve, toBlock, low, k))
  }

  lemma {:induction false} PastTheRange(carve: Requests, fromBlock: int, toBlock: int, i: nat, j: nat)
    requires i <= j && WindowStart(carve, fromBlock, toBlock, i) > toBlock
    ensures WindowStart(carve, fromBlock, toBlock, j) > toBlock
    decreases j
  {
    if i < j {
      PastTheRange(carve, fromBlock, toBlock, i, j - 1);
    }
  }

  lemma {:induction false} NoWindowFails(carve: Requests, windows: int -> Requests, fromBlock: int, toBlock: int,
                                         k: nat)
    requires forall j: nat :: j < k ==> !WindowFails(carve, windows, fromBlock, toBlock, j)
    requires WindowStart(carve, fromBlock, toBlock, k) > toBlock
    ensures forall j: nat :: !WindowFails(carve, windows, fromBlock, toBlock, j)
  {
    forall j: nat | j >= k
      ensures !WindowFails(carve, windows, fromBlock, toBlock, j)
    {
      PastTheRange(carve, fromBlock, toBlock, k, j);
    }
  }

  /** Windows before `k` are read, none failed, and `low` is where window `k` begins. */
  ghost predicate ReadUpTo(chain: Chain, carve: Requests, windows: int -> Requests, fromBlock: int, toBlock: int,
                           k: nat, low: Option<int>, logs: seq<Log>)
  {
    var start := WindowStart(carve, fromBlock, toBlock, k);
    && fromBlock <= start <= toBlock + 1
    && low == (if start > U64_MAX then None else Some(start))
    && logs == LogsIn(chain, fromBlock, start - 1)
    && forall j: nat :: j < k ==> !WindowFails(carve, windows, fromBlock, toBlock, j)
  }

  lemma {:induction false} OneMoreWindow(chain: Chain, carve: Requests, windows: int -> Requests,
                                         fromBlock: int, toBlock: int,
                                         k: nat, first: int, logs: seq<Log>, chunk: seq<Log>, high: int)
    requires ReadUpTo(chain, carve, windows, fromBlock, toBlock, k, Some(first), logs)
    requires 0 <= fromBlock && toBlock <= U64_MAX && first <= toBlock && carve(k).Accepted?
    requires high == WindowEnd(carve, toBlock, first, k) && !ReadFails(windows(k), first, high)
    requires chunk == LogsIn(chain, first, high)
    ensures ReadUpTo(chain, carve, windows, fromBlock, toBlock, k + 1,
                     if high == U64_MAX then None else Some(high + 1), logs + chunk)
  {
    assert first <= high <= toBlock;
    var joined := Extended(chain, fromBlock, first, high, logs, chunk);
    assert logs + chunk == joined;
    assert WindowStart(carve, fromBlock, toBlock, k + 1) == high + 1;
    assert !WindowFails(carve, windows, fromBlock, toBlock, k);
  }

  lemma {:induction false} AllWindowsRead(chain: Chain, carve: Requests, windows: int -> Requests,
                                          fromBlock: int, toBlock: int,
                                          k: nat, low: Option<int>, logs: seq<Log>)
    requires ReadUpTo(chain, carve, windows, fromBlock, toBlock, k, low, logs)
    requires toBlock <= U64_MAX && (low.None? || low.value > toBlock)
    ensures logs == LogsIn(chain, fromBlock, toBlock)
    ensures forall j: nat :: !WindowFails(carve, windows, fromBlock, toBlock, j)
  {
    NoWindowFails(carve, windows, fromBlock, toBlock, k);
  }

  /** The whole range in windows carved at any widths, delivered in range order; it fails
      exactly when the read of one of its windows does. */
  method ScanAll(chain: Chain, fromBlock: int, toBlock: int, carve: Requests, windows: int -> Requests)
    returns (out: Result<seq<Log>, ScanError>)
    requires 0 <= fromBlock <= U64_MAX && 0 <= toBlock <= U64_MAX
    requires forall i :: carve(i).Accepted?
    ensures fromBlock > toBlock ==> out == Err(InvalidBlockRange(fromBlock, toBlock))
    ensures fromBlock <= toBlock && out.Ok? ==> out.value == LogsIn(chain, fromBlock, toBlock)
    ensures fromBlock <= toBlock ==>
              (out.Err? <==> exists k: nat :: WindowFails(carve, windows, fromBlock, toBlock, k))
  {
    if fromBlock > toBlock {
      return Err(InvalidBlockRange(fromBlock, toBlock));
    }
    var logs: seq<Log> := [];
    var low: Option<int> := Some(fromBlock);
    var k := 0;
    while low.Some? && low.value <= toBlock
      invariant k >= 0 && ReadUpTo(chain, carve, windows, fromBlock, toBlock, k, low, logs)
      decreases if low.Some? then toBlock + 1 - low.value else -1
    {
      var first := low.value;
      var high := Min(Min(first + (carve(k).width - 1), U64_MAX), toBlock);
      var chunk := ReadWindow(chain, first, high, windows(k));
      if chunk.Err? {
        assert WindowFails(carve, windows, fromBlock, toBlock, k);
        return chunk;
      }
      low := if high == U64_MAX then None else Some(high + 1);
      assert ReadUpTo(chain, carve, windows, fromBlock, toBlock, k + 1, low, logs + chunk.value) by {
        OneMoreWindow(chain, carve, windows, fromBlock, toBlock, k, first, logs, chunk.value, high);
      }
      logs := logs + chunk.value;
      k := k + 1;
    }
    AllWindowsRead(chain, carve, windows, fromBlock, toBlock, k, low, logs);
    return Ok(logs);
  }

  // ── Newest first ───────────────────────────────────────────────────────

  /** The highest block still unread before request `i`. */
  function Top(requests: Requests, fromBlock: int, toBlock: int, i: nat): int {
    if i == 0 then toBlock
    else
      var top := Top(requests, fromBlock, toBlock, i - 1);
      match requests(i - 1)
      case Refused(_) => top
      case Accepted(width) => Max(SaturatingSub(top, width - 1), fromBlock) - 1
  }

  /** Request `i` is sent, as blocks are unread and fewer than `limit` logs are held, and
      it is the one that fails. */
  ghost predicate FailsAt(chain: Chain, requests: Requests, fromBlock: int, toBlock: int, limit: int, i: nat) {
    && requests(i).Refused?
    && (forall j: nat :: j < i ==> requests(j).Accepted?)
    && Top(requests, fromBlock, toBlock, i) >= fromBlock
    && |LogsIn(chain, Top(requests, fromBlock, toBlock, i) + 1, toBlock)| < limit
  }

  lemma {:induction false} TopDescends(requests: Requests, fromBlock: int, toBlock: int, i: nat, j: nat)
    requires 0 <= fromBlock
    requires i <= j && Top(requests, fromBlock, toBlock, j) >= fromBlock
    requires forall k: nat :: k < j ==> requests(k).Accepted?
    ensures Top(requests, fromBlock, toBlock, i) >= Top(requests, fromBlock, toBlock, j)
    decreases j
  {
    if i < j {
      assert Top(requests, fromBlock, toBlock, j - 1) >= Top(requests, fromBlock, toBlock, j);
      TopDescends(requests, fromBlock, toBlock, i, j - 1);
    }
  }

  lemma {:induction false} MoreBlocksMoreLogs(chain: Chain, low: int, lower: int, high: int)
    requires lower <= low <= high + 1
    ensures |LogsIn(chain, lower, high)| >= |LogsIn(chain, low, high)|
  {
    RangesJoin(chain, lower, low - 1, high);
  }

  /** Once `limit` logs are held or the floor is passed, no later request is sent. */
  lemma {:induction false} NothingFailsLater(chain: Chain, requests: Requests, fromBlock: int, toBlock: int,
                                             limit: int, i: nat)
    requires 0 <= fromBlock <= toBlock
    requires forall j: nat :: j < i ==> requests(j).Accepted?
    requires fromBlock - 1 <= Top(requests, fromBlock, toBlock, i) <= toBlock
    requires Top(requests, fromBlock, toBlock, i) < fromBlock
             || |LogsIn(chain, Top(requests, fromBlock, toBlock, i) + 1, toBlock)| >= limit
    ensures forall j: nat :: !FailsAt(chain, requests, fromBlock, toBlock, limit, j)
  {
    forall j: nat | FailsAt(chain, requests, fromBlock, toBlock, limit, j)
      ensures false
    {
      if j >= i {
        TopDescends(requests, fromBlock, toBlock, i, j);
        MoreBlocksMoreLogs(chain, Top(requests, fromBlock, toBlock, i) + 1,
                           Top(requests, fromBlock, toBlock, j) + 1, toBlock);
      }
    }
  }

  /** What a range is: nothing when it is empty, a block's own logs when it is one block, and
      otherwise its parts in order (`RangesJoin`). */
  lemma {:induction false} RangesByBlock(chain: Chain, block: int, low: int)
    requires low > block
    ensures LogsIn(chain, block, block) == chain(block) && LogsIn(chain, low, block) == []
  {
    assert LogsIn(chain, block, block - 1) == [];
  }

  /** What the newest logs are: the end of the logs, as many as asked for or all. */
  lemma {:induction false} NewestIsTheEnd(logs: seq<Log>, limit: nat)
    ensures |Newest(logs, limit)| == Min(limit, |logs|)
    ensures logs == logs[..|logs| - |Newest(logs, limit)|] + Newest(logs, limit)
  {
  }

  /** The newest `limit` logs, oldest first. */
  function Newest(logs: seq<Log>, limit: nat): seq<Log> {
    if |logs| <= limit then logs else logs[|logs| - limit..]
  }

  function FlattenReversed(newestFirst: seq<seq<Log>>): seq<Log> {
    if newestFirst == [] then []
    else newestFirst[|newestFirst| - 1] + FlattenReversed(newestFirst[..|newestFirst| - 1])
  }

  lemma {:induction false} SuffixOfASuffix(older: seq<Log>, logs: seq<Log>, limit: nat)
    requires older == [] || |logs| >= limit
    ensures Newest(older + logs, limit) == logs[SaturatingSub(|logs|, limit)..]
  {
  }

  /** `i` requests have been accepted; what they answered is held, newest chunk first, and
      `high` is the highest block unread. */
  ghost predicate HeldSoFar(chain: Chain, requests: Requests, fromBlock: int, toBlock: int, i: nat,
                            high: Option<int>, newestFirst: seq<seq<Log>>)
  {
    var top := Top(requests, fromBlock, toBlock, i);
    && fromBlock - 1 <= top <= toBlock
    && high == (if top < 0 then None else Some(top))
    && FlattenReversed(newestFirst) == LogsIn(chain, top + 1, toBlock)
    && forall j: nat :: j < i ==> requests(j).Accepted?
  }

  lemma {:induction false} OneMoreChunk(chain: Chain, requests: Requests, fromBlock: int, toBlock: int, i: nat,
                                        high: int, newestFirst: seq<seq<Log>>, low: int)
    requires HeldSoFar(chain, requests, fromBlock, toBlock, i, Some(high), newestFirst)
    requires 0 <= fromBlock <= high && requests(i).Accepted?
    requires low == Max(SaturatingSub(high, requests(i).width - 1), fromBlock)
    ensures HeldSoFar(chain, requests, fromBlock, toBlock, i + 1, if low == 0 then None else Some(low - 1),
                      newestFirst + [LogsIn(chain, low, high)])
    ensures |FlattenReversed(newestFirst + [LogsIn(chain, low, high)])|
            == |FlattenReversed(newestFirst)| + |LogsIn(chain, low, high)|
  {
    var longer := newestFirst + [LogsIn(chain, low, high)];
    assert longer[..|longer| - 1] == newestFirst;
    RangesJoin(chain, low, high, toBlock);
    assert Top(requests, fromBlock, toBlock, i + 1) == low - 1;
  }

  lemma {:induction false} TheNewestAreHeld(chain: Chain, requests: Requests, fromBlock: int, toBlock: int, limit: nat,
                                            i: nat, high: Option<int>, newestFirst: seq<seq<Log>>)
    requires HeldSoFar(chain, requests, fromBlock, toBlock, i, high, newestFirst)
    requires 0 <= fromBlock <= toBlock
    requires |FlattenReversed(newestFirst)| >= limit || high.None? || high.value < fromBlock
    ensures var logs := FlattenReversed(newestFirst);
            logs[SaturatingSub(|logs|, limit)..] == Newest(LogsIn(chain, fromBlock, toBlock), limit)
    ensures forall j: nat :: !FailsAt(chain, requests, fromBlock, toBlock, limit, j)
  {
    var top := Top(requests, fromBlock, toBlock, i);
    NothingFailsLater(chain, requests, fromBlock, toBlock, limit, i);
    RangesJoin(chain, fromBlock, top, toBlock);
    SuffixOfASuffix(LogsIn(chain, fromBlock, top), FlattenReversed(newestFirst), limit);
  }

  /** Backward from the top until `limit` logs are held. The logs kept are the last
      `limit` of the whole forward scan, in order, for every way the range falls into
      chunks, empty ones included; and a failure below the point of stopping is never
      met. */
  method LatestLogs(chain: Chain, fromBlock: int, toBlock: int, limit: nat, requests: Requests)
    returns (out: Result<seq<Log>, ScanError>)
    requires 0 <= fromBlock <= toBlock <= U64_MAX
    requires limit > 0
    ensures out.Ok? ==> out.value == Newest(LogsIn(chain, fromBlock, toBlock), limit)
    ensures out.Err? <==> exists i: nat :: FailsAt(chain, requests, fromBlock, toBlock, limit, i)
    ensures out.Err? ==> exists i: nat :: FailsAt(chain, requests, fromBlock, toBlock, limit, i)
                                          && out == Err(ReadFailed(requests(i).cause))
  {
    var high: Option<int> := Some(toBlock);
    var newestFirst: seq<seq<Log>> := [];
    var held := 0;
    var i := 0;
    while held < limit && high.Some? && high.value >= fromBlock
      invariant i >= 0 && HeldSoFar(chain, requests, fromBlock, toBlock, i, high, newestFirst)
      invariant held == |FlattenReversed(newestFirst)|
      decreases if high.Some? then high.value else -1
    {
      match requests(i)
      case Refused(cause) =>
        assert FailsAt(chain, requests, fromBlock, toBlock, limit, i);
        return Err(ReadFailed(cause));
      case Accepted(width) =>
        var low := Max(SaturatingSub(high.value, width - 1), fromBlock);
        var chunk := LogsIn(chain, low, high.value);
        OneMoreChunk(chain, requests, fromBlock, toBlock, i, high.value, newestFirst, low);
        held := held + |chunk|;
        newestFirst := newestFirst + [chunk];
        high := if low == 0 then None else Some(low - 1);
        i := i + 1;
    }
    TheNewestAreHeld(chain, requests, fromBlock, toBlock, limit, i, high, newestFirst);
    var logs := FlattenReversed(newestFirst);
    var skip := SaturatingSub(|logs|, limit);
    out := Ok(logs[skip..]);
  }

  /** The decoded prints of the newest logs; decoding and header reads are `prints`. */
  method LatestBeaconPrints<Print>(chain: Chain, beaconIsZero: bool, fromBlock: int, toBlock: int, limit: nat,
                                   requests: Requests, prints: seq<Log> -> Result<seq<Print>, ScanError>)
    returns (out: Result<seq<Print>, ScanError>)
    requires 0 <= fromBlock <= U64_MAX && 0 <= toBlock <= U64_MAX
    ensures beaconIsZero ==> out == Err(InvalidConfig)
    ensures !beaconIsZero && fromBlock > toBlock ==> out == Err(InvalidBlockRange(fromBlock, toBlock))
    ensures !beaconIsZero && fromBlock <= toBlock && limit == 0 ==> out == Ok([])
    ensures !beaconIsZero && fromBlock <= toBlock && limit > 0 ==>
              if exists i: nat :: FailsAt(chain, requests, fromBlock, toBlock, limit, i)
              then exists i: nat :: FailsAt(chain, requests, fromBlock, toBlock, limit, i)
                                    && out == Err(ReadFailed(requests(i).cause))
              else out == prints(Newest(LogsIn(chain, fromBlock, toBlock), limit))
  {
    if beaconIsZero {
      return Err(InvalidConfig);
    }
    if fromBlock > toBlock {
      return Err(InvalidBlockRange(fromBlock, toBlock));
    }
    if limit == 0 {
      return Ok([]);
    }
    var logs := LatestLogs(chain, fromBlock, toBlock, limit, requests);
    match logs
    case Err(e) => out := Err(e);
    case Ok(newest) => out := prints(newest);
  }
}
