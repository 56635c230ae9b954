/** Batched row reads: the ids in chunks, one multicall per chunk with a fixed number
    of calls per id, and each id's rows decoded on their own. */
module Rows {
  import opened Wrappers

  // ── What a read can fail with ──────────────────────────────────────────

  /** The client's errors, as far as a batch tells them apart. `cause` stands for a
      transport failure that several ids share. */
  datatype ReadError =
    | RpcError(cause: nat)
    | AbiTransport(cause: nat)
    | StorageReadFailed(source: Option<nat>)
    | BlockUnavailable(number: nat)
    | StateUnavailable(number: nat)
    | MulticallFailed
    | DecodeFailed
    | InvalidTickRange(lower: int, upper: int)
    | InvalidMarginRatio(value: nat)
    | SettleFailed(code: nat)
  {
    predicate IsTransient() {
      RpcError? || BlockUnavailable? || (StorageReadFailed? && source.Some?)
    }
  }

  /** A chunk's failure, reshaped so that every id of the chunk can carry it. */
  datatype ChunkReadFailure =
    | Storage(source: Option<nat>)
    | NoBlock(number: nat)
    | NoState(number: nat)
  {
    static function New(error: ReadError): ChunkReadFailure {
      match error
      case RpcError(cause) => Storage(Some(cause))
      case AbiTransport(cause) => Storage(Some(cause))
      case StorageReadFailed(source) => Storage(source)
      case BlockUnavailable(number) => NoBlock(number)
      case StateUnavailable(number) => NoState(number)
      case _ => Storage(None)
    }

    function Error(): ReadError {
      match this
      case Storage(source) => StorageReadFailed(source)
      case NoBlock(number) => BlockUnavailable(number)
      case NoState(number) => StateUnavailable(number)
    }
  }

  /** What an id carries for its chunk's failure. */
  function Shared(error: ReadError): ReadError {
    ChunkReadFailure.New(error).Error()
  }

  /** Fanning a failure out keeps whether a retry can help, except that a transport
      failure met while decoding becomes retryable; and doing it twice changes nothing. */
  lemma {:induction false} FanningOutKeepsRetryability(error: ReadError)
    ensures Shared(error).IsTransient() <==> error.IsTransient() || error.AbiTransport?
    ensures Shared(Shared(error)) == Shared(error)
  {
  }

  /** What an id carries, by what failed: a transport cause and the block named are kept,
      and anything else is a storage failure without a cause. */
  lemma {:induction false} FanningOutKeepsTheCause(error: ReadError)
    ensures Shared(error) == match error
                             case RpcError(cause) => StorageReadFailed(Some(cause))
                             case AbiTransport(cause) => StorageReadFailed(Some(cause))
                             case StorageReadFailed(source) => StorageReadFailed(source)
                             case BlockUnavailable(number) => BlockUnavailable(number)
                             case StateUnavailable(number) => StateUnavailable(number)
                             case _ => StorageReadFailed(None)
    ensures error.IsTransient()
            <==> error.RpcError? || error.BlockUnavailable? || exists cause :: error == StorageReadFailed(Some(cause))
  {
    if error.StorageReadFailed? && error.source.Some? {
      assert error == StorageReadFailed(Some(error.source.value));
    }
  }

  /** The input: a transport failure met while decoding. */
  lemma {:induction false} ADecodingFailureBecomesRetryable(cause: nat)
    ensures !AbiTransport(cause).IsTransient() && Shared(AbiTransport(cause)).IsTransient()
  {
  }

  // ── The batched read ───────────────────────────────────────────────────

  /** A position id: a 256-bit word. */
  type PosId = int

  /** One result of a multicall, and one call's bytes. */
  datatype Row = Row(bytes: seq<bv8>)
  datatype Call = Call(bytes: seq<bv8>)

  datatype RowOutcome<+T> = RowOutcome(posId: PosId, row: Result<Option<T>, ReadError>)

  /** `slice::chunks`. */
  function Chunks<T>(s: seq<T>, size: nat): (chunks: seq<seq<T>>)
    requires size > 0
    decreases |s|
  {
    if s == [] then []
    else if |s| <= size then [s]
    else [s[..size]] + Chunks(s[size..], size)
  }

  /** `slice::as_chunks`: the whole groups, leaving a remainder out. */
  function Groups<T>(s: seq<T>, size: nat): (groups: seq<seq<T>>)
    requires size > 0
    decreases |s|
  {
    if |s| < size then [] else [s[..size]] + Groups(s[size..], size)
  }

  function FlatMap<S, T>(s: seq<S>, f: S -> seq<T>): seq<T> {
    if s == [] then [] else f(s[0]) + FlatMap(s[1..], f)
  }

  /** One chunk's rows: a wrong number of results is the whole chunk's failure. */
  function ChunkRows(chunk: seq<PosId>, calls: nat, answer: Result<seq<Row>, ReadError>): Result<seq<Row>, ReadError> {
    match answer
    case Err(e) => Err(e)
    case Ok(rows) => if |rows| != calls * |chunk| then Err(MulticallFailed) else Ok(rows)
  }

  function Zip<T>(chunk: seq<PosId>, groups: seq<seq<Row>>,
                  decode: (PosId, seq<Row>) -> Result<Option<T>, ReadError>): seq<RowOutcome<T>>
  {
    if chunk == [] || groups == [] then []
    else [RowOutcome(chunk[0], decode(chunk[0], groups[0]))] + Zip(chunk[1..], groups[1..], decode)
  }

  function FailAll<T>(chunk: seq<PosId>, error: ReadError): (out: seq<RowOutcome<T>>)
    ensures |out| == |chunk|
    ensures forall i :: 0 <= i < |out| ==> out[i] == RowOutcome(chunk[i], Err(Shared(error)))
  {
    seq(|chunk|, i requires 0 <= i < |chunk| => RowOutcome(chunk[i], Err(Shared(error))))
  }

  function ChunkOutcomes<T>(chunk: seq<PosId>, calls: nat, answer: Result<seq<Row>, ReadError>,
                            decode: (PosId, seq<Row>) -> Result<Option<T>, ReadError>): seq<RowOutcome<T>>
    requires calls > 0
  {
    match ChunkRows(chunk, calls, answer)
    case Ok(rows) => Zip(chunk, Groups(rows, calls), decode)
    case Err(e) => FailAll(chunk, e)
  }

  /** The node's answer to the multicall of each chunk. */
  type Node = seq<PosId> -> Result<seq<Row>, ReadError>

  function ChunkReader<T>(calls: nat, node: Node,
                          decode: (PosId, seq<Row>) -> Result<Option<T>, ReadError>): seq<PosId> -> seq<RowOutcome<T>>
    requires calls > 0
  {
    chunk => ChunkOutcomes(chunk, calls, node(chunk), decode)
  }

  const MAX_ROW_BATCH: nat := 500

  /** The whole batch: each chunk's read, joined in input order. */
  function BatchRows<T>(ids: seq<PosId>, size: nat, calls: nat, node: Node,
                        decode: (PosId, seq<Row>) -> Result<Option<T>, ReadError>): seq<RowOutcome<T>>
    requires size > 0 && calls > 0
  {
    FlatMap(Chunks(ids, size), ChunkReader(calls, node, decode))
  }

  // ── Where an id's chunk and rows are ───────────────────────────────────

  /** The start of the chunk that holds position `i`. */
  function ChunkStart(i: nat, size: nat): (start: nat)
    requires size > 0
    ensures start <= i < start + size
  {
    i - i % size
  }

  function ChunkAt(ids: seq<PosId>, size: nat, i: nat): (chunk: seq<PosId>)
    requires size > 0 && i < |ids|
    ensures i - ChunkStart(i, size) < |chunk|
    ensures chunk[i - ChunkStart(i, size)] == ids[i]
  {
    var start := ChunkStart(i, size);
    if start + size <= |ids| then ids[start..start + size] else ids[start..]
  }

  lemma {:induction false} MultiplesAreFar(d: int, size: nat)
    ensures d >= 1 ==> d * size >= size
    ensures d <= -1 ==> d * size <= 0 - size
  {
    if d >= 1 {
      assert d * size == (d - 1) * size + size;
    } else if d <= -1 {
      assert d * size == (d + 1) * size - size;
    }
  }

  lemma {:induction false} ChunkStartOfTheTail(i: nat, size: nat)
    requires 0 < size <= i
    ensures ChunkStart(i, size) == ChunkStart(i - size, size) + size
  {
    var d := i / size - 1 - (i - size) / size;
    assert d * size == (i - size) % size - i % size;
    MultiplesAreFar(d, size);
  }

  lemma {:induction false} SliceOfATail<T>(s: seq<T>, k: nat, a: nat, b: nat)
    requires k <= |s| && a <= b <= |s| - k
    ensures s[k..][a..b] == s[k + a..k + b]
  {
  }

  /** The `j`-th group is the `j`-th run of `size` elements. */
  lemma {:induction false} GroupsAreSlices<T>(s: seq<T>, size: nat, j: nat)
    requires size > 0 && j < |Groups(s, size)|
    ensures j * size + size <= |s|
    ensures Groups(s, size)[j] == s[j * size..j * size + size]
    decreases j
  {
    if j > 0 {
      GroupsAreSlices(s[size..], size, j - 1);
      var start := (j - 1) * size;
      assert j * size == size + start;
      SliceOfATail(s, size, start, start + size);
    } else {
      assert j * size == 0;
    }
  }

  lemma {:induction false} GroupsOfAMultiple<T>(s: seq<T>, size: nat, count: nat)
    requires size > 0 && |s| == size * count
    ensures |Groups(s, size)| == count
    decreases count
  {
    if count > 0 {
      assert size * count == size + size * (count - 1);
      GroupsOfAMultiple(s[size..], size, count - 1);
    }
  }

  lemma {:induction false} ZipByPosition<T>(chunk: seq<PosId>, groups: seq<seq<Row>>,
                                            decode: (PosId, seq<Row>) -> Result<Option<T>, ReadError>)
    requires |chunk| == |groups|
    ensures |Zip(chunk, groups, decode)| == |chunk|
    ensures forall j :: 0 <= j < |chunk| ==>
              Zip(chunk, groups, decode)[j] == RowOutcome(chunk[j], decode(chunk[j], groups[j]))
    decreases |chunk|
  {
    if chunk != [] {
      ZipByPosition(chunk[1..], groups[1..], decode);
    }
  }

  /** What id `j` of a chunk gets from the node's answer to the chunk: the decode of its
      own rows, or the chunk's failure. */
  function OutcomeInChunk<T>(chunk: seq<PosId>, calls: nat, answer: Result<seq<Row>, ReadError>,
                             decode: (PosId, seq<Row>) -> Result<Option<T>, ReadError>, j: nat): RowOutcome<T>
    requires calls > 0 && j < |chunk|
  {
    match answer
    case Err(e) => RowOutcome(chunk[j], Err(Shared(e)))
    case Ok(rows) =>
      if |rows| != calls * |chunk| then RowOutcome(chunk[j], Err(Shared(MulticallFailed)))
      else
        GroupsOfAMultiple(rows, calls, |chunk|);
        RowOutcome(chunk[j], decode(chunk[j], Groups(rows, calls)[j]))
  }

  lemma {:induction false} ChunkOutcomesByPosition<T>(chunk: seq<PosId>, calls: nat,
                                                      answer: Result<seq<Row>, ReadError>,
                                                      decode: (PosId, seq<Row>) -> Result<Option<T>, ReadError>)
    requires calls > 0
    ensures |ChunkOutcomes(chunk, calls, answer, decode)| == |chunk|
    ensures forall j :: 0 <= j < |chunk| ==>
              ChunkOutcomes(chunk, calls, answer, decode)[j] == OutcomeInChunk(chunk, calls, answer, decode, j)
  {
    if answer.Ok? && |answer.value| == calls * |chunk| {
      GroupsOfAMultiple(answer.value, calls, |chunk|);
      ZipByPosition(chunk, Groups(answer.value, calls), decode);
    }
  }

  function Head(ids: seq<PosId>, size: nat): (head: seq<PosId>)
    requires size > 0 && ids != []
    ensures 0 < |head| <= |ids| && head == ids[..|head|]
  {
    if |ids| <= size then ids else ids[..size]
  }

  lemma {:induction false} JoinPeels<O>(ids: seq<PosId>, size: nat, read: seq<PosId> -> seq<O>)
    requires size > 0 && ids != []
    ensures var head := Head(ids, size);
            FlatMap(Chunks(ids, size), read) == read(head) + FlatMap(Chunks(ids[|head|..], size), read)
  {
    var head := Head(ids, size);
    var rest := Chunks(ids[|head|..], size);
    assert Chunks(ids, size) == [head] + rest;
    assert ([head] + rest)[1..] == rest;
  }

  lemma {:induction false} ChunkPastTheHead(ids: seq<PosId>, size: nat, i: nat)
    requires 0 < size <= i < |ids|
    ensures ChunkStart(i, size) == size + ChunkStart(i - size, size)
    ensures ChunkAt(ids, size, i) == ChunkAt(ids[size..], size, i - size)
  {
    ChunkStartOfTheTail(i, size);
    var start := ChunkStart(i - size, size);
    var end := if start + size <= |ids| - size then start + size else |ids| - size;
    SliceOfATail(ids, size, start, end);
    assert ChunkAt(ids[size..], size, i - size) == ids[size..][start..end];
    assert ChunkAt(ids, size, i) == ids[size + start..size + end];
  }

  lemma {:induction false} ChunkOfTheHead(ids: seq<PosId>, size: nat, i: nat)
    requires size > 0 && i < |ids| && i < |Head(ids, size)|
    ensures ChunkStart(i, size) == 0 && ChunkAt(ids, size, i) == Head(ids, size)
  {
    assert i % size == i;
    assert ids[0..] == ids;
  }

  lemma {:induction false} OneElementPerId<O>(ids: seq<PosId>, size: nat, read: seq<PosId> -> seq<O>)
    requires size > 0
    requires forall chunk :: |read(chunk)| == |chunk|
    ensures |FlatMap(Chunks(ids, size), read)| == |ids|
    decreases |ids|
  {
    if ids != [] {
      JoinPeels(ids, size, read);
      OneElementPerId(ids[|Head(ids, size)|..], size, read);
    }
  }

  /** What the chunk holding position `i` read for it. */
  function ReadAt<O>(ids: seq<PosId>, size: nat, read: seq<PosId> -> seq<O>, i: nat): O
    requires size > 0 && i < |ids|
    requires forall chunk :: |read(chunk)| == |chunk|
  {
    read(ChunkAt(ids, size, i))[i - ChunkStart(i, size)]
  }

  lemma {:induction false} ReadAtPeels<O>(ids: seq<PosId>, size: nat, read: seq<PosId> -> seq<O>, i: nat)
    requires size > 0 && i < |ids|
    requires forall chunk :: |read(chunk)| == |chunk|
    ensures var head := Head(ids, size);
            ReadAt(ids, size, read, i)
            == if i < |head| then read(head)[i] else ReadAt(ids[|head|..], size, read, i - |head|)
  {
    if i < |Head(ids, size)| {
      ChunkOfTheHead(ids, size, i);
    } else {
      ChunkPastTheHead(ids, size, i);
    }
  }

  /** Reading chunk by chunk and joining puts at position `i` what the chunk holding
      position `i` read there, whatever is read, as long as a chunk's read has one
      element per id. */
  lemma {:induction false} JoinIsPointwise<O>(ids: seq<PosId>, size: nat, read: seq<PosId> -> seq<O>, i: nat)
    requires size > 0 && i < |ids|
    requires forall chunk :: |read(chunk)| == |chunk|
    ensures |FlatMap(Chunks(ids, size), read)| == |ids|
    ensures FlatMap(Chunks(ids, size), read)[i] == ReadAt(ids, size, read, i)
    decreases |ids|
  {
    var head := Head(ids, size);
    OneElementPerId(ids, size, read);
    JoinPeels(ids, size, read);
    ReadAtPeels(ids, size, read, i);
    if i >= |head| {
      JoinIsPointwise(ids[|head|..], size, read, i - |head|);
    }
  }

  lemma {:induction false} ReaderByPosition<T>(calls: nat, node: Node,
                                               decode: (PosId, seq<Row>) -> Result<Option<T>, ReadError>,
                                               chunk: seq<PosId>)
    requires calls > 0
    ensures var read := ChunkReader(calls, node, decode);
            |read(chunk)| == |chunk|
            && forall j: nat :: j < |chunk| ==>
                 read(chunk)[j] == OutcomeInChunk(chunk, calls, node(chunk), decode, j)
  {
    ChunkOutcomesByPosition(chunk, calls, node(chunk), decode);
  }

  lemma {:induction false} ReaderKeepsLength<T>(calls: nat, node: Node,
                                                decode: (PosId, seq<Row>) -> Result<Option<T>, ReadError>)
    requires calls > 0
    ensures forall chunk :: |ChunkReader(calls, node, decode)(chunk)| == |chunk|
  {
    forall chunk: seq<PosId>
      ensures |ChunkReader(calls, node, decode)(chunk)| == |chunk|
    {
      ReaderByPosition(calls, node, decode, chunk);
    }
  }

  lemma {:induction false} OneRowPerId<T>(ids: seq<PosId>, size: nat, calls: nat, node: Node,
                                          decode: (PosId, seq<Row>) -> Result<Option<T>, ReadError>)
    requires size > 0 && calls > 0
    ensures |BatchRows(ids, size, calls, node, decode)| == |ids|
  {
    ReaderKeepsLength(calls, node, decode);
    OneElementPerId(ids, size, ChunkReader(calls, node, decode));
  }

  /** One outcome per id, in input order, each with the decode of its own rows or its own
      chunk's failure: no answer of the node, of whatever length, moves a row to
      another id. */
  lemma {:induction false} BatchIsPointwise<T>(ids: seq<PosId>, size: nat, calls: nat, node: Node,
                                               decode: (PosId, seq<Row>) -> Result<Option<T>, ReadError>, i: nat)
    requires size > 0 && calls > 0 && i < |ids|
    ensures var out := BatchRows(ids, size, calls, node, decode);
            var chunk := ChunkAt(ids, size, i);
            |out| == |ids|
            && out[i] == OutcomeInChunk(chunk, calls, node(chunk), decode, i - ChunkStart(i, size))
  {
    var read := ChunkReader(calls, node, decode);
    ReaderKeepsLength(calls, node, decode);
    JoinIsPointwise(ids, size, read, i);
    ReaderByPosition(calls, node, decode, ChunkAt(ids, size, i));
  }

  // ── Against a truthful node ────────────────────────────────────────────

  function Replies(calls: seq<Call>, reply: Call -> Row): (rows: seq<Row>)
    ensures |rows| == |calls|
    ensures forall i :: 0 <= i < |calls| ==> rows[i] == reply(calls[i])
  {
    seq(|calls|, i requires 0 <= i < |calls| => reply(calls[i]))
  }

  lemma {:induction false} GroupsOfAJoin<T>(first: seq<T>, rest: seq<T>)
    requires first != []
    ensures Groups(first + rest, |first|) == [first] + Groups(rest, |first|)
  {
    assert (first + rest)[..|first|] == first;
    assert (first + rest)[|first|..] == rest;
  }

  lemma {:induction false} RepliesInOrder(first: seq<Call>, rest: seq<Call>, reply: Call -> Row)
    ensures Replies(first + rest, reply) == Replies(first, reply) + Replies(rest, reply)
  {
  }

  lemma {:induction false} AllCallsAreAsked(chunk: seq<PosId>, calls: nat, encode: PosId -> seq<Call>)
    requires forall id :: |encode(id)| == calls
    ensures |FlatMap(chunk, encode)| == calls * |chunk|
    decreases |chunk|
  {
    if chunk != [] {
      AllCallsAreAsked(chunk[1..], calls, encode);
      assert calls * |chunk| == calls + calls * (|chunk| - 1);
    }
  }

  lemma {:induction false} RepliesToOwnCalls(chunk: seq<PosId>, calls: nat, encode: PosId -> seq<Call>,
                                             reply: Call -> Row, j: nat)
    requires calls > 0 && j < |chunk|
    requires forall id :: |encode(id)| == calls
    ensures var groups := Groups(Replies(FlatMap(chunk, encode), reply), calls);
            |groups| > j && groups[j] == Replies(encode(chunk[j]), reply)
    decreases |chunk|
  {
    var id := chunk[0];
    var first, rest := encode(id), FlatMap(chunk[1..], encode);
    RepliesInOrder(first, rest, reply);
    GroupsOfAJoin(Replies(first, reply), Replies(rest, reply));
    if j > 0 {
      RepliesToOwnCalls(chunk[1..], calls, encode, reply, j - 1);
    }
  }

  lemma {:induction false} TruthfulOutcome<T>(chunk: seq<PosId>, calls: nat, encode: PosId -> seq<Call>,
                                              reply: Call -> Row,
                                              decode: (PosId, seq<Row>) -> Result<Option<T>, ReadError>, j: nat)
    requires calls > 0 && j < |chunk|
    requires forall id :: |encode(id)| == calls
    ensures OutcomeInChunk(chunk, calls, Ok(Replies(FlatMap(chunk, encode), reply)), decode, j)
            == RowOutcome(chunk[j], decode(chunk[j], Replies(encode(chunk[j]), reply)))
  {
    AllCallsAreAsked(chunk, calls, encode);
    RepliesToOwnCalls(chunk, calls, encode, reply, j);
  }

  /** With a node that answers every call by itself, chunking is invisible: each id gets
      the decode of the replies to its own calls. */
  lemma {:induction false} TruthfulBatchIsUnchunked<T>(ids: seq<PosId>, size: nat, calls: nat,
                                                       encode: PosId -> seq<Call>, reply: Call -> Row, node: Node,
                                                       decode: (PosId, seq<Row>) -> Result<Option<T>, ReadError>,
                                                       i: nat)
    requires size > 0 && calls > 0 && i < |ids|
    requires forall id :: |encode(id)| == calls
    requires forall chunk :: node(chunk) == Ok(Replies(FlatMap(chunk, encode), reply))
    ensures var out := BatchRows(ids, size, calls, node, decode);
            |out| == |ids| && out[i] == RowOutcome(ids[i], decode(ids[i], Replies(encode(ids[i]), reply)))
  {
    BatchIsPointwise(ids, size, calls, node, decode, i);
    TruthfulOutcome(ChunkAt(ids, size, i), calls, encode, reply, decode, i - ChunkStart(i, size));
  }
}
