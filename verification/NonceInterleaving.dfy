/** The nonce manager on its own, shared by any number of threads, with every
    atomic operation its own step: the `fetch_add`, the `compare_exchange`, the
    `swap`, and each hold of the mutex around the pending map. */
module NonceInterleaving {
  import opened Errors
  import opened Nonce

  datatype Thread =
    | Idle
    | Owning(nonce: nat, tracked: bool)  // acquired, perhaps tracked
    | Releasing(nonce: nat)              // removed from pending, compare-and-exchange still to run
    | Resyncing                          // counter swapped, pending map still to clear

  datatype Shared = Shared(nonces: Nonces, threads: seq<Thread>)

  datatype Atomic =
    | Acquire(t: nat)
    | Track(t: nat, txHash: TxHash, nowMs: nat)
    | Confirm(t: nat)
    | ReleaseRemove(t: nat)
    | ReleaseCas(t: nat)
    | ResyncSwap(t: nat, count: nat)
    | ResyncClear(t: nat)

  predicate Owns(t: Thread) {
    t.Owning? || t.Releasing?
  }

  /** Nobody owns a nonce: the only time a resync may start. */
  predicate Unowned(s: Shared) {
    forall t :: 0 <= t < |s.threads| ==> !Owns(s.threads[t])
  }

  predicate Enabled(s: Shared, a: Atomic) {
    a.t < |s.threads| &&
    match a
    case Acquire(t) => s.threads[t].Idle?
    case Track(t, _, _) => s.threads[t].Owning?
    case Confirm(t) => s.threads[t].Owning?
    case ReleaseRemove(t) => s.threads[t].Owning?
    case ReleaseCas(t) => s.threads[t].Releasing?
    case ResyncSwap(t, _) => s.threads[t].Idle? && Unowned(s)
    case ResyncClear(t) => s.threads[t].Resyncing?
  }

  function Apply(s: Shared, a: Atomic): Shared
    requires Enabled(s, a)
  {
    var at := s.threads[a.t];
    match a
    case Acquire(t) =>
      Shared(s.nonces.(next := s.nonces.next + 1), s.threads[t := Owning(s.nonces.next, false)])
    case Track(t, h, nowMs) =>
      Shared(s.nonces.Track(at.nonce, h, nowMs), s.threads[t := Owning(at.nonce, true)])
    case Confirm(t) =>
      Shared(s.nonces.Confirm(at.nonce), s.threads[t := Idle])
    case ReleaseRemove(t) =>
      Shared(s.nonces.Confirm(at.nonce), s.threads[t := Releasing(at.nonce)])
    case ReleaseCas(t) =>
      Shared(s.nonces.(next := if s.nonces.next == at.nonce + 1 then at.nonce else s.nonces.next),
             s.threads[t := Idle])
    case ResyncSwap(t, count) =>
      Shared(s.nonces.(next := count), s.threads[t := Resyncing])
    case ResyncClear(t) =>
      Shared(s.nonces.(pending := map[]), s.threads[t := Idle])
  }

  predicate Runs(s: Shared, run: seq<Atomic>)
    decreases |run|
  {
    run == [] || (Enabled(s, run[0]) && Runs(Apply(s, run[0]), run[1..]))
  }

  function Final(s: Shared, run: seq<Atomic>): Shared
    requires Runs(s, run)
    decreases |run|
  {
    if run == [] then s else Final(Apply(s, run[0]), run[1..])
  }

  /** Two threads never own one nonce, and every owned nonce is behind the counter. */
  ghost predicate Exclusive(s: Shared) {
    && (forall t :: 0 <= t < |s.threads| && Owns(s.threads[t]) ==> s.threads[t].nonce < s.nonces.next)
    && (forall t, u :: 0 <= t < u < |s.threads| && Owns(s.threads[t]) && Owns(s.threads[u]) ==>
          s.threads[t].nonce != s.threads[u].nonce)
  }

  /** Whatever is tracked belongs to a thread that tracked it and has not let go. */
  ghost predicate TracksOnlyOwned(s: Shared) {
    forall n :: n in s.nonces.pending ==>
      exists t :: 0 <= t < |s.threads| && s.threads[t] == Owning(n, true)
  }

  lemma {:induction false} StepKeepsExclusive(s: Shared, a: Atomic)
    requires Exclusive(s) && Enabled(s, a)
    ensures Exclusive(Apply(s, a))
  {
  }

  lemma {:induction false} StepKeepsTracksOnlyOwned(s: Shared, a: Atomic)
    requires Exclusive(s) && TracksOnlyOwned(s) && Enabled(s, a)
    ensures TracksOnlyOwned(Apply(s, a))
  {
    var s' := Apply(s, a);
    forall n | n in s'.nonces.pending
      ensures exists t :: 0 <= t < |s'.threads| && s'.threads[t] == Owning(n, true)
    {
      if a.Track? && n == s.threads[a.t].nonce {
        assert s'.threads[a.t] == Owning(n, true);
      } else {
        var t :| 0 <= t < |s.threads| && s.threads[t] == Owning(n, true);
        assert s'.threads[t] == Owning(n, true);
      }
    }
  }

  /** Every interleaving of the atomic operations keeps nonces exclusive. */
  lemma {:induction false} InterleavingsAreExclusive(s: Shared, run: seq<Atomic>)
    requires Runs(s, run)
    requires Exclusive(s) && TracksOnlyOwned(s)
    ensures Exclusive(Final(s, run)) && TracksOnlyOwned(Final(s, run))
    decreases |run|
  {
    if run != [] {
      StepKeepsExclusive(s, run[0]);
      StepKeepsTracksOnlyOwned(s, run[0]);
      InterleavingsAreExclusive(Apply(s, run[0]), run[1..]);
    }
  }

  /** The converse of `TracksOnlyOwned`: a thread that tracked its nonce finds it. */
  ghost predicate TracksAllOwned(s: Shared) {
    forall t :: 0 <= t < |s.threads| && s.threads[t].Owning? && s.threads[t].tracked ==>
      s.threads[t].nonce in s.nonces.pending
  }

  /** A clear that runs while some other thread has a tracked nonce. */
  predicate ClearsTracked(s: Shared, a: Atomic) {
    a.ResyncClear? &&
    exists t :: 0 <= t < |s.threads| && s.threads[t].Owning? && s.threads[t].tracked
  }

  /** Bare `resync` is a swap and then a clear. A step loses a tracked nonce exactly
      when it is the clear while some thread has one. Behind the pipeline's mutex the
      two are one step, so this cannot happen there. */
  lemma {:induction false} TrackingIsLostOnlyByALateClear(s: Shared, a: Atomic)
    requires Exclusive(s) && TracksOnlyOwned(s) && TracksAllOwned(s) && Enabled(s, a)
    ensures TracksAllOwned(Apply(s, a)) <==> !ClearsTracked(s, a)
  {
    var s' := Apply(s, a);
    if ClearsTracked(s, a) {
      var t :| 0 <= t < |s.threads| && s.threads[t].Owning? && s.threads[t].tracked;
      assert s'.threads[t] == s.threads[t];
    }
  }

  predicate Tracked(t: Thread) {
    t.Owning? && t.tracked
  }

  /** Whatever thread `u` does in the run is to track. */
  predicate OnlyTracks(run: seq<Atomic>, u: nat) {
    forall k :: 0 <= k < |run| && run[k].t == u ==> run[k].Track?
  }

  /** Thread `u` tracks its nonce in the run and does not let go of it after. */
  predicate TracksAndKeeps(run: seq<Atomic>, u: nat) {
    run != []
    && ((run[0].Track? && run[0].t == u && OnlyTracks(run[1..], u)) || TracksAndKeeps(run[1..], u))
  }

  lemma {:induction false} TrackedAtTheEnd(s: Shared, run: seq<Atomic>, u: nat)
    requires Runs(s, run) && u < |s.threads|
    ensures |Final(s, run).threads| == |s.threads|
    ensures Tracked(Final(s, run).threads[u]) <==>
              TracksAndKeeps(run, u) || (Tracked(s.threads[u]) && OnlyTracks(run, u))
    decreases |run|
  {
    if run != [] {
      var next := Apply(s, run[0]);
      TrackedAtTheEnd(next, run[1..], u);
      assert run == [run[0]] + run[1..];
      assert OnlyTracks(run, u) <==> (run[0].t == u ==> run[0].Track?) && OnlyTracks(run[1..], u);
    }
  }

  ghost predicate SomeoneStillTracks(run: seq<Atomic>, threads: nat) {
    exists u :: 0 <= u < threads && TracksAndKeeps(run, u)
  }

  /** From the swap of a resync to its clear: a tracked nonce is forgotten exactly when
      some thread tracked it in between and has not let go of it. */
  lemma {:induction false} WhatIsTrackedSinceTheSwapIsLost(s: Shared, r: nat, count: nat, between: seq<Atomic>)
    requires Enabled(s, ResyncSwap(r, count))
    requires Runs(Apply(s, ResyncSwap(r, count)), between)
    requires Enabled(Final(Apply(s, ResyncSwap(r, count)), between), ResyncClear(r))
    ensures var cleared := Apply(Final(Apply(s, ResyncSwap(r, count)), between), ResyncClear(r));
            TracksAllOwned(cleared) <==> !SomeoneStillTracks(between, |s.threads|)
  {
    var swapped := Apply(s, ResyncSwap(r, count));
    var before := Final(swapped, between);
    var cleared := Apply(before, ResyncClear(r));
    TrackedAtTheEnd(swapped, between, r);
    forall u | 0 <= u < |s.threads|
      ensures Tracked(cleared.threads[u]) <==> TracksAndKeeps(between, u)
    {
      TrackedAtTheEnd(swapped, between, u);
      assert !Owns(s.threads[u]);
      assert u != r ==> cleared.threads[u] == before.threads[u];
    }
    assert |cleared.threads| == |s.threads| && cleared.nonces.pending == map[];
    if SomeoneStillTracks(between, |s.threads|) {
      var u :| 0 <= u < |s.threads| && TracksAndKeeps(between, u);
      assert Tracked(cleared.threads[u]);
    }
  }

  /** The late clear does happen: one thread resyncs while another acquires and tracks. */
  lemma {:induction false} ALateClearIsReachable()
    ensures
      var s := Shared(Nonces(7, map[]), [Idle, Idle]);
      var run := [ResyncSwap(0, 9), Acquire(1), Track(1, TxHash(9, 0), 0), ResyncClear(0)];
      Runs(s, run) && !TracksAllOwned(Final(s, run))
  {
    var s := Shared(Nonces(7, map[]), [Idle, Idle]);
    var s1 := Apply(s, ResyncSwap(0, 9));
    var s2 := Apply(s1, Acquire(1));
    var s3 := Apply(s2, Track(1, TxHash(9, 0), 0));
    var s4 := Apply(s3, ResyncClear(0));
    var run := [ResyncSwap(0, 9), Acquire(1), Track(1, TxHash(9, 0), 0), ResyncClear(0)];
    assert run[1..] == [Acquire(1), Track(1, TxHash(9, 0), 0), ResyncClear(0)];
    assert run[1..][1..] == [Track(1, TxHash(9, 0), 0), ResyncClear(0)];
    assert run[1..][1..][1..] == [ResyncClear(0)];
    assert run[1..][1..][1..][1..] == [];
    assert Runs(s4, []) && Final(s4, []) == s4;
    assert Runs(s3, [ResyncClear(0)]) && Final(s3, [ResyncClear(0)]) == s4;
    assert s4.threads[1] == Owning(9, true);
  }
}
