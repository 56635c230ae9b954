/** What every run of concurrent sends promises, in terms of the senders. */
module SendGuarantees {
  import opened Wrappers
  import opened Errors
  import opened SendProtocol
  import L = NonceLedger

  // ── Counting senders ───────────────────────────────────────────────────

  ghost function TicketHolders(s: System): set<nat> {
    set i | 0 <= i < |s.senders| && HasTicket(s.senders[i])
  }

  ghost function Awaiters(s: System): set<nat> {
    set i | 0 <= i < |s.senders| && s.senders[i].Awaiting?
  }

  lemma {:induction false} OneToOneMapsKeepSize<A, B>(m: map<A, B>)
    requires forall a, b :: a in m && b in m && m[a] == m[b] ==> a == b
    ensures |m.Keys| == |m.Values|
    decreases |m.Keys|
  {
    if m != map[] {
      var a :| a in m;
      var rest := m - {a};
      OneToOneMapsKeepSize(rest);
      assert m.Keys == rest.Keys + {a};
      assert m.Values == rest.Values + {m[a]};
      assert m[a] !in rest.Values;
    } else {
      assert m.Values == {};
    }
  }

  lemma {:induction false} OneHolderPerTicket(tickets: set<nat>, senders: seq<Phase>)
    requires TicketsOwned(tickets, senders)
    ensures |set i | 0 <= i < |senders| && HasTicket(senders[i])| == |tickets|
  {
    var nonceOf := map i | 0 <= i < |senders| && HasTicket(senders[i]) :: senders[i].prepared.nonce;
    forall n | n in tickets
      ensures n in nonceOf.Values
    {
      assert SomeOwner(senders, n);
      var i :| 0 <= i < |senders| && Owns(senders[i], n);
      assert i in nonceOf && nonceOf[i] == n;
    }
    assert nonceOf.Values == tickets;
    OneToOneMapsKeepSize(nonceOf);
    assert nonceOf.Keys == set i | 0 <= i < |senders| && HasTicket(senders[i]);
  }

  lemma {:induction false} OneAwaiterPerFlight(hashes: set<TxHash>, senders: seq<Phase>)
    requires FlightsOwned(hashes, senders)
    ensures |set i | 0 <= i < |senders| && senders[i].Awaiting?| == |hashes|
  {
    var hashOf := map i | 0 <= i < |senders| && senders[i].Awaiting? :: senders[i].hash;
    forall h | h in hashes
      ensures h in hashOf.Values
    {
      assert SomeAwaits(senders, h);
      var i :| 0 <= i < |senders| && Awaits(senders[i], h);
      assert i in hashOf && hashOf[i] == h;
    }
    assert hashOf.Values == hashes;
    OneToOneMapsKeepSize(hashOf);
    assert hashOf.Keys == set i | 0 <= i < |senders| && senders[i].Awaiting?;
  }

  lemma {:induction false} HoldersAreCounted(s: System)
    requires Valid(s)
    ensures s.ledger.pipe.preparing == |TicketHolders(s)|
    ensures |s.ledger.pipe.inFlight| == |Awaiters(s)| == |s.ledger.pipe.nonces.pending|
  {
    OneHolderPerTicket(s.ledger.tickets, s.senders);
    OneAwaiterPerFlight(s.ledger.pipe.inFlight.Keys, s.senders);
    L.InverseMapsHaveOneSize(s.ledger.pipe);
  }

  /** Balanced sends: `preparing` counts exactly the senders between `prepare` and
      `record_submission`, never below zero; what is in flight, by hash and by nonce,
      counts exactly the senders awaiting a receipt. */
  lemma {:induction false} SendsAreBalanced(s: System, run: seq<Event>)
    requires Valid(s) && Runs(s, run)
    ensures var f := Final(s, run);
      && f.ledger.pipe.preparing == |TicketHolders(f)|
      && |f.ledger.pipe.inFlight| == |Awaiters(f)| == |f.ledger.pipe.nonces.pending|
  {
    EveryRunIsValid(s, run);
    HoldersAreCounted(Final(s, run));
  }

  /** Every single exit lets go, and of its own only: the step that returns takes the
      sender's ticket, or its entry by hash and by nonce, out of the pipeline and leaves
      everybody else's; a sender that held neither leaves the pipeline as it was. */
  lemma {:induction false} EveryExitLetsGo(s: System, i: nat, act: Act)
    requires Valid(s) && Enabled(s, By(i, act))
    ensures Returns(s, i, act) ==> LetsGo(s.senders[i], s.ledger, ApplyAct(s, i, act).ledger)
  {
    var at := s.senders[i];
    if Returns(s, i, act) {
      if HasTicket(at) {
        SendersFit(s, i);
        ATicketIsLetGo(s.ledger, s.gen, at, act);
      } else if at.Awaiting? {
        SendersFit(s, i);
        AnEntryIsLetGo(s.ledger, at, act);
      }
    }
  }

  /** The step is the one with which sender `i` returns. */
  predicate Returns(s: System, i: nat, act: Act)
    requires Enabled(s, By(i, act))
  {
    ApplyAct(s, i, act).senders[i].Done?
  }

  /** From `l` to `l'`, what the sender held is gone, and only that. */
  predicate LetsGo(at: Phase, l: L.Ledger, l': L.Ledger) {
    && (HasTicket(at) ==>
          && at.prepared.nonce in l.tickets && l'.tickets == l.tickets - {at.prepared.nonce}
          && l'.pipe.preparing == l.pipe.preparing - 1 && l'.pipe.inFlight == l.pipe.inFlight)
    && (at.Awaiting? ==>
          && at.hash in l.pipe.inFlight && l'.pipe.inFlight == l.pipe.inFlight - {at.hash}
          && at.nonce in L.Flying(l) && L.Flying(l') == L.Flying(l) - {at.nonce}
          && l'.tickets == l.tickets && l'.pipe.preparing == l.pipe.preparing)
    && (!HasTicket(at) && !at.Awaiting? ==> l' == l)
  }

  lemma {:induction false} ATicketIsLetGo(l: L.Ledger, gen: nat, at: Phase, act: Act)
    requires CanAct(at, act) && HasTicket(at) && PhaseAfter(l.pipe, gen, at, act).Done?
    ensures var l' := LedgerAfter(l, at, act);
      && l'.tickets == l.tickets - {at.prepared.nonce}
      && l'.pipe.preparing == l.pipe.preparing - 1 && l'.pipe.inFlight == l.pipe.inFlight
  {
  }

  lemma {:induction false} AnEntryIsLetGo(l: L.Ledger, at: Phase, act: Act)
    requires CanAct(at, act) && at.Awaiting?
    requires at.hash in l.pipe.inFlight && l.pipe.inFlight[at.hash].nonce == at.nonce
    ensures var l' := LedgerAfter(l, at, act);
      && l'.pipe.inFlight == l.pipe.inFlight - {at.hash}
      && L.Flying(l') == L.Flying(l) - {at.nonce}
      && l'.tickets == l.tickets && l'.pipe.preparing == l.pipe.preparing
  {
    var l' := LedgerAfter(l, at, act);
    assert l'.pipe.nonces.pending == l.pipe.nonces.pending - {at.nonce};
  }

  lemma {:induction false} NoHolderNothingHeld(tickets: set<nat>, hashes: set<TxHash>, senders: seq<Phase>)
    requires TicketsOwned(tickets, senders) && FlightsOwned(hashes, senders)
    requires forall i :: 0 <= i < |senders| ==> senders[i].Done?
    ensures tickets == {} && hashes == {}
  {
    assert forall n :: !SomeOwner(senders, n);
    assert forall h :: !SomeAwaits(senders, h);
  }

  /** When every send has returned, by whatever exits, none of them left a ticket or an
      in-flight entry behind, and the pipeline may resync. */
  lemma {:induction false} NothingIsLeftBehind(s: System, run: seq<Event>)
    requires Valid(s) && Runs(s, run)
    requires forall i :: 0 <= i < |Final(s, run).senders| ==> Final(s, run).senders[i].Done?
    ensures Final(s, run).ledger.tickets == {}
    ensures Final(s, run).ledger.pipe.CanResync()
  {
    EveryRunIsValid(s, run);
    var l := Final(s, run).ledger;
    NoHolderNothingHeld(l.tickets, l.pipe.inFlight.Keys, Final(s, run).senders);
    assert |l.pipe.inFlight| == |l.pipe.inFlight.Keys|;
  }

  // ── Exclusivity and no silent hole ─────────────────────────────────────

  /** The nonce a sender holds, by ticket or in flight. */
  predicate Uses(p: Phase, n: nat) {
    Owns(p, n) || (p.Awaiting? && p.nonce == n)
  }

  lemma {:induction false} UsedNoncesAreOut(s: System, i: nat, n: nat)
    requires Valid(s) && i < |s.senders| && Uses(s.senders[i], n)
    ensures Owns(s.senders[i], n) ==> n in s.ledger.tickets
    ensures s.senders[i].Awaiting? ==> n in L.Flying(s.ledger) && s.senders[i].hash.nonce == n
  {
    assert Fits(s.senders[i]);
    if s.senders[i].Awaiting? {
      assert s.ledger.pipe.inFlight[s.senders[i].hash].nonce == n;
    }
  }

  /** No two sends ever hold one nonce, and none holds one outside `[base, next)`. */
  lemma {:induction false} NoncesAreExclusive(s: System, run: seq<Event>, i: nat, j: nat, n: nat)
    requires Valid(s) && Runs(s, run)
    requires i < |Final(s, run).senders| && j < |Final(s, run).senders|
    requires Uses(Final(s, run).senders[i], n) && Uses(Final(s, run).senders[j], n)
    ensures i == j
    ensures Final(s, run).ledger.base <= n < Final(s, run).ledger.pipe.nonces.next
  {
    EveryRunIsValid(s, run);
    var f := Final(s, run);
    UsedNoncesAreOut(f, i, n);
    UsedNoncesAreOut(f, j, n);
    if f.senders[i].Awaiting? && f.senders[j].Awaiting? {
      L.NoncesInFlightAreDistinct(f.ledger, f.senders[i].hash, f.senders[j].hash);
    }
  }

  ghost predicate SomeUses(s: System, n: nat) {
    exists i :: 0 <= i < |s.senders| && Uses(s.senders[i], n)
  }

  lemma {:induction false} ATicketIsUsed(s: System, n: nat)
    requires TicketsOwned(s.ledger.tickets, s.senders) && n in s.ledger.tickets
    ensures SomeUses(s, n)
  {
    assert SomeOwner(s.senders, n);
    var i :| 0 <= i < |s.senders| && Owns(s.senders[i], n);
    assert Uses(s.senders[i], n);
  }

  lemma {:induction false} AFlightIsUsed(s: System, n: nat)
    requires FlightsOwned(s.ledger.pipe.inFlight.Keys, s.senders)
    requires HashesFit(s.ledger.pipe.inFlight, s.senders)
    requires L.Inverse(s.ledger.pipe) && n in L.Flying(s.ledger)
    ensures SomeUses(s, n)
  {
    var h := s.ledger.pipe.nonces.pending[n].txHash;
    assert h in s.ledger.pipe.inFlight && h.nonce == n;
    assert SomeAwaits(s.senders, h);
    var i :| 0 <= i < |s.senders| && Awaits(s.senders[i], h);
    assert Fits(s.senders[i]);
    assert Uses(s.senders[i], n);
  }

  lemma {:induction false} CoveredNoncesAreUsed(s: System, n: nat)
    requires Valid(s) && !s.ledger.pipe.desynced && s.ledger.base <= n < s.ledger.pipe.nonces.next
    ensures SomeUses(s, n) || n in s.ledger.confirmed
  {
    if n in s.ledger.tickets {
      ATicketIsUsed(s, n);
    } else if n in L.Flying(s.ledger) {
      AFlightIsUsed(s, n);
    } else {
      assert L.Covered(s.ledger.base, s.ledger.pipe.nonces.next,
                       s.ledger.tickets, L.Flying(s.ledger), s.ledger.confirmed);
    }
  }

  /** While the flag is down, every nonce since the last adopted count is held by a
      live send or was broadcast and confirmed by a receipt, and they add up. */
  lemma {:induction false} NoHoleIsSilent(s: System, run: seq<Event>)
    requires Valid(s) && Runs(s, run) && !Final(s, run).ledger.pipe.desynced
    ensures var f := Final(s, run);
      && (forall n :: f.ledger.base <= n < f.ledger.pipe.nonces.next ==>
            SomeUses(f, n) || n in f.ledger.confirmed)
      && f.ledger.pipe.nonces.next - f.ledger.base
         == |TicketHolders(f)| + |Awaiters(f)| + |f.ledger.confirmed|
  {
    EveryRunIsValid(s, run);
    NothingSilentIn(Final(s, run));
  }

  lemma {:induction false} NothingSilentIn(f: System)
    requires Valid(f) && !f.ledger.pipe.desynced
    ensures forall n :: f.ledger.base <= n < f.ledger.pipe.nonces.next ==> SomeUses(f, n) || n in f.ledger.confirmed
    ensures f.ledger.pipe.nonces.next - f.ledger.base == |TicketHolders(f)| + |Awaiters(f)| + |f.ledger.confirmed|
  {
    forall n | f.ledger.base <= n < f.ledger.pipe.nonces.next
      ensures SomeUses(f, n) || n in f.ledger.confirmed
    {
      CoveredNoncesAreUsed(f, n);
    }
    HoldersAreCounted(f);
    L.NothingIsLost(f.ledger);
  }

  /** The number in flight is bounded by the limit and by how many sends were ever
      between `prepare` and `record_submission` together. */
  lemma {:induction false} InFlightIsBounded(s: System, run: seq<Event>)
    requires Valid(s) && Runs(s, run)
    ensures var f := Final(s, run);
      && (f.ledger.peak <= 1 ==> |Awaiters(f)| <= f.ledger.pipe.maxInFlight)
      && (f.ledger.peak > 0 ==>
            |Awaiters(f)| + |TicketHolders(f)| <= f.ledger.pipe.maxInFlight - 1 + f.ledger.peak)
  {
    EveryRunIsValid(s, run);
    HoldersAreCounted(Final(s, run));
  }

  // ── Error honesty ──────────────────────────────────────────────────────

  /** An error carries a hash exactly when its send reached the broadcast, and it is
      the hash of what that send broadcast. A send that succeeded reached it too. */
  lemma {:induction false} ErrorsAreHonest(s: System, run: seq<Event>, i: nat)
    requires Valid(s) && Runs(s, run)
    requires i < |Final(s, run).senders| && Final(s, run).senders[i].Done?
    ensures var f := Final(s, run);
      match f.senders[i].outcome
      case Ok(_) => i in f.attempted
      case Err(e) => (e.Hash().Some? <==> i in f.attempted) && (i in f.attempted ==> e.Hash() == Some(f.attempted[i]))
  {
    EveryRunIsValid(s, run);
    assert Honest(Final(s, run).senders[i], AttemptOf(Final(s, run).attempted, i));
  }

  predicate ReturnedUnconfirmed(s: System, i: nat) {
    i < |s.senders| && s.senders[i].Done? && s.senders[i].outcome.Err? && s.senders[i].outcome.error.IsUnconfirmed()
  }

  lemma {:induction false} Split(s: System, run: seq<Event>, k: nat)
    requires Runs(s, run) && k <= |run|
    ensures Runs(s, run[..k]) && Runs(Final(s, run[..k]), run[k..])
    ensures Final(Final(s, run[..k]), run[k..]) == Final(s, run)
  {
    assert run == run[..k] + run[k..];
    RunsSplit(s, run[..k], run[k..]);
  }

  lemma {:induction false} ReturningUnconfirmedRaisesTheFlag(s: System, e: Event, i: nat)
    requires Enabled(s, e) && !ReturnedUnconfirmed(s, i) && ReturnedUnconfirmed(Apply(s, e), i)
    ensures Apply(s, e).ledger.pipe.desynced
  {
    assert e.By? && e.i == i;
    match e.act
    case GiveUp =>
    case ReceiptErr =>
    case _ => assert false;
  }

  /** No send returns "broadcast, outcome unknown" without having raised the flag: at
      the step it returned, and not before, the pipeline became desynced. */
  lemma {:induction false} UnconfirmedRaisesTheFlag(s: System, run: seq<Event>, i: nat)
    requires Runs(s, run)
    requires !ReturnedUnconfirmed(s, i) && ReturnedUnconfirmed(Final(s, run), i)
    ensures exists k :: 0 <= k < |run| && RaisedAt(s, run, i, k)
    decreases |run|
  {
    var next := Apply(s, run[0]);
    Split(s, run, 0);
    Split(s, run, 1);
    assert run[..0] == [] && run[..1][1..] == [];
    if ReturnedUnconfirmed(next, i) {
      ReturningUnconfirmedRaisesTheFlag(s, run[0], i);
      assert RaisedAt(s, run, i, 0);
    } else {
      UnconfirmedRaisesTheFlag(next, run[1..], i);
      var k :| 0 <= k < |run[1..]| && RaisedAt(next, run[1..], i, k);
      assert run[..k + 1][1..] == run[1..][..k] && run[..k + 2][1..] == run[1..][..k + 1];
      Split(s, run, k + 1);
      Split(s, run, k + 2);
      assert RaisedAt(s, run, i, k + 1);
    }
  }

  /** Step `k` of the run is the one that returned, and it left the flag up. */
  ghost predicate RaisedAt(s: System, run: seq<Event>, i: nat, k: nat)
    requires k < |run|
  {
    && Runs(s, run[..k]) && !ReturnedUnconfirmed(Final(s, run[..k]), i)
    && Runs(s, run[..k + 1]) && ReturnedUnconfirmed(Final(s, run[..k + 1]), i)
    && Final(s, run[..k + 1]).ledger.pipe.desynced
  }

  /** Only an adopted count puts the flag down, and only with nothing held. */
  lemma {:induction false} OnlyAdoptionClearsTheFlag(s: System, run: seq<Event>)
    requires Runs(s, run) && s.ledger.pipe.desynced && !Final(s, run).ledger.pipe.desynced
    ensures exists k :: 0 <= k < |run| && Runs(s, run[..k]) && run[k].By? && run[k].act.Adopt?
                        && Final(s, run[..k]).ledger.pipe.CanResync()
    decreases |run|
  {
    var next := Apply(s, run[0]);
    if next.ledger.pipe.desynced {
      OnlyAdoptionClearsTheFlag(next, run[1..]);
      var k :| 0 <= k < |run[1..]| && Runs(next, run[1..][..k]) && run[1..][k].By?
               && run[1..][k].act.Adopt? && Final(next, run[1..][..k]).ledger.pipe.CanResync();
      assert run[..k + 1][1..] == run[1..][..k] && run[k + 1] == run[1..][k];
      Split(s, run, k + 1);
    } else {
      Split(s, run, 0);
      assert run[..0] == [];
      assert run[0].By? && run[0].act.Adopt?;
    }
  }
}
