/** The loops over the allocations of a payout, on amounts that may have been loaded long before. */
module PayoutLoops {
  import opened Common
  import opened Payouts
  import opened PayoutPlans

  // ---- The loops over the allocations of a payout ----

  /** The commission has a selected allocation among the first `n` that were loaded. */
  predicate Touched(loaded: Loaded, payout: nat, move: Move, n: nat, c: nat)
    requires n <= |loaded.allocations|
  {
    exists k :: 0 <= k < n && Selected(loaded.allocations[k], payout, move) && loaded.allocations[k].commission == c
  }

  /** Which allocations the loop has moved. */
  lemma {:induction false} MovedAllocations(t: Tables, loaded: Loaded, payout: nat, move: Move, n: nat)
    requires LoadedFits(t, loaded) && n <= |loaded.allocations|
    ensures var r := MoveFirst(t, loaded, payout, move, n);
            forall k :: 0 <= k < n ==>
              r.allocations[k].status
              == if Selected(loaded.allocations[k], payout, move) then move.To() else t.allocations[k].status
  {
    if n > 0 {
      MovedAllocations(t, loaded, payout, move, n - 1);
    }
  }

  lemma TouchedMore(loaded: Loaded, payout: nat, move: Move, n: nat, c: nat)
    requires n < |loaded.allocations|
    ensures Touched(loaded, payout, move, n + 1, c)
       <==> Touched(loaded, payout, move, n, c)
            || (Selected(loaded.allocations[n], payout, move) && loaded.allocations[n].commission == c)
  {
    if Touched(loaded, payout, move, n, c) {
      var k :| 0 <= k < n && Selected(loaded.allocations[k], payout, move) && loaded.allocations[k].commission == c;
    }
  }

  /** Which commissions the loop has not touched, and what it leaves of the others. */
  lemma {:induction false} MovedCommission(t: Tables, loaded: Loaded, payout: nat, move: Move, n: nat, c: nat)
    requires LoadedFits(t, loaded) && n <= |loaded.allocations| && c < |t.commissions|
    ensures var after := MoveFirst(t, loaded, payout, move, n).commissions[c];
            && after.owner == t.commissions[c].owner
            && after.amount == t.commissions[c].amount
            && (Touched(loaded, payout, move, n, c) || after == t.commissions[c])
  {
    if n > 0 {
      MovedCommission(t, loaded, payout, move, n - 1, c);
      TouchedMore(loaded, payout, move, n - 1, c);
    }
  }

  predicate OnePerPairLoaded(t: Tables, loaded: Loaded) {
    LoadedFits(t, loaded) && OneAllocationPerPair(t.allocations)
  }

  /** No payout has two allocations on one commission: the loop comes to each commission once. */
  lemma OtherRound(t: Tables, loaded: Loaded, payout: nat, move: Move, n: nat, k: nat)
    requires OnePerPairLoaded(t, loaded) && k < n < |loaded.allocations|
    requires Selected(loaded.allocations[k], payout, move) && Selected(loaded.allocations[n], payout, move)
    ensures loaded.allocations[k].commission != loaded.allocations[n].commission
  {
    assert t.allocations[k].payout == t.allocations[n].payout;
  }

  lemma NotTouchedBefore(t: Tables, loaded: Loaded, payout: nat, move: Move, n: nat)
    requires OnePerPairLoaded(t, loaded) && n < |loaded.allocations|
    requires Selected(loaded.allocations[n], payout, move)
    ensures !Touched(loaded, payout, move, n, loaded.allocations[n].commission)
  {
    forall k | 0 <= k < n && Selected(loaded.allocations[k], payout, move)
      ensures loaded.allocations[k].commission != loaded.allocations[n].commission
    {
      OtherRound(t, loaded, payout, move, n, k);
    }
  }

  /** What is written on a touched commission: the loaded amount and the allocation's share, whatever was there. */
  lemma {:induction false} MoveFirstWrites(t: Tables, loaded: Loaded, payout: nat, move: Move, n: nat, k: nat)
    requires OnePerPairLoaded(t, loaded) && k < n <= |loaded.allocations|
    requires Selected(loaded.allocations[k], payout, move)
    ensures MoveFirst(t, loaded, payout, move, n).commissions[loaded.allocations[k].commission].reserved
         == loaded.commissions[loaded.allocations[k].commission].reserved + move.Change(loaded.allocations[k].amount)
  {
    if k < n - 1 {
      MoveFirstWrites(t, loaded, payout, move, n - 1, k);
      if Selected(loaded.allocations[n - 1], payout, move) {
        OtherRound(t, loaded, payout, move, n - 1, k);
      }
    }
  }

  /** What a round adds to the sum of RESERVED allocations of a commission. */
  function Gain(t: Tables, loaded: Loaded, payout: nat, move: Move, k: nat, c: nat): Money
    requires LoadedFits(t, loaded) && k < |loaded.allocations|
  {
    if Selected(loaded.allocations[k], payout, move) && loaded.allocations[k].commission == c
    then (if move.To() == Reserved then t.allocations[k].amount else 0.0) - HeldPart(t.allocations[k], c, Reserved)
    else 0.0
  }

  /** The allocation table after the loop. */
  function Marked(allocations: seq<Allocation>, loaded: seq<Allocation>, payout: nat, move: Move, n: nat)
      : (r: seq<Allocation>)
    requires n <= |loaded| <= |allocations|
    ensures |r| == |allocations| && forall k :: n <= k < |allocations| ==> r[k] == allocations[k]
  {
    if n == 0 then allocations
    else
      var before := Marked(allocations, loaded, payout, move, n - 1);
      if Selected(loaded[n - 1], payout, move) then before[n - 1 := before[n - 1].(status := move.To())] else before
  }

  lemma {:induction false} MoveMarks(t: Tables, loaded: Loaded, payout: nat, move: Move, n: nat)
    requires LoadedFits(t, loaded) && n <= |loaded.allocations|
    ensures MoveFirst(t, loaded, payout, move, n).allocations
         == Marked(t.allocations, loaded.allocations, payout, move, n)
  {
    if n > 0 {
      MoveMarks(t, loaded, payout, move, n - 1);
    }
  }

  function Gains(t: Tables, loaded: Loaded, payout: nat, move: Move, n: nat, c: nat): Money
    requires LoadedFits(t, loaded) && n <= |loaded.allocations|
  {
    if n == 0 then 0.0 else Gains(t, loaded, payout, move, n - 1, c) + Gain(t, loaded, payout, move, n - 1, c)
  }

  lemma {:induction false} HeldOfMarked(t: Tables, loaded: Loaded, payout: nat, move: Move, n: nat, c: nat)
    requires LoadedFits(t, loaded) && n <= |loaded.allocations|
    ensures Held(Marked(t.allocations, loaded.allocations, payout, move, n), c, Reserved)
         == Held(t.allocations, c, Reserved) + Gains(t, loaded, payout, move, n, c)
  {
    if n > 0 {
      HeldOfMarked(t, loaded, payout, move, n - 1, c);
      var before := Marked(t.allocations, loaded.allocations, payout, move, n - 1);
      HeldUpdate(before, n - 1, before[n - 1].(status := move.To()), c, Reserved);
      assert loaded.allocations[n - 1].commission == t.allocations[n - 1].commission;
    }
  }

  lemma HeldAfterMove(t: Tables, loaded: Loaded, payout: nat, move: Move, n: nat, c: nat)
    requires LoadedFits(t, loaded) && n <= |loaded.allocations|
    ensures Held(MoveFirst(t, loaded, payout, move, n).allocations, c, Reserved)
         == Held(t.allocations, c, Reserved) + Gains(t, loaded, payout, move, n, c)
  {
    MoveMarks(t, loaded, payout, move, n);
    HeldOfMarked(t, loaded, payout, move, n, c);
  }

  lemma {:induction false} NoGains(t: Tables, loaded: Loaded, payout: nat, move: Move, n: nat, c: nat)
    requires LoadedFits(t, loaded) && n <= |loaded.allocations| && !Touched(loaded, payout, move, n, c)
    ensures Gains(t, loaded, payout, move, n, c) == 0.0
  {
    if n > 0 {
      TouchedMore(loaded, payout, move, n - 1, c);
      NoGains(t, loaded, payout, move, n - 1, c);
    }
  }

  lemma {:induction false} OneGain(t: Tables, loaded: Loaded, payout: nat, move: Move, n: nat, k: nat)
    requires OnePerPairLoaded(t, loaded) && k < n <= |loaded.allocations|
    requires Selected(loaded.allocations[k], payout, move)
    ensures var c := loaded.allocations[k].commission;
            Gains(t, loaded, payout, move, n, c) == Gain(t, loaded, payout, move, k, c)
  {
    var c := loaded.allocations[k].commission;
    if k == n - 1 {
      NotTouchedBefore(t, loaded, payout, move, k);
      NoGains(t, loaded, payout, move, k, c);
    } else {
      OneGain(t, loaded, payout, move, n - 1, k);
      if Selected(loaded.allocations[n - 1], payout, move) {
        OtherRound(t, loaded, payout, move, n - 1, k);
      }
    }
  }

  /** Statuses are derived from the very amounts that are written, stale or not. */
  lemma MoveOneStatus(t: Tables, loaded: Loaded, k: nat, move: Move, c: nat)
    requires k < |t.allocations| && t.allocations[k].commission < |loaded.commissions| <= |t.commissions|
    requires loaded.commissions[t.allocations[k].commission].amount == t.commissions[t.allocations[k].commission].amount
    requires c < |t.commissions| && StatusAgrees(t, c)
    ensures StatusAgrees(MoveOne(t, loaded, k, move), c)
  {
    HeldUpdate(t.allocations, k, t.allocations[k].(status := move.To()), c, Paid);
  }

  lemma {:induction false} MoveFirstStatus(t: Tables, loaded: Loaded, payout: nat, move: Move, n: nat, c: nat)
    requires LoadedFits(t, loaded) && n <= |loaded.allocations|
    requires c < |t.commissions| && StatusAgrees(t, c)
    ensures StatusAgrees(MoveFirst(t, loaded, payout, move, n), c)
  {
    if n > 0 {
      MoveFirstStatus(t, loaded, payout, move, n - 1, c);
      if Selected(loaded.allocations[n - 1], payout, move) {
        MovedCommission(t, loaded, payout, move, n - 1, loaded.allocations[n - 1].commission);
        MoveOneStatus(MoveFirst(t, loaded, payout, move, n - 1), loaded, n - 1, move, c);
      }
    }
  }

  /** What a commission has reserved besides this allocation. */
  function Rest(loaded: Loaded, k: nat): Money
    requires k < |loaded.allocations| && loaded.allocations[k].commission < |loaded.commissions|
  {
    loaded.commissions[loaded.allocations[k].commission].reserved
    - (if loaded.allocations[k].status.Reserved? then loaded.allocations[k].amount else 0.0)
  }

  predicate CurrentAt(t: Tables, loaded: Loaded, k: nat)
    requires LoadedFits(t, loaded) && k < |loaded.allocations|
  {
    Rest(loaded, k) == Rest(Now(t), k)
  }

  /** Nothing else has been reserved or let go on the commissions concerned since they were loaded. */
  predicate Current(t: Tables, loaded: Loaded, payout: nat, move: Move)
    requires LoadedFits(t, loaded)
  {
    forall k :: 0 <= k < |loaded.allocations| && Selected(loaded.allocations[k], payout, move) ==>
      CurrentAt(t, loaded, k)
  }

  lemma ReservedAfterMove(t: Tables, loaded: Loaded, payout: nat, move: Move, k: nat)
    requires OnePerPairLoaded(t, loaded) && ReservationsAgree(t)
    requires k < |loaded.allocations| && Selected(loaded.allocations[k], payout, move)
    ensures var r := MoveAll(t, loaded, payout, move);
            var c := loaded.allocations[k].commission;
            r.commissions[c].reserved == Held(r.allocations, c, Reserved) <==> CurrentAt(t, loaded, k)
  {
    MoveFirstWrites(t, loaded, payout, move, |loaded.allocations|, k);
    HeldAfterMove(t, loaded, payout, move, |loaded.allocations|, loaded.allocations[k].commission);
    OneGain(t, loaded, payout, move, |loaded.allocations|, k);
  }

  lemma ReservedUntouched(t: Tables, loaded: Loaded, payout: nat, move: Move, c: nat)
    requires LoadedFits(t, loaded) && ReservationsAgree(t) && c < |t.commissions|
    requires !Touched(loaded, payout, move, |loaded.allocations|, c)
    ensures var r := MoveAll(t, loaded, payout, move);
            r.commissions[c].reserved == Held(r.allocations, c, Reserved)
  {
    MovedCommission(t, loaded, payout, move, |loaded.allocations|, c);
    HeldAfterMove(t, loaded, payout, move, |loaded.allocations|, c);
    NoGains(t, loaded, payout, move, |loaded.allocations|, c);
  }

  /**
   The loop writes amounts computed from what was loaded.  Reserved amounts still agree with the
   reservations afterwards if and only if, on every commission it writes, what is reserved besides this
   payout is what it was when it was loaded.
   */
  lemma MoveAgreesExactlyWhenCurrent(t: Tables, loaded: Loaded, payout: nat, move: Move)
    requires OnePerPairLoaded(t, loaded) && ReservationsAgree(t)
    ensures ReservationsAgree(MoveAll(t, loaded, payout, move)) <==> Current(t, loaded, payout, move)
  {
    var r := MoveAll(t, loaded, payout, move);
    forall k | 0 <= k < |loaded.allocations| && Selected(loaded.allocations[k], payout, move)
      ensures var c := loaded.allocations[k].commission;
              r.commissions[c].reserved == Held(r.allocations, c, Reserved) <==> CurrentAt(t, loaded, k)
    {
      ReservedAfterMove(t, loaded, payout, move, k);
    }
    if Current(t, loaded, payout, move) {
      forall c | 0 <= c < |r.commissions|
        ensures r.commissions[c].reserved == Held(r.allocations, c, Reserved) && StatusAgrees(r, c)
      {
        MoveFirstStatus(t, loaded, payout, move, |loaded.allocations|, c);
        if !Touched(loaded, payout, move, |loaded.allocations|, c) {
          ReservedUntouched(t, loaded, payout, move, c);
        }
      }
    }
  }

  /** A transaction that reads for itself is always current. */
  lemma MoveNowAgrees(t: Tables, payout: nat, move: Move)
    requires ValidAllocations(t) && OneAllocationPerPair(t.allocations) && ReservationsAgree(t)
    ensures ReservationsAgree(MoveAll(t, Now(t), payout, move))
  {
    MoveAgreesExactlyWhenCurrent(t, Now(t), payout, move);
  }
}
