/**
 Which amounts give a commission which status: what a request, a success, a failure, a reversal and a retry write,
 and what that makes of the next request.
 */
module PayoutStatuses {
  import opened Common
  import opened Payouts
  import opened PayoutPlans
  import opened PayoutLoops
  import opened PayoutProofs

  /** The status says how much of the commission is reserved, whatever was paid. */
  predicate ShowsReservation(row: Commission) {
    && (row.status.Active? <==> row.reserved == 0.0)
    && (row.status.PartiallyReserved? <==> row.reserved != 0.0 && row.reserved < row.amount)
    && (row.status.FullyReserved? <==> row.reserved != 0.0 && row.reserved >= row.amount)
    && !row.status.FullyPaid? && !row.status.Frozen?
  }

  /** The status says whether it is all paid, and if not how much of the rest is reserved. */
  predicate ShowsPayment(row: Commission, paid: Money) {
    && (row.status.FullyPaid? <==> paid >= row.amount)
    && (row.status.Active? <==> paid < row.amount && row.reserved == 0.0)
    && (row.status.PartiallyReserved? <==>
          paid < row.amount && row.reserved != 0.0 && row.reserved < row.amount - paid)
    && (row.status.FullyReserved? <==>
          paid < row.amount && row.reserved != 0.0 && row.reserved >= row.amount - paid)
    && !row.status.Frozen?
  }

  // ---- The loops ----

  predicate ShowsMove(t: Tables, c: nat, move: Move)
    requires c < |t.commissions|
  {
    if move.Settle? then ShowsPayment(t.commissions[c], Held(t.allocations, c, Paid))
    else ShowsReservation(t.commissions[c])
  }

  lemma RoundShows(t: Tables, loaded: Loaded, k: nat, move: Move)
    requires k < |t.allocations| && t.allocations[k].commission < |loaded.commissions| <= |t.commissions|
    requires loaded.commissions[t.allocations[k].commission].amount == t.commissions[t.allocations[k].commission].amount
    ensures ShowsMove(MoveOne(t, loaded, k, move), t.allocations[k].commission, move)
  {
  }

  lemma OtherRoundShows(t: Tables, loaded: Loaded, k: nat, move: Move, c: nat)
    requires k < |t.allocations| && t.allocations[k].commission < |loaded.commissions| <= |t.commissions|
    requires c < |t.commissions| && c != t.allocations[k].commission && ShowsMove(t, c, move)
    ensures ShowsMove(MoveOne(t, loaded, k, move), c, move)
  {
    HeldUpdate(t.allocations, k, t.allocations[k].(status := move.To()), c, Paid);
  }

  /** The loop comes to each commission once, and what it writes there stays. */
  lemma {:induction false} LoopShows(t: Tables, loaded: Loaded, payout: nat, move: Move, n: nat, k: nat)
    requires OnePerPairLoaded(t, loaded) && k < n <= |loaded.allocations|
    requires Selected(loaded.allocations[k], payout, move)
    ensures ShowsMove(MoveFirst(t, loaded, payout, move, n), loaded.allocations[k].commission, move)
  {
    var before := MoveFirst(t, loaded, payout, move, n - 1);
    if k < n - 1 {
      LoopShows(t, loaded, payout, move, n - 1, k);
      if Selected(loaded.allocations[n - 1], payout, move) {
        OtherRound(t, loaded, payout, move, n - 1, k);
        OtherRoundShows(before, loaded, n - 1, move, loaded.allocations[k].commission);
      }
    } else {
      MovedCommission(t, loaded, payout, move, k, loaded.allocations[k].commission);
      RoundShows(before, loaded, k, move);
    }
  }

  // ---- Success ----

  /**
   A success written on a current load: every commission it settles is FULLY_PAID if and only if its PAID allocations
   come to at least its amount; otherwise it is ACTIVE, PARTIALLY_RESERVED or FULLY_RESERVED as nothing, less than
   what is unpaid, or all of that is reserved.  What is fully paid is offered to no request of anyone.
   */
  lemma SuccessShowsWhatIsPaid(t: Tables, p: nat, loaded: Loaded, k: nat)
    requires Consistent(t) && CallFits(t, Handling(p, Succeeded, loaded)) && Current(t, loaded, p, Settle)
    requires k < |loaded.allocations| && loaded.allocations[k].payout == p && loaded.allocations[k].status == Reserved
    ensures var r := WriteNotice(t, p, Succeeded, loaded);
            var c := loaded.allocations[k].commission;
            var row := r.commissions[c];
            var paid, reserved := Held(r.allocations, c, Paid), Held(r.allocations, c, Reserved);
            && row.amount == t.commissions[c].amount && row.reserved == reserved
            && (row.status == FullyPaid <==> paid >= row.amount)
            && (row.status == Active <==> paid < row.amount && reserved == 0.0)
            && (row.status == PartiallyReserved <==> paid < row.amount && 0.0 < reserved < row.amount - paid)
            && (row.status == FullyReserved <==> paid < row.amount && 0.0 < reserved && row.amount - paid <= reserved)
            && (paid >= row.amount ==> forall user :: c !in EligibleIds(r.commissions, user))
  {
    var c := loaded.allocations[k].commission;
    var r := WriteNotice(t, p, Succeeded, loaded);
    LoopShows(t, loaded, p, Settle, |loaded.allocations|, k);
    MovedCommission(t, loaded, p, Settle, |loaded.allocations|, c);
    MoveAgreesExactlyWhenCurrent(t, loaded, p, Settle);
    MoveKeepsRows(t, loaded, p, Settle);
    assert r.commissions[c].reserved == Held(MoveAll(t, loaded, p, Settle).allocations, c, Reserved);
    HeldNotNegative(r.allocations, c, Reserved);
    forall user | c in EligibleIds(r.commissions, user) ensures r.commissions[c].status != FullyPaid {
      OfferedExactly(r.commissions, user, c);
    }
  }

  /** The locking query offers exactly the owner's commissions that are neither paid nor frozen and have money left. */
  lemma OfferedExactly(commissions: seq<Commission>, user: nat, c: nat)
    ensures c in EligibleIds(commissions, user) <==>
              && c < |commissions| && commissions[c].owner == user
              && (commissions[c].status == Active || commissions[c].status == PartiallyReserved
                  || commissions[c].status == FullyReserved)
              && commissions[c].reserved < commissions[c].amount
  {
    var ids := EligibleIds(commissions, user);
    if c in ids {
      var k :| 0 <= k < |ids| && ids[k] == c;
      assert Eligible(commissions[ids[k]], user);
    }
  }

  // ---- Failure, reversal, retry ----

  /**
   A failure or a reversal written on a current load, and the retry of a failed transfer, leave every commission they
   release or reserve again ACTIVE, PARTIALLY_RESERVED or FULLY_RESERVED as nothing, less than its amount, or at
   least its amount is reserved then: what was paid on it before plays no part.
   */
  lemma MoveShowsReservation(t: Tables, p: nat, move: Move, loaded: Loaded, k: nat)
    requires Consistent(t) && LoadedFits(t, loaded) && Current(t, loaded, p, move) && !move.Settle?
    requires k < |loaded.allocations| && Selected(loaded.allocations[k], p, move)
    ensures var r := MoveAll(t, loaded, p, move);
            var c := loaded.allocations[k].commission;
            var row := r.commissions[c];
            var reserved := Held(r.allocations, c, Reserved);
            && row.amount == t.commissions[c].amount && row.reserved == reserved
            && (row.status == Active <==> reserved == 0.0)
            && (row.status == PartiallyReserved <==> 0.0 < reserved < row.amount)
            && (row.status == FullyReserved <==> 0.0 < reserved && row.amount <= reserved)
            && row.status != FullyPaid && row.status != Frozen
  {
    var c := loaded.allocations[k].commission;
    var r := MoveAll(t, loaded, p, move);
    LoopShows(t, loaded, p, move, |loaded.allocations|, k);
    MovedCommission(t, loaded, p, move, |loaded.allocations|, c);
    MoveAgreesExactlyWhenCurrent(t, loaded, p, move);
    MoveKeepsRows(t, loaded, p, move);
    HeldNotNegative(r.allocations, c, Reserved);
  }

  /** Which loop a call runs, on which allocations of its payout, and which status these get. */
  lemma LoopsOfCalls(t: Tables, p: nat, loaded: Loaded)
    requires ValidAllocations(t) && p < |t.payouts| && LoadedFits(t, loaded)
    ensures var failed := WriteNotice(t, p, Failed, loaded);
            failed.commissions == MoveAll(t, loaded, p, Release).commissions
            && forall k :: 0 <= k < |loaded.allocations| ==>
                 failed.allocations[k].status
                 == if loaded.allocations[k].payout == p && loaded.allocations[k].status == Reserved then Released
                    else t.allocations[k].status
    ensures var reversed := WriteNotice(t, p, Reversed, loaded);
            reversed.commissions == MoveAll(t, loaded, p, Restore).commissions
            && forall k :: 0 <= k < |loaded.allocations| ==>
                 reversed.allocations[k].status
                 == if loaded.allocations[k].payout == p && loaded.allocations[k].status == Paid then Reserved
                    else t.allocations[k].status
    ensures var succeeded := WriteNotice(t, p, Succeeded, loaded);
            forall k :: 0 <= k < |loaded.allocations| ==>
              succeeded.allocations[k].status
              == if loaded.allocations[k].payout == p && loaded.allocations[k].status == Reserved then Paid
                 else t.allocations[k].status
    ensures var retried := Prepare(t, p, TransferFailed);
            retried.commissions == MoveAll(t, Now(t), p, ReReserve).commissions
            && forall k :: 0 <= k < |t.allocations| ==>
                 retried.allocations[k].status
                 == if t.allocations[k].payout == p && t.allocations[k].status == Released then Reserved
                    else t.allocations[k].status
  {
    MovedAllocations(t, loaded, p, Release, |loaded.allocations|);
    MovedAllocations(t, loaded, p, Restore, |loaded.allocations|);
    MovedAllocations(t, loaded, p, Settle, |loaded.allocations|);
    MovedAllocations(t, Now(t), p, ReReserve, |t.allocations|);
  }

  // ---- Requests ----

  lemma {:induction false} SharesShow(t: Tables, payout: nat, plan: seq<Share>, c: nat)
    requires forall k :: 0 <= k < |plan| ==> plan[k].commission < |t.commissions|
    requires Planned(plan, c)
    ensures c < |t.commissions| && ShowsReservation(ReserveShares(t, t.commissions, payout, plan).commissions[c])
  {
    var n := |plan| - 1;
    ReserveSharesFrame(t, payout, plan[..n]);
    if plan[n].commission != c {
      var k :| 0 <= k < |plan| && plan[k].commission == c;
      assert plan[..n][k].commission == c;
      SharesShow(t, payout, plan[..n], c);
    }
  }

  /** A request shows on the commissions it plans with how much of them is reserved now, and leaves the others alone. */
  lemma RequestShowsReservation(t: Tables, user: nat, amount: Money, c: nat)
    requires Consistent(t) && MayRequest(t, user, amount) && c < |t.commissions|
    ensures var r := Request(t, user, amount);
            var row := r.commissions[c];
            && row.amount == t.commissions[c].amount && row.reserved == Held(r.allocations, c, Reserved)
            && (row != t.commissions[c] ==>
                  && row.status != FullyPaid && row.status != Frozen
                  && (row.status == Active <==> row.reserved == 0.0)
                  && (row.status == PartiallyReserved <==> 0.0 < row.reserved < row.amount)
                  && (row.status == FullyReserved <==> 0.0 < row.reserved && row.amount <= row.reserved))
  {
    var plan := Plan(t.commissions, EligibleIds(t.commissions, user), amount);
    RequestKeepsReservations(t, user, amount);
    RequestKeepsRows(t, user, amount);
    HeldNotNegative(Request(t, user, amount).allocations, c, Reserved);
    ReserveSharesFrame(WithPayout(t, user, amount), |t.payouts|, plan);
    if Planned(plan, c) {
      SharesShow(WithPayout(t, user, amount), |t.payouts|, plan, c);
    }
  }

  // ---- Runs ----

  /**
   In every run whose webhooks write on current loads, a commission that says ACTIVE has nothing reserved, one that
   says PARTIALLY_RESERVED something but not all, one that says FULLY_RESERVED all that is not paid, and one that
   says FULLY_PAID has PAID allocations of at least its amount; none is FROZEN.
   */
  lemma CurrentRunsShowStatuses(users: seq<User>, events: seq<Event>, c: nat)
    requires AllCurrent(Start(users), events) && c < |Run(Start(users), events).commissions|
    ensures var t := Run(Start(users), events);
            var row := t.commissions[c];
            var paid, reserved := Held(t.allocations, c, Paid), Held(t.allocations, c, Reserved);
            && row.reserved == reserved
            && match row.status
               case Active => reserved == 0.0
               case PartiallyReserved => 0.0 < reserved < row.amount
               case FullyReserved => 0.0 < reserved && row.amount - paid <= reserved
               case FullyPaid => paid >= row.amount
               case Frozen => false
  {
    var t := Run(Start(users), events);
    CurrentRunsAreConsistent(users, events);
    HeldNotNegative(t.allocations, c, Reserved);
    HeldNotNegative(t.allocations, c, Paid);
    assert StatusAgrees(t, c);
  }
}
