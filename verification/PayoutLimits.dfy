/** When reservations stay within what a commission is worth, and when they do not. */
module PayoutLimits {
  import opened Common
  import opened Payouts
  import opened PayoutPlans
  import opened PayoutLoops
  import opened PayoutProofs

  predicate WithinAmount(commissions: seq<Commission>) {
    forall c :: 0 <= c < |commissions| ==> commissions[c].reserved <= commissions[c].amount
  }

  /** No commission is over-reserved, nor was any when a handler that is still to write loaded it. */
  predicate NoneExceeded(t: Tables) {
    && WithinAmount(t.commissions)
    && forall k :: 0 <= k < |t.calls| && t.calls[k].Handling? ==> WithinAmount(t.calls[k].loaded.commissions)
  }

  // ---- What a request adds ----

  function ShareOf(plan: seq<Share>, c: nat): Money {
    if plan == [] then 0.0
    else
      var n := |plan| - 1;
      ShareOf(plan[..n], c) + (if plan[n].commission == c then plan[n].amount else 0.0)
  }

  lemma {:induction false} ShareOfUnplanned(plan: seq<Share>, c: nat)
    requires forall k :: 0 <= k < |plan| ==> plan[k].commission != c
    ensures ShareOf(plan, c) == 0.0
  {
    if plan != [] {
      ShareOfUnplanned(plan[..|plan| - 1], c);
    }
  }

  lemma {:induction false} ShareOfPlanned(plan: seq<Share>, k: nat)
    requires k < |plan|
    requires forall i, j :: 0 <= i < j < |plan| ==> plan[i].commission != plan[j].commission
    ensures ShareOf(plan, plan[k].commission) == plan[k].amount
  {
    var n := |plan| - 1;
    if k == n {
      ShareOfUnplanned(plan[..n], plan[n].commission);
    } else {
      ShareOfPlanned(plan[..n], k);
    }
  }

  lemma {:induction false} ReserveSharesAdds(t: Tables, payout: nat, plan: seq<Share>, c: nat)
    requires PlanFits(t.commissions, plan) && c < |t.commissions|
    ensures ReserveShares(t, t.commissions, payout, plan).commissions[c].reserved
         == t.commissions[c].reserved + ShareOf(plan, c)
  {
    if plan != [] {
      var n := |plan| - 1;
      ReserveSharesAdds(t, payout, plan[..n], c);
      if plan[n].commission == c {
        ShareOfUnplanned(plan[..n], c);
      }
    }
  }

  lemma RequestAdds(t: Tables, user: nat, amount: Money, c: nat)
    requires MayRequest(t, user, amount) && c < |t.commissions|
    ensures var plan := Plan(t.commissions, EligibleIds(t.commissions, user), amount);
            var r := Request(t, user, amount);
            && r.commissions[c].amount == t.commissions[c].amount
            && r.commissions[c].reserved == t.commissions[c].reserved + ShareOf(plan, c)
  {
    var plan := Plan(t.commissions, EligibleIds(t.commissions, user), amount);
    FifoFits(t, user, amount);
    ReserveSharesFrame(WithPayout(t, user, amount), |t.payouts|, plan);
    ReserveSharesAdds(WithPayout(t, user, amount), |t.payouts|, plan, c);
  }

  /** A request reserves on each commission exactly its share of the plan, and no more than is available. */
  lemma RequestReserves(t: Tables, user: nat, amount: Money, c: nat)
    requires MayRequest(t, user, amount) && c < |t.commissions|
    ensures var plan := Plan(t.commissions, EligibleIds(t.commissions, user), amount);
            var r := Request(t, user, amount);
            && r.commissions[c].amount == t.commissions[c].amount
            && r.commissions[c].reserved == t.commissions[c].reserved + ShareOf(plan, c)
            && (if Planned(plan, c)
                then && 0.0 < ShareOf(plan, c) <= Available(t.commissions[c])
                     && Eligible(t.commissions[c], user)
                else ShareOf(plan, c) == 0.0)
  {
    var plan := Plan(t.commissions, EligibleIds(t.commissions, user), amount);
    FifoFits(t, user, amount);
    RequestPlan(t, user, amount);
    RequestAdds(t, user, amount, c);
    if Planned(plan, c) {
      var k :| 0 <= k < |plan| && plan[k].commission == c;
      ShareOfPlanned(plan, k);
    } else {
      ShareOfUnplanned(plan, c);
    }
  }

  lemma RequestKeepsWithinAmount(t: Tables, user: nat, amount: Money)
    requires WithinAmount(t.commissions) && MayRequest(t, user, amount)
    ensures WithinAmount(Request(t, user, amount).commissions)
  {
    forall c | 0 <= c < |t.commissions|
      ensures Request(t, user, amount).commissions[c].reserved <= t.commissions[c].amount
      ensures Request(t, user, amount).commissions[c].amount == t.commissions[c].amount
    {
      RequestReserves(t, user, amount, c);
    }
  }

  // ---- What the loops over allocations add ----

  /** Each allocation the loop is about to move was free when its commission was loaded. */
  predicate AllFit(loaded: Loaded, payout: nat, move: Move)
    requires forall k :: 0 <= k < |loaded.allocations| ==> loaded.allocations[k].commission < |loaded.commissions|
  {
    forall k :: 0 <= k < |loaded.allocations| && Selected(loaded.allocations[k], payout, move) ==>
      loaded.allocations[k].amount <= Available(loaded.commissions[loaded.allocations[k].commission])
  }

  lemma TouchedOrSame(t: Tables, loaded: Loaded, payout: nat, move: Move, c: nat)
    requires OnePerPairLoaded(t, loaded) && c < |t.commissions|
    ensures var r := MoveAll(t, loaded, payout, move);
            && r.commissions[c].amount == t.commissions[c].amount
            && (r.commissions[c] == t.commissions[c]
                || exists k :: 0 <= k < |loaded.allocations| && Selected(loaded.allocations[k], payout, move)
                               && loaded.allocations[k].commission == c
                               && r.commissions[c].reserved
                                  == loaded.commissions[c].reserved + move.Change(loaded.allocations[k].amount))
  {
    MovedCommission(t, loaded, payout, move, |loaded.allocations|, c);
    if Touched(loaded, payout, move, |loaded.allocations|, c) {
      var k :| 0 <= k < |loaded.allocations| && Selected(loaded.allocations[k], payout, move)
               && loaded.allocations[k].commission == c;
      MoveFirstWrites(t, loaded, payout, move, |loaded.allocations|, k);
    }
  }

  /**
   Taking money back into reservation does not ask whether it is still free.  The retry of a
   failed transfer and a reversal keep every reservation within its commission exactly when
   each allocation they bring back fitted what was available on its commission when it was loaded.
   */
  lemma BringingBackFitsExactlyWhenFree(t: Tables, loaded: Loaded, payout: nat, move: Move)
    requires OnePerPairLoaded(t, loaded) && WithinAmount(t.commissions)
    requires move == ReReserve || move == Restore
    ensures WithinAmount(MoveAll(t, loaded, payout, move).commissions) <==> AllFit(loaded, payout, move)
  {
    var r := MoveAll(t, loaded, payout, move);
    forall k | 0 <= k < |loaded.allocations| && Selected(loaded.allocations[k], payout, move)
      ensures var c := loaded.allocations[k].commission;
              r.commissions[c].reserved == loaded.commissions[c].reserved + loaded.allocations[k].amount
      ensures var c := loaded.allocations[k].commission;
              r.commissions[c].amount == loaded.commissions[c].amount
    {
      MoveFirstWrites(t, loaded, payout, move, |loaded.allocations|, k);
      MovedCommission(t, loaded, payout, move, |loaded.allocations|, loaded.allocations[k].commission);
    }
    forall c | 0 <= c < |t.commissions| && AllFit(loaded, payout, move)
      ensures r.commissions[c].reserved <= r.commissions[c].amount
    {
      TouchedOrSame(t, loaded, payout, move, c);
    }
  }

  /** Confirming or failing a transfer only takes reservations away. */
  lemma TakingAwayFits(t: Tables, loaded: Loaded, payout: nat, move: Move)
    requires OnePerPairLoaded(t, loaded) && WithinAmount(t.commissions) && WithinAmount(loaded.commissions)
    requires PositiveAllocations(t.allocations)
    requires move == Settle || move == Release
    ensures WithinAmount(MoveAll(t, loaded, payout, move).commissions)
  {
    var r := MoveAll(t, loaded, payout, move);
    forall c | 0 <= c < |r.commissions| ensures r.commissions[c].reserved <= r.commissions[c].amount {
      TouchedOrSame(t, loaded, payout, move, c);
    }
  }

  /** What a write brings back into reservation was free, and what is accrued is not negative. */
  predicate BringsBackWhatIsFree(t: Tables, event: Event)
    requires Ready(t)
  {
    match event
    case Accrued(_, accrued) => accrued >= 0.0
    case Written(k, _) => k < |t.calls| ==> CallBringsBackWhatIsFree(t, t.calls[k])
    case _ => true
  }

  predicate CallBringsBackWhatIsFree(t: Tables, call: Call)
    requires ValidAllocations(t) && CallFits(t, call)
  {
    match call
    case Preparing(p, status) => status.TransferFailed? ==> AllFit(Now(t), p, ReReserve)
    case Handling(p, notice, loaded) => notice.Reversed? ==> AllFit(loaded, p, Restore)
    case _ => true
  }

  lemma WriteFitsExactlyWhenFree(t: Tables, call: Call, code: nat)
    requires RowsSound(t) && CallFits(t, call) && WithinAmount(t.commissions)
    requires call.Handling? ==> WithinAmount(call.loaded.commissions)
    ensures WithinAmount(WriteCall(t, call, code).commissions) <==> CallBringsBackWhatIsFree(t, call)
  {
    if call.Requesting? {
      if MayRequest(t, call.user, call.amount) {
        RequestKeepsWithinAmount(t, call.user, call.amount);
      }
    } else if call.Preparing? {
      BringingBackFitsExactlyWhenFree(t, Now(t), call.payout, ReReserve);
    } else if call.Handling? {
      if call.notice.Reversed? {
        BringingBackFitsExactlyWhenFree(t, call.loaded, call.payout, Restore);
      } else {
        TakingAwayFits(t, call.loaded, call.payout, NoticeMove(call.notice));
      }
    }
  }

  lemma CallsStayWithin(t: Tables, event: Event)
    requires Structured(t) && NoneExceeded(t)
    ensures forall k :: 0 <= k < |Step(t, event).calls| && Step(t, event).calls[k].Handling? ==>
              WithinAmount(Step(t, event).calls[k].loaded.commissions)
  {
    if event.Written? {
      if event.call < |t.calls| {
        AdvancedKeepsStructured(t, event.call);
        WriteKeepsRows(Advanced(t, event.call), t.calls[event.call], event.code);
      }
    }
  }

  /** Of all events exactly those that bring back money no longer free, or accrue less than nothing, exceed a limit. */
  lemma StepFitsExactlyWhenFree(t: Tables, event: Event)
    requires Structured(t) && NoneExceeded(t)
    ensures NoneExceeded(Step(t, event)) <==> BringsBackWhatIsFree(t, event)
  {
    var r := Step(t, event);
    CallsStayWithin(t, event);
    if event.Accrued? {
      assert r.commissions[|t.commissions|].amount == event.accrued;
    } else if event.Written? && event.call < |t.calls| {
      var before := Advanced(t, event.call);
      AdvancedKeepsStructured(t, event.call);
      assert Now(before) == Now(t);
      WriteFitsExactlyWhenFree(before, t.calls[event.call], event.code);
    }
  }

  predicate AllBringBackWhatIsFree(t: Tables, events: seq<Event>)
    requires Structured(t)
  {
    events == [] ||
    (AllBringBackWhatIsFree(t, events[..|events| - 1])
     && BringsBackWhatIsFree(Run(t, events[..|events| - 1]), events[|events| - 1]))
  }

  /** In every run whose retries and reversals find the money still free, no commission is ever over-reserved. */
  lemma {:induction false} RunsKeepReservedWithinAmount(users: seq<User>, events: seq<Event>)
    requires AllBringBackWhatIsFree(Start(users), events)
    ensures NoneExceeded(Run(Start(users), events))
  {
    if events != [] {
      var n := |events| - 1;
      RunsKeepReservedWithinAmount(users, events[..n]);
      StepFitsExactlyWhenFree(Run(Start(users), events[..n]), events[n]);
    }
  }

  // ---- Money already paid out ----

  /** What is reserved and what has been paid come to no more than the commission. */
  predicate Covered(t: Tables, c: nat)
    requires c < |t.commissions|
  {
    Held(t.allocations, c, Reserved) + Held(t.allocations, c, Paid) <= t.commissions[c].amount
  }

  predicate AllCovered(t: Tables) {
    forall c :: 0 <= c < |t.commissions| ==> Covered(t, c)
  }

  lemma {:induction false} ReservationsAddNothingPaid(
      allocations: seq<Allocation>, payout: nat, plan: seq<Share>, c: nat)
    ensures Held(allocations + Reservations(payout, plan), c, Paid) == Held(allocations, c, Paid)
  {
    if plan == [] {
      assert allocations + Reservations(payout, plan) == allocations;
    } else {
      ReservationsLast(payout, plan);
      ReservationsAddNothingPaid(allocations, payout, plan[..|plan| - 1], c);
      var all := allocations + Reservations(payout, plan);
      assert all[..|all| - 1] == allocations + Reservations(payout, plan[..|plan| - 1]);
    }
  }

  lemma RequestPaidUnchanged(t: Tables, user: nat, amount: Money, c: nat)
    requires MayRequest(t, user, amount)
    ensures Held(Request(t, user, amount).allocations, c, Paid) == Held(t.allocations, c, Paid)
  {
    var plan := Plan(t.commissions, EligibleIds(t.commissions, user), amount);
    FifoFits(t, user, amount);
    ReserveSharesFrame(WithPayout(t, user, amount), |t.payouts|, plan);
    ReservationsAddNothingPaid(t.allocations, |t.payouts|, plan, c);
  }

  /** The plan that takes everything there is. */
  function Everything(commissions: seq<Commission>, ids: seq<nat>): (plan: seq<Share>)
    requires ValidIds(commissions, ids)
    ensures |plan| == |ids|
  {
    seq(|ids|, k requires 0 <= k < |ids| => Share(ids[k], Available(commissions[ids[k]])))
  }

  lemma {:induction false} EverythingTotals(commissions: seq<Commission>, ids: seq<nat>)
    requires ValidIds(commissions, ids)
    ensures PlanTotal(Everything(commissions, ids)) == TotalAvailable(commissions, ids)
  {
    if ids != [] {
      EverythingTotals(commissions, ids[1..]);
      TotalAvailableFirst(commissions, ids);
      assert Everything(commissions, ids)[1..] == Everything(commissions, ids[1..]);
    }
  }

  lemma PlanOfEverything(commissions: seq<Commission>, ids: seq<nat>)
    requires AllAvailable(commissions, ids)
    ensures Plan(commissions, ids, TotalAvailable(commissions, ids)) == Everything(commissions, ids)
  {
    EverythingTotals(commissions, ids);
    FifoIsUnique(commissions, ids, TotalAvailable(commissions, ids), Everything(commissions, ids));
  }

  lemma ShareOfEverything(commissions: seq<Commission>, ids: seq<nat>, k: nat)
    requires AllAvailable(commissions, ids) && k < |ids|
    requires forall i, j :: 0 <= i < j < |ids| ==> ids[i] != ids[j]
    ensures ShareOf(Plan(commissions, ids, TotalAvailable(commissions, ids)), ids[k]) == Available(commissions[ids[k]])
  {
    PlanOfEverything(commissions, ids);
    ShareOfPlanned(Everything(commissions, ids), k);
  }

  lemma RequestOfEverything(t: Tables, user: nat, amount: Money, c: nat)
    requires MayRequest(t, user, amount)
    requires amount == TotalAvailable(t.commissions, EligibleIds(t.commissions, user))
    requires c < |t.commissions| && Eligible(t.commissions[c], user)
    ensures Request(t, user, amount).commissions[c].reserved == t.commissions[c].amount
  {
    var ids := EligibleIds(t.commissions, user);
    var k :| 0 <= k < |ids| && ids[k] == c;
    ShareOfEverything(t.commissions, ids, k);
    RequestAdds(t, user, amount, c);
  }

  /**
   Availability is `amount - reserved`: it does not count what was already paid, and payment
   takes the reservation away.  So a request can promise the same money twice.  Every request
   a user may make keeps every commission covered if and only if none of the commissions the
   query offers has been paid on.
   */
  lemma RequestsKeepCoverExactlyWhenNothingPaid(t: Tables, user: nat)
    requires Consistent(t) && AllCovered(t)
    requires MayRequest(t, user, TotalAvailable(t.commissions, EligibleIds(t.commissions, user)))
    ensures (forall amount: Money :: MayRequest(t, user, amount) ==> AllCovered(Request(t, user, amount)))
       <==> (forall c :: 0 <= c < |t.commissions| && Eligible(t.commissions[c], user) ==>
               Held(t.allocations, c, Paid) == 0.0)
  {
    if forall c :: 0 <= c < |t.commissions| && Eligible(t.commissions[c], user) ==>
         Held(t.allocations, c, Paid) == 0.0 {
      forall amount: Money | MayRequest(t, user, amount)
        ensures AllCovered(Request(t, user, amount))
      {
        UnpaidRequestKeepsCover(t, user, amount);
      }
    } else {
      var c :| 0 <= c < |t.commissions| && Eligible(t.commissions[c], user) && Held(t.allocations, c, Paid) != 0.0;
      PaidRequestBreaksCover(t, user, c);
    }
  }

  /** Asking for everything available reserves a commission in full, on top of what it has paid. */
  lemma PaidRequestBreaksCover(t: Tables, user: nat, c: nat)
    requires Consistent(t) && c < |t.commissions|
    requires MayRequest(t, user, TotalAvailable(t.commissions, EligibleIds(t.commissions, user)))
    requires Eligible(t.commissions[c], user) && Held(t.allocations, c, Paid) != 0.0
    ensures !AllCovered(Request(t, user, TotalAvailable(t.commissions, EligibleIds(t.commissions, user))))
  {
    var all := TotalAvailable(t.commissions, EligibleIds(t.commissions, user));
    var r := Request(t, user, all);
    RequestKeepsRows(t, user, all);
    RequestKeepsReservations(t, user, all);
    HeldNotNegative(t.allocations, c, Paid);
    RequestPaidUnchanged(t, user, all, c);
    RequestOfEverything(t, user, all, c);
    RequestReserves(t, user, all, c);
    assert !Covered(r, c);
  }

  lemma UnpaidRequestKeepsCover(t: Tables, user: nat, amount: Money)
    requires Consistent(t) && AllCovered(t)
    requires MayRequest(t, user, amount)
    requires forall c :: 0 <= c < |t.commissions| && Eligible(t.commissions[c], user) ==>
               Held(t.allocations, c, Paid) == 0.0
    ensures AllCovered(Request(t, user, amount))
  {
    var r := Request(t, user, amount);
    RequestKeepsRows(t, user, amount);
    RequestKeepsReservations(t, user, amount);
    forall c | 0 <= c < |r.commissions| ensures Covered(r, c) {
      RequestPaidUnchanged(t, user, amount, c);
      RequestReserves(t, user, amount, c);
      assert Covered(t, c);
    }
  }
}
