/** The FIFO plan of a payout request, and what reserving it does to the rows. */
module PayoutPlans {
  import opened Common
  import opened Payouts

  /** The status column is one of the two derived statuses; they coincide until something is paid. */
  predicate StatusAgrees(t: Tables, c: nat)
    requires c < |t.commissions|
  {
    var row := t.commissions[c];
    || row.status == ReservationStatus(row.reserved, row.amount)
    || row.status == PostPaymentStatus(row.amount, row.reserved, Held(t.allocations, c, Paid))
  }

  predicate ReservationsAgree(t: Tables) {
    forall c :: 0 <= c < |t.commissions| ==>
      t.commissions[c].reserved == Held(t.allocations, c, Reserved) && StatusAgrees(t, c)
  }

  predicate OneAllocationPerPair(allocations: seq<Allocation>) {
    forall j, k :: 0 <= j < k < |allocations| ==>
      allocations[j].payout != allocations[k].payout || allocations[j].commission != allocations[k].commission
  }

  predicate PositiveAllocations(allocations: seq<Allocation>) {
    forall k :: 0 <= k < |allocations| ==> allocations[k].amount > 0.0
  }

  // ---- Sums over the allocation table ----

  function HeldPart(allocation: Allocation, commission: nat, status: AllocationStatus): Money {
    if allocation.commission == commission && allocation.status == status then allocation.amount else 0.0
  }

  lemma HeldAppend(allocations: seq<Allocation>, added: Allocation, c: nat, status: AllocationStatus)
    ensures Held(allocations + [added], c, status) == Held(allocations, c, status) + HeldPart(added, c, status)
  {
    assert (allocations + [added])[..|allocations|] == allocations;
  }

  lemma {:induction false} HeldUpdate(
      allocations: seq<Allocation>, k: nat, changed: Allocation, c: nat, status: AllocationStatus)
    requires k < |allocations|
    ensures Held(allocations[k := changed], c, status)
         == Held(allocations, c, status) - HeldPart(allocations[k], c, status) + HeldPart(changed, c, status)
  {
    var n := |allocations| - 1;
    if k < n {
      assert allocations[k := changed][..n] == allocations[..n][k := changed];
      HeldUpdate(allocations[..n], k, changed, c, status);
    } else {
      assert allocations[k := changed][..n] == allocations[..n];
    }
  }

  lemma {:induction false} HeldNotNegative(allocations: seq<Allocation>, c: nat, status: AllocationStatus)
    requires PositiveAllocations(allocations)
    ensures Held(allocations, c, status) >= 0.0
  {
    if allocations != [] {
      HeldNotNegative(allocations[..|allocations| - 1], c, status);
    }
  }

  lemma {:induction false} HeldOfNone(allocations: seq<Allocation>, c: nat, status: AllocationStatus)
    requires forall k :: 0 <= k < |allocations| ==> allocations[k].commission != c
    ensures Held(allocations, c, status) == 0.0
  {
    if allocations != [] {
      HeldOfNone(allocations[..|allocations| - 1], c, status);
    }
  }

  lemma {:induction false} AllocatedSame(before: seq<Allocation>, after: seq<Allocation>, p: nat)
    requires |before| == |after|
    requires forall k :: 0 <= k < |before| ==>
               before[k].payout == after[k].payout && before[k].amount == after[k].amount
    ensures Allocated(before, p) == Allocated(after, p)
  {
    if before != [] {
      AllocatedSame(before[..|before| - 1], after[..|after| - 1], p);
    }
  }

  lemma {:induction false} AllocatedOfNone(allocations: seq<Allocation>, p: nat)
    requires forall k :: 0 <= k < |allocations| ==> allocations[k].payout != p
    ensures Allocated(allocations, p) == 0.0
  {
    if allocations != [] {
      AllocatedOfNone(allocations[..|allocations| - 1], p);
    }
  }

  // ---- The FIFO plan ----

  function PlanTotal(plan: seq<Share>): Money {
    if plan == [] then 0.0 else plan[0].amount + PlanTotal(plan[1..])
  }

  /** First in, first out: the oldest commissions, all but the last of them exhausted, to the exact amount. */
  predicate IsFifo(commissions: seq<Commission>, ids: seq<nat>, amount: Money, plan: seq<Share>)
    requires ValidIds(commissions, ids)
  {
    && |plan| <= |ids|
    && PlanTotal(plan) == amount
    && forall k :: 0 <= k < |plan| ==>
         && plan[k].commission == ids[k]
         && 0.0 < plan[k].amount <= Available(commissions[ids[k]])
         && (k < |plan| - 1 ==> plan[k].amount == Available(commissions[ids[k]]))
  }

  predicate AllAvailable(commissions: seq<Commission>, ids: seq<nat>) {
    && ValidIds(commissions, ids)
    && forall k :: 0 <= k < |ids| ==> Available(commissions[ids[k]]) > 0.0
  }

  lemma {:induction false} TotalAvailableFirst(commissions: seq<Commission>, ids: seq<nat>)
    requires ValidIds(commissions, ids) && ids != []
    ensures TotalAvailable(commissions, ids)
         == Available(commissions[ids[0]]) + TotalAvailable(commissions, ids[1..])
  {
    if |ids| > 1 {
      TotalAvailableFirst(commissions, ids[..|ids| - 1]);
      assert ids[..|ids| - 1][1..] == ids[1..][..|ids| - 2];
    }
  }

  lemma {:induction false} TotalAvailableNotNegative(commissions: seq<Commission>, ids: seq<nat>)
    requires AllAvailable(commissions, ids)
    ensures TotalAvailable(commissions, ids) >= 0.0
  {
    if ids != [] {
      TotalAvailableNotNegative(commissions, ids[..|ids| - 1]);
    }
  }

  lemma FifoFirst(commissions: seq<Commission>, ids: seq<nat>, amount: Money, share: Money, rest: seq<Share>)
    requires ids != [] && ValidIds(commissions, ids)
    requires IsFifo(commissions, ids[1..], amount - share, rest)
    requires 0.0 < share <= Available(commissions[ids[0]])
    requires rest != [] ==> share == Available(commissions[ids[0]])
    ensures IsFifo(commissions, ids, amount, [Share(ids[0], share)] + rest)
  {
    var plan := [Share(ids[0], share)] + rest;
    assert plan[1..] == rest;
    forall k | 0 <= k < |plan|
      ensures plan[k].commission == ids[k]
      ensures 0.0 < plan[k].amount <= Available(commissions[ids[k]])
      ensures k < |plan| - 1 ==> plan[k].amount == Available(commissions[ids[k]])
    {
      if k > 0 {
        assert plan[k] == rest[k - 1] && ids[k] == ids[1..][k - 1];
      }
    }
  }

  /** One round of the greedy loop, from the list that is left. */
  lemma PlanNext(commissions: seq<Commission>, ids: seq<nat>, k: nat, remaining: Money)
    requires ValidIds(commissions, ids) && k < |ids| && remaining > 0.0
    ensures var free := Available(commissions[ids[k]]);
            var share := Min(remaining, free);
            Plan(commissions, ids[k..], remaining)
            == if free <= 0.0 then Plan(commissions, ids[k + 1..], remaining)
               else [Share(ids[k], share)] + Plan(commissions, ids[k + 1..], remaining - share)
  {
    assert ids[k..][1..] == ids[k + 1..];
  }

  lemma OneMoreShare(plan: seq<Share>, share: Share, rest: seq<Share>)
    ensures plan + ([share] + rest) == (plan + [share]) + rest
  {
  }


  lemma {:induction false} PlanIsFifo(commissions: seq<Commission>, ids: seq<nat>, amount: Money)
    requires AllAvailable(commissions, ids)
    requires 0.0 <= amount <= TotalAvailable(commissions, ids)
    ensures IsFifo(commissions, ids, amount, Plan(commissions, ids, amount))
  {
    if ids != [] && amount > 0.0 {
      TotalAvailableFirst(commissions, ids);
      TotalAvailableNotNegative(commissions, ids[1..]);
      var share := Min(amount, Available(commissions[ids[0]]));
      PlanIsFifo(commissions, ids[1..], amount - share);
      FifoFirst(commissions, ids, amount, share, Plan(commissions, ids[1..], amount - share));
    }
  }

  lemma FifoTail(commissions: seq<Commission>, ids: seq<nat>, amount: Money, plan: seq<Share>)
    requires AllAvailable(commissions, ids) && IsFifo(commissions, ids, amount, plan) && plan != []
    ensures IsFifo(commissions, ids[1..], amount - plan[0].amount, plan[1..])
    ensures amount > 0.0 && plan[0] == Share(ids[0], Min(amount, Available(commissions[ids[0]])))
  {
    PlanTotalPositive(plan[1..]);
    if |plan| == 1 {
      assert plan[1..] == [];
      assert plan[0].amount == amount;
    }
  }

  /** Being first in, first out for an amount leaves no choice: the plan is the only such allocation. */
  lemma {:induction false} FifoIsUnique(commissions: seq<Commission>, ids: seq<nat>, amount: Money, plan: seq<Share>)
    requires AllAvailable(commissions, ids)
    requires IsFifo(commissions, ids, amount, plan)
    ensures plan == Plan(commissions, ids, amount)
  {
    if plan != [] {
      FifoTail(commissions, ids, amount, plan);
      FifoIsUnique(commissions, ids[1..], amount - plan[0].amount, plan[1..]);
      assert plan == [plan[0]] + plan[1..];
    }
  }

  lemma {:induction false} PlanTotalPositive(plan: seq<Share>)
    requires forall k :: 0 <= k < |plan| ==> plan[k].amount > 0.0
    ensures PlanTotal(plan) >= 0.0
    ensures plan != [] ==> PlanTotal(plan) > 0.0
  {
    if plan != [] {
      PlanTotalPositive(plan[1..]);
    }
  }

  /** The plan of a granted request, on the commissions the query selects. */
  lemma RequestPlan(t: Tables, user: nat, amount: Money)
    requires MayRequest(t, user, amount)
    ensures var ids := EligibleIds(t.commissions, user);
            IsFifo(t.commissions, ids, amount, Plan(t.commissions, ids, amount))
  {
    PlanIsFifo(t.commissions, EligibleIds(t.commissions, user), amount);
  }

  // ---- Reserving a plan ----

  predicate PlanFits(loaded: seq<Commission>, plan: seq<Share>) {
    && (forall k :: 0 <= k < |plan| ==>
          plan[k].commission < |loaded| && 0.0 < plan[k].amount <= Available(loaded[plan[k].commission]))
    && (forall j, k :: 0 <= j < k < |plan| ==> plan[j].commission != plan[k].commission)
  }

  lemma FifoFits(t: Tables, user: nat, amount: Money)
    requires MayRequest(t, user, amount)
    ensures PlanFits(t.commissions, Plan(t.commissions, EligibleIds(t.commissions, user), amount))
  {
    RequestPlan(t, user, amount);
  }

  lemma {:induction false} PlanTotalLast(plan: seq<Share>)
    requires plan != []
    ensures PlanTotal(plan) == PlanTotal(plan[..|plan| - 1]) + plan[|plan| - 1].amount
  {
    if |plan| > 1 {
      PlanTotalLast(plan[1..]);
      assert plan[..|plan| - 1][1..] == plan[1..][..|plan| - 2];
    }
  }

  function Reservations(payout: nat, plan: seq<Share>): (added: seq<Allocation>)
    ensures |added| == |plan|
  {
    seq(|plan|, k requires 0 <= k < |plan| => Allocation(payout, plan[k].commission, plan[k].amount, Reserved))
  }

  lemma ReservationsLast(payout: nat, plan: seq<Share>)
    requires plan != []
    ensures Reservations(payout, plan)
         == Reservations(payout, plan[..|plan| - 1])
            + [Allocation(payout, plan[|plan| - 1].commission, plan[|plan| - 1].amount, Reserved)]
  {
  }

  lemma ReserveShareKeeps(t: Tables, loaded: seq<Commission>, payout: nat, share: Share)
    requires ReservationsAgree(t)
    requires |loaded| == |t.commissions| && share.commission < |loaded|
    requires t.commissions[share.commission] == loaded[share.commission]
    ensures ReservationsAgree(ReserveShare(t, loaded, payout, share))
  {
    var after := ReserveShare(t, loaded, payout, share);
    var added := Allocation(payout, share.commission, share.amount, Reserved);
    forall c | 0 <= c < |after.commissions|
      ensures after.commissions[c].reserved == Held(after.allocations, c, Reserved) && StatusAgrees(after, c)
    {
      HeldAppend(t.allocations, added, c, Reserved);
      HeldAppend(t.allocations, added, c, Paid);
      assert StatusAgrees(t, c);
    }
  }

  predicate Planned(plan: seq<Share>, c: nat) {
    exists k :: 0 <= k < |plan| && plan[k].commission == c
  }

  /** Commissions the write loop has not reached yet are as they were loaded. */
  lemma {:induction false} ReserveSharesFrame(t: Tables, payout: nat, plan: seq<Share>)
    requires forall k :: 0 <= k < |plan| ==> plan[k].commission < |t.commissions|
    ensures var r := ReserveShares(t, t.commissions, payout, plan);
            && r == t.(allocations := t.allocations + Reservations(payout, plan), commissions := r.commissions)
            && forall c :: 0 <= c < |r.commissions| ==>
                 && r.commissions[c].owner == t.commissions[c].owner
                 && r.commissions[c].amount == t.commissions[c].amount
                 && (Planned(plan, c) || r.commissions[c] == t.commissions[c])
  {
    if plan != [] {
      var n := |plan| - 1;
      ReserveSharesFrame(t, payout, plan[..n]);
      ReservationsLast(payout, plan);
      forall c: nat | Planned(plan[..n], c) ensures Planned(plan, c) {
        var k :| 0 <= k < n && plan[..n][k].commission == c;
        assert plan[k].commission == c;
      }
      assert Planned(plan, plan[n].commission);
    }
  }

  lemma {:induction false} ReserveSharesKeeps(t: Tables, payout: nat, plan: seq<Share>)
    requires ReservationsAgree(t) && PlanFits(t.commissions, plan)
    ensures ReservationsAgree(ReserveShares(t, t.commissions, payout, plan))
  {
    if plan != [] {
      var n := |plan| - 1;
      ReserveSharesKeeps(t, payout, plan[..n]);
      ReserveSharesFrame(t, payout, plan[..n]);
      ReserveShareKeeps(ReserveShares(t, t.commissions, payout, plan[..n]), t.commissions, payout, plan[n]);
    }
  }

  lemma {:induction false} AllocatedOfPlan(allocations: seq<Allocation>, payout: nat, plan: seq<Share>, p: nat)
    ensures Allocated(allocations + Reservations(payout, plan), p)
         == Allocated(allocations, p) + (if p == payout then PlanTotal(plan) else 0.0)
  {
    if plan == [] {
      assert allocations + Reservations(payout, plan) == allocations;
    } else {
      var n := |plan| - 1;
      AllocatedOfPlan(allocations, payout, plan[..n], p);
      PlanTotalLast(plan);
      ReservationsLast(payout, plan);
      var all := allocations + Reservations(payout, plan);
      assert all[..|all| - 1] == allocations + Reservations(payout, plan[..n]);
    }
  }

  function WithPayout(t: Tables, user: nat, amount: Money): Tables
    requires MayRequest(t, user, amount)
  {
    t.(payouts := t.payouts
         + [Payout(user, t.users[user].company.value, amount, FirstStatus(t.users[user]), None, 0)])
  }

  lemma RequestKeepsReservations(t: Tables, user: nat, amount: Money)
    requires ReservationsAgree(t) && MayRequest(t, user, amount)
    ensures ReservationsAgree(Request(t, user, amount))
  {
    var extended := WithPayout(t, user, amount);
    forall c | 0 <= c < |t.commissions| ensures StatusAgrees(extended, c) {
      assert StatusAgrees(t, c);
    }
    FifoFits(t, user, amount);
    ReserveSharesKeeps(extended, |t.payouts|, Plan(t.commissions, EligibleIds(t.commissions, user), amount));
  }

  lemma RequestKeepsAllocated(t: Tables, user: nat, amount: Money, p: nat)
    requires ValidAllocations(t) && MayRequest(t, user, amount) && p <= |t.payouts|
    requires p < |t.payouts| ==> Allocated(t.allocations, p) == t.payouts[p].amount
    ensures Allocated(Request(t, user, amount).allocations, p)
         == if p == |t.payouts| then amount else t.payouts[p].amount
  {
    var plan := Plan(t.commissions, EligibleIds(t.commissions, user), amount);
    RequestPlan(t, user, amount);
    ReserveSharesFrame(WithPayout(t, user, amount), |t.payouts|, plan);
    AllocatedOfPlan(t.allocations, |t.payouts|, plan, p);
    AllocatedOfNone(t.allocations, |t.payouts|);
  }

  lemma RequestKeepsKeys(t: Tables, payout: nat, plan: seq<Share>)
    requires PositiveAllocations(t.allocations) && OneAllocationPerPair(t.allocations)
    requires forall k :: 0 <= k < |t.allocations| ==> t.allocations[k].payout != payout
    requires PlanFits(t.commissions, plan)
    ensures var allocations := t.allocations + Reservations(payout, plan);
            PositiveAllocations(allocations) && OneAllocationPerPair(allocations)
  {
  }
}
