/** Initiating several payouts at once. */
module PayoutBulk {
  import opened Common
  import opened Payouts
  import opened PayoutProofs

  /** [...new Set(ids)]: first occurrences, in order. */
  function Distinct(ids: seq<nat>): (r: seq<nat>)
    ensures forall j, k :: 0 <= j < k < |r| ==> r[j] != r[k]
    ensures forall id :: id in r <==> id in ids
  {
    if ids == [] then []
    else
      var n := |ids| - 1;
      var before := Distinct(ids[..n]);
      if ids[n] in ids[..n] then before else before + [ids[n]]
  }

  /** Where an id is named first. */
  function FirstAt(ids: seq<nat>, id: nat): (at: nat)
    requires id in ids
    ensures at < |ids| && ids[at] == id && id !in ids[..at]
  {
    if ids[0] == id then 0 else 1 + FirstAt(ids[1..], id)
  }

  lemma FirstAtStays(ids: seq<nat>, n: nat, id: nat)
    requires n <= |ids| && id in ids[..n]
    ensures id in ids && FirstAt(ids, id) == FirstAt(ids[..n], id) < n
  {
    var at := FirstAt(ids[..n], id);
    assert ids[at] == id && ids[..n][..at] == ids[..at];
  }

  /** The payouts are taken in the order in which they are named first. */
  lemma {:induction false} DistinctInOrder(ids: seq<nat>, j: nat, k: nat)
    requires j < k < |Distinct(ids)|
    ensures Distinct(ids)[j] in ids && Distinct(ids)[k] in ids
    ensures FirstAt(ids, Distinct(ids)[j]) < FirstAt(ids, Distinct(ids)[k])
  {
    var n := |ids| - 1;
    var before := Distinct(ids[..n]);
    assert before[j] in before;
    FirstAtStays(ids, n, before[j]);
    if k < |before| {
      assert before[k] in before;
      DistinctInOrder(ids[..n], j, k);
      FirstAtStays(ids, n, before[k]);
    } else {
      assert ids[n] !in ids[..n];
    }
  }

  predicate Valid(t: Tables, payout: nat, actor: nat, banked: set<nat>) {
    payout < |t.payouts| && CheckInitiation(t, payout, actor, t.payouts[payout].user in banked).None?
  }

  predicate Refused(t: Tables, ids: seq<nat>, actor: nat, banked: set<nat>) {
    || ids == []
    || actor >= |t.users| || !t.users[actor].role.CompanyOwner?
    || exists k :: 0 <= k < |Distinct(ids)| && !Valid(t, Distinct(ids)[k], actor, banked)
  }

  /**
   A bulk initiation goes on exactly when something is named, by an owner, and everything named is a payout of the
   owner's company that is approved or whose transfer failed or was reversed, of a user with a bank account.
   */
  lemma BulkOpens(t: Tables, ids: seq<nat>, actor: nat, banked: set<nat>)
    ensures !Refused(t, ids, actor, banked) <==>
              && ids != [] && actor < |t.users| && t.users[actor].role == CompanyOwner
              && forall id :: id in ids ==>
                   && id < |t.payouts| && t.users[actor].company == Some(t.payouts[id].company)
                   && t.payouts[id].status in {Approved, TransferFailed, TransferReversed}
                   && t.payouts[id].user in banked
  {
    var distinct := Distinct(ids);
    forall id | id in ids ensures exists k :: 0 <= k < |distinct| && distinct[k] == id {
      assert id in distinct;
    }
    forall k | 0 <= k < |distinct| ensures distinct[k] in ids {
      assert distinct[k] in distinct;
    }
  }

  function InitiateEach(t: Tables, ids: seq<nat>): (r: Tables)
    requires Structured(t)
    ensures Structured(r)
    ensures |r.payouts| == |t.payouts|
  {
    if ids == [] then t
    else
      var before := InitiateEach(t, ids[..|ids| - 1]);
      var id := ids[|ids| - 1];
      if id >= |before.payouts| then before
      else
        InitiateKeepsStructured(before, id);
        Initiate(before, id)
  }

  lemma InitiateKeepsStructured(t: Tables, payout: nat)
    requires Structured(t) && payout < |t.payouts|
    ensures Structured(Initiate(t, payout))
  {
    var status := t.payouts[payout].status;
    PreparedIsStructured(t, payout, status);
    StartIsStructured(if status.Approved? then t else Prepare(t, payout, status), payout);
  }

  lemma InitiatesOneRow(t: Tables, id: nat, p: nat)
    requires Structured(t) && id < |t.payouts| && p < |t.payouts|
    ensures |Initiate(t, id).payouts| == |t.payouts|
    ensures Initiate(t, id).payouts[p]
         == if p != id then t.payouts[p]
            else t.payouts[p].(
              status := TransferInitiated, transferCode := None, initiations := t.payouts[p].initiations + 1)
  {
  }

  /** After a bulk initiation each distinct payout named has been initiated exactly once, no other at all. */
  lemma {:induction false} EachInitiatedOnce(t: Tables, ids: seq<nat>, p: nat)
    requires Structured(t) && p < |t.payouts|
    requires forall j, k :: 0 <= j < k < |ids| ==> ids[j] != ids[k]
    ensures var r := InitiateEach(t, ids);
            if p in ids
            then && r.payouts[p].status.TransferInitiated?
                 && r.payouts[p].transferCode.None?
                 && r.payouts[p].initiations == t.payouts[p].initiations + 1
            else r.payouts[p] == t.payouts[p]
  {
    if ids != [] {
      var n := |ids| - 1;
      assert ids == ids[..n] + [ids[n]];
      EachInitiatedOnce(t, ids[..n], p);
      if ids[n] < |t.payouts| {
        InitiatesOneRow(InitiateEach(t, ids[..n]), ids[n], p);
      }
    }
  }

  // ---- While others act ----

  /** initiateTransfer once its checks are passed: what others do before its first and before its last write. */
  function Initiation(t: Tables, p: nat, status: PayoutStatus, beforeFirst: seq<Event>, beforeLast: seq<Event>)
      : (r: Tables)
    requires Structured(t) && p < |t.payouts|
    ensures Structured(r) && p < |r.payouts|
  {
    var first := Run(t, beforeFirst);
    RunGrows(t, beforeFirst);
    var prepared := if status.Approved? then first else Prepare(first, p, status);
    PreparedIsStructured(first, p, status);
    RunGrows(prepared, beforeLast);
    StartIsStructured(Run(prepared, beforeLast), p);
    StartTransfer(Run(prepared, beforeLast), p)
  }

  lemma PreparedIsStructured(t: Tables, p: nat, status: PayoutStatus)
    requires Structured(t) && p < |t.payouts|
    ensures Structured(Prepare(t, p, status)) && |Prepare(t, p, status).payouts| == |t.payouts|
  {
    PrepareKeepsRows(t, p, status);
    GrowingKeepsReady(t, Prepare(t, p, status));
  }

  lemma StartIsStructured(t: Tables, p: nat)
    requires Structured(t) && p < |t.payouts|
    ensures Structured(StartTransfer(t, p))
  {
    ColumnsKeepRows(t, StartTransfer(t, p));
    GrowingKeepsReady(t, StartTransfer(t, p));
  }

  /** What other processes do before the checks of one payout, and before each of its two writes. */
  datatype Meanwhile = Meanwhile(before: seq<Event>, beforeFirst: seq<Event>, beforeLast: seq<Event>)

  function At(others: seq<Meanwhile>, k: nat): Meanwhile {
    if k < |others| then others[k] else Meanwhile([], [], [])
  }

  /** For each payout how it was refused, if it was. */
  datatype BulkResult = BulkResult(t: Tables, refusals: seq<Option<PayoutError>>)

  function BulkTurn(before: BulkResult, id: nat, actor: nat, banked: set<nat>, meanwhile: Meanwhile): (r: BulkResult)
    requires Structured(before.t)
    ensures Structured(r.t)
  {
    var now := Run(before.t, meanwhile.before);
    var refusal := CheckInitiation(now, id, actor, id < |now.payouts| && now.payouts[id].user in banked);
    var after := if refusal.Some? then now
                 else Initiation(now, id, now.payouts[id].status, meanwhile.beforeFirst, meanwhile.beforeLast);
    BulkResult(after, before.refusals + [refusal])
  }

  /** The loop of initiateBulkTransfer: each payout is checked anew when its turn comes. */
  function InitiateAmid(t: Tables, ids: seq<nat>, actor: nat, banked: set<nat>, others: seq<Meanwhile>): (r: BulkResult)
    requires Structured(t)
    ensures Structured(r.t)
  {
    if ids == [] then BulkResult(t, [])
    else
      var n := |ids| - 1;
      BulkTurn(InitiateAmid(t, ids[..n], actor, banked, others), ids[n], actor, banked, At(others, n))
  }

  lemma NextTurn(t: Tables, ids: seq<nat>, id: nat, actor: nat, banked: set<nat>, others: seq<Meanwhile>)
    requires Structured(t)
    ensures InitiateAmid(t, ids + [id], actor, banked, others)
         == BulkTurn(InitiateAmid(t, ids, actor, banked, others), id, actor, banked, At(others, |ids|))
  {
    assert (ids + [id])[..|ids|] == ids;
  }

  lemma Rejoined(first: seq<nat>, rest: seq<nat>)
    ensures rest == [] ==> first + rest == first
    ensures rest != [] ==> first + rest == first + rest[..|rest| - 1] + [rest[|rest| - 1]]
  {
  }

  /** The answers given so far stay as they are, one for each payout. */
  lemma {:induction false} AnswersStay(
      t: Tables, first: seq<nat>, rest: seq<nat>, actor: nat, banked: set<nat>, others: seq<Meanwhile>)
    requires Structured(t) && |InitiateAmid(t, first, actor, banked, others).refusals| == |first|
    ensures var before := InitiateAmid(t, first, actor, banked, others).refusals;
            var after := InitiateAmid(t, first + rest, actor, banked, others).refusals;
            |after| == |first| + |rest| && after[..|first|] == before
  {
    Rejoined(first, rest);
    if rest != [] {
      var n := |rest| - 1;
      AnswersStay(t, first, rest[..n], actor, banked, others);
      NextTurn(t, first + rest[..n], rest[n], actor, banked, others);
    }
  }

  lemma {:induction false} AnswersCounted(
      t: Tables, ids: seq<nat>, actor: nat, banked: set<nat>, others: seq<Meanwhile>)
    requires Structured(t)
    ensures |InitiateAmid(t, ids, actor, banked, others).refusals| == |ids|
  {
    if ids != [] {
      AnswersCounted(t, ids[..|ids| - 1], actor, banked, others);
    }
  }

  /**
   Whatever others do, each payout has its own answer: what its checks say when its turn comes, whether or not the
   ones before it were refused, and whatever comes after.
   */
  lemma EachHasItsAnswer(
      t: Tables, first: seq<nat>, id: nat, rest: seq<nat>, actor: nat, banked: set<nat>, others: seq<Meanwhile>)
    requires Structured(t)
    ensures var r := InitiateAmid(t, first + [id] + rest, actor, banked, others);
            var now := Run(InitiateAmid(t, first, actor, banked, others).t, At(others, |first|).before);
            && |r.refusals| == |first| + 1 + |rest|
            && r.refusals[|first|]
               == CheckInitiation(now, id, actor, id < |now.payouts| && now.payouts[id].user in banked)
  {
    AnswersCounted(t, first, actor, banked, others);
    AnswersCounted(t, first + [id], actor, banked, others);
    NextTurn(t, first, id, actor, banked, others);
    AnswersStay(t, first + [id], rest, actor, banked, others);
    var after := InitiateAmid(t, first + [id] + rest, actor, banked, others).refusals;
    assert after[|first|] == after[..|first| + 1][|first|];
  }

  lemma {:induction false} EachKeepsUsers(t: Tables, ids: seq<nat>)
    requires Structured(t)
    ensures InitiateEach(t, ids).users == t.users
  {
    if ids != [] {
      EachKeepsUsers(t, ids[..|ids| - 1]);
    }
  }

  predicate AllValid(t: Tables, ids: seq<nat>, actor: nat, banked: set<nat>) {
    && (forall k :: 0 <= k < |ids| ==> Valid(t, ids[k], actor, banked))
    && (forall j, k :: 0 <= j < k < |ids| ==> ids[j] != ids[k])
  }

  lemma UninterruptedTurn(before: BulkResult, id: nat, actor: nat, banked: set<nat>)
    requires Structured(before.t) && Valid(before.t, id, actor, banked)
    ensures BulkTurn(before, id, actor, banked, Meanwhile([], [], []))
         == BulkResult(Initiate(before.t, id), before.refusals + [None])
  {
  }

  /** What was validated is still valid when its turn comes. */
  lemma LastStillValid(t: Tables, ids: seq<nat>, actor: nat, banked: set<nat>)
    requires Structured(t) && ids != [] && AllValid(t, ids, actor, banked)
    ensures var n := |ids| - 1;
            AllValid(t, ids[..n], actor, banked) && Valid(InitiateEach(t, ids[..n]), ids[n], actor, banked)
  {
    var n := |ids| - 1;
    assert Valid(t, ids[n], actor, banked) && ids[n] !in ids[..n];
    EachKeepsUsers(t, ids[..n]);
    EachInitiatedOnce(t, ids[..n], ids[n]);
  }

  predicate NoneRefused(refusals: seq<Option<PayoutError>>) {
    forall k :: 0 <= k < |refusals| ==> refusals[k].None?
  }

  /** With nothing in between what was validated is not refused, and each distinct payout is initiated. */
  lemma {:induction false} UninterruptedBulk(t: Tables, ids: seq<nat>, actor: nat, banked: set<nat>)
    requires Structured(t) && AllValid(t, ids, actor, banked)
    ensures var r := InitiateAmid(t, ids, actor, banked, []);
            r.t == InitiateEach(t, ids) && |r.refusals| == |ids| && NoneRefused(r.refusals)
  {
    if ids != [] {
      var n := |ids| - 1;
      LastStillValid(t, ids, actor, banked);
      UninterruptedBulk(t, ids[..n], actor, banked);
      UninterruptedTurn(InitiateAmid(t, ids[..n], actor, banked, []), ids[n], actor, banked);
    }
  }
}
