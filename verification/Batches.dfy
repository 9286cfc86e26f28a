/** Draining the queue of payments that are ready to be sent, batch by batch. */
module Batches {
  import opened Statuses
  import opened Tables
  import opened Lifecycle
  import opened Runs

  /** Rounds of GetBatchForUpdate and dispatch with nothing arriving in between. */
  ghost predicate IsDrain(states: seq<Tables>, batches: seq<seq<Id>>, size: int) {
    && |states| == |batches| + 1
    && forall k, l | 0 <= k && l == k + 1 < |states| ::
         IsRound(states[k], size, batches[k], states[l])
  }

  ghost predicate IsRound(s: Tables, size: int, batch: seq<Id>, s': Tables) {
    IsBatch(s, size, batch) && s' == Dispatched(s, Elements(batch))
  }

  /** Where a batched payment goes: to PENDING, or to FAILED when its amount or address is unusable. */
  function SendTarget(s: Tables, p: Id): PaymentStatus
    requires Eligible(s, p)
  {
    if ReadyForSending(s, p) then PendingPayment else FailedPayment
  }

  lemma DispatchedRow(s: Tables, batch: set<Id>, p: Id)
    requires p in s.payments && forall id | id in batch :: Eligible(s, id)
    ensures p in Dispatched(s, batch).payments
    ensures Dispatched(s, batch).payments[p]
         == if p in batch then MovedPayment(s.payments[p], SendTarget(s, p), s.now, None) else s.payments[p]
  {
  }

  lemma EligibleAfterDispatch(s: Tables, batch: set<Id>)
    requires forall id | id in batch :: Eligible(s, id)
    ensures EligiblePayments(Dispatched(s, batch)) == EligiblePayments(s) - batch
  {
  }

  lemma RoundShrinks(s: Tables, size: int, batch: seq<Id>)
    requires IsBatch(s, size, batch)
    ensures EligiblePayments(Dispatched(s, Elements(batch))) == EligiblePayments(s) - Elements(batch)
    ensures |EligiblePayments(Dispatched(s, Elements(batch)))|
            == |EligiblePayments(s)| - Min(size, |EligiblePayments(s)|)
  {
    EligibleAfterDispatch(s, Elements(batch));
    ElementsCount(batch);
    assert Elements(batch) <= EligiblePayments(s);
    assert EligiblePayments(s) == (EligiblePayments(s) - Elements(batch)) + Elements(batch);
  }

  /** After k rounds of size b, max(0, n - k * b) of n eligible payments are left: none after ceil(n / b) rounds. */
  lemma {:induction false} DrainCount(states: seq<Tables>, batches: seq<seq<Id>>, size: int, k: nat)
    requires IsDrain(states, batches, size) && 0 < size && k < |states|
    ensures |EligiblePayments(states[k])| == if |EligiblePayments(states[0])| <= k * size then 0
                                             else |EligiblePayments(states[0])| - k * size
  {
    if k > 0 {
      DrainCount(states, batches, size, k - 1);
      assert IsRound(states[k - 1], size, batches[k - 1], states[k]);
      RoundShrinks(states[k - 1], size, batches[k - 1]);
      assert k * size == (k - 1) * size + size;
    }
  }

  lemma CeilingCovers(n: nat, size: int, k: nat)
    requires 0 < size && k >= (n + size - 1) / size
    ensures k * size >= n
  {
  }

  lemma DrainedAfterCeiling(states: seq<Tables>, batches: seq<seq<Id>>, size: int)
    requires IsDrain(states, batches, size) && 0 < size
    requires |batches| >= (|EligiblePayments(states[0])| + size - 1) / size
    ensures EligiblePayments(states[|batches|]) == {}
  {
    CeilingCovers(|EligiblePayments(states[0])|, size, |batches|);
    DrainCount(states, batches, size, |batches|);
  }

  /**
   A payment eligible at the start is moved exactly once: by round k either no batch had it and its row is untouched, or
   exactly one batch had it and its row is the original one with a single move. Other payments are never touched.
   */
  lemma {:induction false} MovedExactlyOnce(states: seq<Tables>, batches: seq<seq<Id>>, size: int, k: nat, p: Id)
    requires IsDrain(states, batches, size) && k < |states| && p in states[0].payments
    ensures p in states[k].payments
    ensures states[k].wallets == states[0].wallets && states[k].disbursements == states[0].disbursements
    ensures states[k].now == states[0].now
    ensures states[k].payments[p]
         == if Eligible(states[0], p) && !Eligible(states[k], p)
            then MovedPayment(states[0].payments[p], SendTarget(states[0], p), states[0].now, None)
            else states[0].payments[p]
    ensures Eligible(states[k], p) ==> Eligible(states[0], p)
    ensures Eligible(states[0], p) && !Eligible(states[k], p) <==> exists r | 0 <= r < k :: p in batches[r]
    ensures forall q, r | 0 <= q < r < k :: !(p in batches[q] && p in batches[r])
  {
    if k > 0 {
      MovedExactlyOnce(states, batches, size, k - 1, p);
      var s, batch := states[k - 1], Elements(batches[k - 1]);
      assert IsRound(states[k - 1], size, batches[k - 1], states[k]);
      DispatchedRow(s, batch, p);
      EligibleAfterDispatch(s, batch);
      assert Eligible(states[k], p) <==> p in EligiblePayments(states[k]);
      assert Eligible(s, p) <==> p in EligiblePayments(s);
      assert p in batch <==> p in batches[k - 1];
    }
  }

  /** Draining writes payment rows and nothing else, and adds and removes none. */
  lemma {:induction false} DrainLeaves(states: seq<Tables>, batches: seq<seq<Id>>, size: int, k: nat)
    requires IsDrain(states, batches, size) && k < |states|
    ensures states[k] == states[0].(payments := states[k].payments)
    ensures states[k].payments.Keys == states[0].payments.Keys
  {
    if k > 0 {
      DrainLeaves(states, batches, size, k - 1);
      assert IsRound(states[k - 1], size, batches[k - 1], states[k]);
    }
  }

  /** A direct payment is taken only in a round that leaves no disbursement payment waiting. */
  lemma DisbursementPaymentsGoFirst(s: Tables, size: int, batch: seq<Id>, direct: Id, p: Id)
    requires IsBatch(s, size, batch) && direct in batch && s.payments[direct].disbursement.None?
    requires p in s.payments && s.payments[p].disbursement.Some?
    ensures !Eligible(Dispatched(s, Elements(batch)), p)
  {
  }
}
