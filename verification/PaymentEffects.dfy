/**
 What each transaction does to each row of the payments table and to the rows that follow it, told by the columns alone:
 who is selected, what is written, and that everything else stays. The set-based statements meet it row by row.
 */
module PaymentEffects {
  import opened Statuses
  import opened Tables
  import opened Lifecycle
  import opened Invariants
  import opened Steps
  import opened Runs
  import opened Batches

  /** The row took a new status: one new last history entry, a new update time, and no other column but the hash. */
  predicate Took(p: Payment, p': Payment, to: PaymentStatus, now: int) {
    && p'.status == to && p'.history == p.history + [Entry(to, now)] && p'.updatedAt == now
    && p'.disbursement == p.disbursement && p'.receiver == p.receiver && p'.wallet == p.wallet
    && p'.asset == p.asset && p'.amount == p.amount
  }

  predicate TookKeepingHash(p: Payment, p': Payment, to: PaymentStatus, now: int) {
    Took(p, p', to, now) && p'.transactionId == p.transactionId
  }

  /** The transaction wrote payment rows and nothing else, and neither added nor removed one. */
  predicate OnlyPayments(s: Tables, s': Tables) {
    s' == s.(payments := s'.payments) && s'.payments.Keys == s.payments.Keys
  }

  // ---------- updates of payments ----------

  /** The update behind every status change: the listed rows take the status, and the hash only when one is given. */
  lemma MoveEffect(s: Tables, ids: set<Id>, to: PaymentStatus, hash: Option<string>, p: Id)
    requires p in s.payments
    ensures var s' := MoveIn(s, ids, to, hash);
      && OnlyPayments(s, s')
      && (p !in ids ==> s'.payments[p] == s.payments[p])
      && (p in ids ==> Took(s.payments[p], s'.payments[p], to, s.now))
      && (p in ids && hash == None ==> s'.payments[p].transactionId == s.payments[p].transactionId)
      && (p in ids && hash != None ==> Some(s'.payments[p].transactionId) == hash)
  {
  }

  /** The update of a disbursement's payments takes along those whose transition is in the table, and no others. */
  lemma BulkMoveEffect(ps: map<Id, Payment>, d: Id, to: PaymentStatus, now: int, p: Id)
    requires p in ps
    ensures var ps' := MovePayments(ps, Movable(ps, d, to), to, now, None);
      && ps'.Keys == ps.Keys
      && (ps[p].disbursement == Some(d) && Transition(ps[p].status, to) in PAYMENT_TRANSITIONS ==>
            TookKeepingHash(ps[p], ps'[p], to, now))
      && (ps[p].disbursement != Some(d) || Transition(ps[p].status, to) !in PAYMENT_TRANSITIONS ==> ps'[p] == ps[p])
  {
    assert Transition(ps[p].status, to) in PAYMENT_TRANSITIONS <==> PaymentEdge(ps[p].status, to);
  }

  /** A retry is all or nothing: every listed payment becomes READY with an empty hash, and no other row changes. */
  lemma RetryEffect(s: Tables, email: string, ids: seq<Id>, s': Tables)
    requires Step(s, RetryFailedPayments(email, ids), s')
    ensures OnlyPayments(s, s')
    ensures if && ids != [] && email != "" && Distinct(ids)
               && forall i | 0 <= i < |ids| :: ids[i] in s.payments && s.payments[ids[i]].status == FailedPayment
            then && (forall p | p in ids ::
                       Took(s.payments[p], s'.payments[p], ReadyPayment, s.now) && s'.payments[p].transactionId == "")
                 && (forall p | p in s.payments && p !in ids :: s'.payments[p] == s.payments[p])
            else s' == s
  {
    RetryIsAllOrNothing(s.payments, ids);
  }

  /** The cancellation of one payment asks for READY. */
  lemma CancelEffect(s: Tables, id: Id, s': Tables)
    requires Step(s, CancelPayment(id), s')
    ensures OnlyPayments(s, s')
    ensures id in s.payments && s.payments[id].status == ReadyPayment ==>
              TookKeepingHash(s.payments[id], s'.payments[id], CanceledPayment, s.now)
    ensures id in s.payments && s.payments[id].status != ReadyPayment ==> s' == s
    ensures forall p | p in s.payments && p != id :: s'.payments[p] == s.payments[p]
  {
  }

  lemma AutoCanceledRow(s: Tables, days: int, p: Id)
    requires PayInv(s) && p in s.payments
    ensures var s', row := AutoCanceled(s, days), s.payments[p];
      && OnlyPayments(s, s') && row.history != []
      && if row.status == ReadyPayment && row.history[|row.history| - 1].timestamp <= s.now - days * 86400
         then TookKeepingHash(row, s'.payments[p], CanceledPayment, s.now) else s'.payments[p] == row
  {
    assert PaymentHistoryOk(s.payments[p], s.now);
    StaleIffLastEntryOld(s, days, p);
  }

  /** In a reachable state the automatic cancellation takes the payments that have been READY for the whole period. */
  lemma AutoCancelEffect(states: seq<Tables>, events: seq<Event>, i: nat, days: int, s': Tables, p: Id)
    requires IsRun(states, events) && i < |states| && Step(states[i], CancelReadyPayments(days), s')
    requires p in states[i].payments
    ensures var s, row := states[i], states[i].payments[p];
      && OnlyPayments(s, s') && row.history != []
      && if row.status == ReadyPayment && row.history[|row.history| - 1].timestamp <= s.now - days * 86400
         then TookKeepingHash(row, s'.payments[p], CanceledPayment, s.now) else s'.payments[p] == row
  {
    InvAlways(states, events, i);
    AutoCanceledRow(states[i], days, p);
  }

  lemma ReconciledRow(s: Tables, id: Id, succeeded: bool, hash: string, p: Id)
    requires p in s.payments
    ensures var s' := Reconciled(s, id, succeeded, hash);
      && OnlyPayments(s, s')
      && if p == id && s.payments[p].status == PendingPayment
         then && Took(s.payments[p], s'.payments[p], if succeeded then SuccessPayment else FailedPayment, s.now)
              && s'.payments[p].transactionId == if hash != "" then hash else s.payments[p].transactionId
         else s'.payments[p] == s.payments[p]
  {
    MoveEffect(s, {id}, SyncTarget(succeeded), if hash != "" then Some(hash) else None, p);
  }

  /** The reconciliation records a final status on a PENDING payment, and the hash when one is given. */
  lemma ReconcileEffect(s: Tables, id: Id, succeeded: bool, hash: string, s': Tables, p: Id)
    requires Step(s, ReconcilePayment(id, succeeded, hash), s') && p in s.payments
    ensures OnlyPayments(s, s')
    ensures if p == id && s.payments[p].status == PendingPayment
            then && Took(s.payments[p], s'.payments[p], if succeeded then SuccessPayment else FailedPayment, s.now)
                 && s'.payments[p].transactionId == if hash != "" then hash else s.payments[p].transactionId
            else s'.payments[p] == s.payments[p]
  {
    ReconciledRow(s, id, succeeded, hash, p);
  }

  // ---------- completion ----------

  /** The row is completed, with one new last history entry, and is otherwise as it was. */
  predicate Closed(row: Disbursement, row': Disbursement, now: int) {
    row' == row.(status := CompletedDisbursement, history := row.history + [Entry(CompletedDisbursement, now)])
  }

  /** A STARTED disbursement completes exactly when each of its payments was sent or canceled. */
  lemma CompletionEffect(s: Tables, s': Tables, d: Id)
    requires Step(s, CompleteIfNecessary, s') && d in s.disbursements
    ensures s' == s.(disbursements := s'.disbursements) && s'.disbursements.Keys == s.disbursements.Keys
    ensures if && s.disbursements[d].status == StartedDisbursement
               && forall p | p in s.payments && s.payments[p].disbursement == Some(d) ::
                    s.payments[p].status == SuccessPayment || s.payments[p].status == CanceledPayment
            then Closed(s.disbursements[d], s'.disbursements[d], s.now)
            else s'.disbursements[d] == s.disbursements[d]
  {
  }

  /** The strict query completes a listed STARTED disbursement exactly when each of its payments was sent. */
  lemma StrictCompletionEffect(s: Tables, ids: set<Id>, d: Id)
    requires d in s.disbursements
    ensures var s' := CompletedStrictly(s, ids);
      && s' == s.(disbursements := s'.disbursements) && s'.disbursements.Keys == s.disbursements.Keys
      && if && d in ids && s.disbursements[d].status == StartedDisbursement
            && forall p | p in s.payments && s.payments[p].disbursement == Some(d) ::
               s.payments[p].status == SuccessPayment
         then Closed(s.disbursements[d], s'.disbursements[d], s.now)
         else s'.disbursements[d] == s.disbursements[d]
  {
  }

  /** What a result asks for: a hash that is not white space, and a payment that can take the result. */
  predicate TakesResult(s: Tables, id: Id, succeeded: bool, hash: string) {
    && id in s.payments && (exists k | 0 <= k < |hash| :: hash[k] !in {' ', '\t', '\n', '\r'})
    && (s.payments[id].status == PendingPayment || (!succeeded && s.payments[id].status == ReadyPayment))
  }

  lemma TakesResultIff(s: Tables, id: Id, succeeded: bool, hash: string)
    ensures TakesResult(s, id, succeeded, hash) <==>
            id in s.payments && !Blank(hash) && PaymentEdge(s.payments[id].status, SyncTarget(succeeded))
  {
  }

  lemma SyncPaymentEffect(s: Tables, id: Id, succeeded: bool, hash: string, s': Tables)
    requires Step(s, SyncPayment(id, succeeded, hash), s')
    ensures !TakesResult(s, id, succeeded, hash) ==> s' == s
    ensures TakesResult(s, id, succeeded, hash) ==>
              && s' == s.(payments := s'.payments, disbursements := s'.disbursements)
              && s'.payments.Keys == s.payments.Keys
              && Took(s.payments[id], s'.payments[id], if succeeded then SuccessPayment else FailedPayment, s.now)
              && s'.payments[id].transactionId == hash
              && forall p | p in s.payments && p != id :: s'.payments[p] == s.payments[p]
  {
    TakesResultIff(s, id, succeeded, hash);
  }

  /** A result completes the payment's own STARTED disbursement exactly when that leaves it with sent payments only. */
  lemma SyncDisbursementEffect(s: Tables, id: Id, succeeded: bool, hash: string, s': Tables, d: Id)
    requires Step(s, SyncPayment(id, succeeded, hash), s') && d in s.disbursements
    ensures s'.disbursements.Keys == s.disbursements.Keys
    ensures if && TakesResult(s, id, succeeded, hash) && s.payments[id].disbursement == Some(d)
               && s.disbursements[d].status == StartedDisbursement && succeeded
               && forall p | p in s.payments && s.payments[p].disbursement == Some(d) && p != id ::
                    s.payments[p].status == SuccessPayment
            then Closed(s.disbursements[d], s'.disbursements[d], s.now)
            else s'.disbursements[d] == s.disbursements[d]
  {
    TakesResultIff(s, id, succeeded, hash);
    SyncPaymentEffect(s, id, succeeded, hash, s');
    if TakesResult(s, id, succeeded, hash) && s.payments[id].disbursement.Some? {
      var moved := MoveIn(s, {id}, SyncTarget(succeeded), Some(hash));
      StrictCompletionEffect(moved, {s.payments[id].disbursement.value}, d);
      assert moved.payments[id].status == if succeeded then SuccessPayment else FailedPayment;
    }
  }

  // ---------- sending ----------

  /** READY, on a REGISTERED wallet, and direct or of a STARTED disbursement. */
  predicate Waiting(s: Tables, p: Id) {
    && p in s.payments && s.payments[p].status == ReadyPayment
    && s.payments[p].wallet in s.wallets && s.wallets[s.payments[p].wallet].status == RegisteredWallet
    && (s.payments[p].disbursement == None
        || exists d | d in s.disbursements ::
             s.payments[p].disbursement == Some(d) && s.disbursements[d].status == StartedDisbursement)
  }

  lemma WaitingIsEligible(s: Tables)
    ensures forall p :: Waiting(s, p) <==> Eligible(s, p)
    ensures (set p | p in s.payments && Waiting(s, p)) == EligiblePayments(s)
  {
  }

  /** The payment has an amount of 1 to 2^63 - 1 stroops and a destination. */
  predicate CanBeSent(s: Tables, p: Id)
    requires p in s.payments && s.payments[p].wallet in s.wallets
  {
    0 < s.payments[p].amount <= 9223372036854775807 && s.wallets[s.payments[p].wallet].address != NoAddress
  }

  /** A payment is sent only while it waits, and only when it is in the batch: any other keeps its whole row. */
  lemma SendingEffect(s: Tables, size: int, batch: seq<Id>, s': Tables, p: Id)
    requires Step(s, SendBatch(size, batch), s') && IsBatch(s, size, batch) && p in s.payments
    ensures OnlyPayments(s, s')
    ensures p in batch ==> Waiting(s, p)
    ensures !Waiting(s, p) || p !in batch ==> s'.payments[p] == s.payments[p]
    ensures p in batch && CanBeSent(s, p) ==> TookKeepingHash(s.payments[p], s'.payments[p], PendingPayment, s.now)
    ensures p in batch && !CanBeSent(s, p) ==> TookKeepingHash(s.payments[p], s'.payments[p], FailedPayment, s.now)
  {
    WaitingIsEligible(s);
    DispatchedRow(s, Elements(batch), p);
  }

  /** The batch is as large as it may be: a smaller one leaves no payment waiting. */
  lemma SendingTakesAll(s: Tables, size: int, batch: seq<Id>)
    requires IsBatch(s, size, batch)
    ensures Distinct(batch) && |batch| <= size
    ensures |batch| < size ==> forall p :: Waiting(s, p) ==> p in batch
  {
    WaitingIsEligible(s);
    if |batch| < size {
      ElementsCount(batch);
      assert Elements(batch) <= EligiblePayments(s);
      SubsetCount(Elements(batch), EligiblePayments(s));
      forall p | Waiting(s, p) ensures p in batch { assert p in Elements(batch); }
    }
  }

  /** After a batch that did not fill up, no payment is left READY that could be taken. */
  lemma NoneLeftWaiting(s: Tables, size: int, batch: seq<Id>, s': Tables, p: Id)
    requires Step(s, SendBatch(size, batch), s') && IsBatch(s, size, batch) && |batch| < size
    ensures !Waiting(s', p)
  {
    SendingTakesAll(s, size, batch);
    if p in s.payments { SendingEffect(s, size, batch, s', p); }
  }

  /**
   Whoever is taken goes before whoever has to wait: disbursement payments before direct ones, by disbursement, and the
   longest untouched first.
   */
  lemma SendingOrder(s: Tables, size: int, batch: seq<Id>, p: Id, q: Id)
    requires IsBatch(s, size, batch) && p in batch && Waiting(s, q) && q !in batch
    ensures p in s.payments
    ensures s.payments[p].disbursement == None ==>
              s.payments[q].disbursement == None && s.payments[p].updatedAt <= s.payments[q].updatedAt
    ensures forall d, e | s.payments[p].disbursement == Some(d) && s.payments[q].disbursement == Some(e) ::
              d < e || (d == e && s.payments[p].updatedAt <= s.payments[q].updatedAt)
  {
    WaitingIsEligible(s);
    var i :| 0 <= i < |batch| && batch[i] == p;
    assert Precedes(s.payments[batch[i]], s.payments[q]);
  }

  // ---------- starting and pausing ----------

  predicate MayStart(s: Tables, d: Id) {
    d in s.disbursements && s.disbursements[d].status in {ReadyDisbursement, PausedDisbursement}
  }

  /** A start moves the disbursement's DRAFT and PAUSED payments to READY and leaves every other row. */
  lemma StartPaymentEffect(s: Tables, d: Id, s': Tables, p: Id)
    requires Step(s, StartDisbursement(d), s') && p in s.payments
    ensures s'.payments.Keys == s.payments.Keys
    ensures if MayStart(s, d) && s.payments[p].disbursement == Some(d)
            && s.payments[p].status in {DraftPayment, PausedPayment}
            then TookKeepingHash(s.payments[p], s'.payments[p], ReadyPayment, s.now)
            else s'.payments[p] == s.payments[p]
  {
  }

  /** A start writes one disbursement row, and touches neither receivers nor verifications. */
  lemma StartDisbursementEffect(s: Tables, d: Id, s': Tables)
    requires Step(s, StartDisbursement(d), s')
    ensures !MayStart(s, d) ==> s' == s
    ensures MayStart(s, d) ==>
              && s' == s.(payments := s'.payments, wallets := s'.wallets, disbursements := s'.disbursements)
              && s'.disbursements == s.disbursements[d := s.disbursements[d].(
                   status := StartedDisbursement,
                   history := s.disbursements[d].history + [Entry(StartedDisbursement, s.now)])]
  {
  }

  /** A pause moves the READY payments of a STARTED disbursement, and the disbursement with them. */
  lemma PauseEffect(s: Tables, d: Id, s': Tables, p: Id)
    requires Step(s, PauseDisbursement(d), s') && p in s.payments
    ensures s'.payments.Keys == s.payments.Keys
    ensures if d in s.disbursements && s.disbursements[d].status == StartedDisbursement
            then && s' == s.(payments := s'.payments, disbursements := s'.disbursements)
                 && s'.disbursements == s.disbursements[d := s.disbursements[d].(
                      status := PausedDisbursement,
                      history := s.disbursements[d].history + [Entry(PausedDisbursement, s.now)])]
                 && if s.payments[p].disbursement == Some(d) && s.payments[p].status == ReadyPayment
                    then TookKeepingHash(s.payments[p], s'.payments[p], PausedPayment, s.now)
                    else s'.payments[p] == s.payments[p]
            else s' == s
  {
  }

  // ---------- rows that come and go ----------

  /** In a reachable state a not started disbursement is deleted with all its payments, and nothing else is. */
  lemma DeleteEffect(states: seq<Tables>, events: seq<Event>, i: nat, d: Id, s': Tables)
    requires IsRun(states, events) && i < |states| && Step(states[i], DeleteDisbursement(d), s')
    ensures var s := states[i];
      if d in s.disbursements && s.disbursements[d].status in {DraftDisbursement, ReadyDisbursement}
      then && s' == s.(payments := s'.payments, disbursements := s.disbursements - {d})
           && (forall p :: p in s'.payments <==> p in s.payments && s.payments[p].disbursement != Some(d))
           && (forall p | p in s'.payments :: s'.payments[p] == s.payments[p])
      else s' == s
  {
    var s := states[i];
    InvAlways(states, events, i);
    if d in s.disbursements && NotStarted(s.disbursements[d].status) {
      NothingSurvivesReupload(s, d);
      forall p | p in WithoutDrafts(s.payments, d) ensures s.payments[p].disbursement != Some(d) {
        assert p !in PaymentsOf(WithoutDrafts(s.payments, d), d);
      }
    }
  }

  /** A direct payment is for the receiver of the given wallet, READY at once, and of a valid amount. */
  lemma DirectPaymentEffect(s: Tables, wallet: Id, asset: Id, amount: int, s': Tables)
    requires Step(s, CreateDirectPayment(wallet, asset, amount), s')
    ensures if && wallet in s.wallets && s.wallets[wallet].status in {ReadyWallet, RegisteredWallet}
               && 0 < amount <= 9223372036854775807
            then && s' == s.(payments := s'.payments, nextId := s.nextId + 1)
                 && s'.payments == s.payments[s.nextId := s'.payments[s.nextId]]
                 && var p := s'.payments[s.nextId];
                 && p.disbursement == None && p.receiver == s.wallets[wallet].receiver && p.wallet == wallet
                 && p.asset == asset && p.amount == amount && p.status == ReadyPayment && p.transactionId == ""
                 && p.history == [Entry(ReadyPayment, s.now)] && p.updatedAt == s.now
            else s' == s
  {
  }
}
