/**
 The lifecycle tables as one mutable database. Each method is a statement of the data layer or a transaction of the
 services above it; a transaction that fails puts every table back.
 */
module Databases {
  import opened Statuses
  import opened StateMachines
  import opened Tables
  import opened Lifecycle
  import opened Runs

  class Database {
    var disbursements: map<Id, Disbursement>
    var payments: map<Id, Payment>
    var wallets: map<Id, Wallet>
    var receivers: map<Id, Receiver>
    var verifications: map<(Id, Field), Verification>
    var nextId: Id
    var now: int

    constructor ()
      ensures Snapshot() == EMPTY
    {
      disbursements, payments, wallets, receivers, verifications := map[], map[], map[], map[], map[];
      nextId, now := 0, 0;
    }

    function Snapshot(): Tables
      reads this
    {
      Tables(disbursements, payments, wallets, receivers, verifications, nextId, now)
    }

    /** Rolls back to the tables a transaction began with. */
    method Restore(begun: Tables)
      modifies this
      ensures Snapshot() == begun
    {
      disbursements, payments, wallets := begun.disbursements, begun.payments, begun.wallets;
      receivers, verifications := begun.receivers, begun.verifications;
      nextId, now := begun.nextId, begun.now;
    }

    // ---------- payments ----------

    /** The set-based update: the rows whose status is one of SourceStatuses(target) move, and the others stay. */
    method UpdatePaymentStatusByDisbursementID(d: Id, target: PaymentStatus)
      modifies this`payments
      ensures Snapshot() == old(Snapshot()).(payments :=
                MovePayments(old(payments), Movable(old(payments), d, target), target, old(now), None))
    {
      var sources := PaymentSourceStatuses(target);
      var selected := set id | id in payments && payments[id].disbursement == Some(d) && payments[id].status in sources;
      assert selected == Movable(payments, d, target);
      payments := MovePayments(payments, selected, target, now, None);
    }

    /** The bulk update by id checks every transition before it writes any row. */
    method UpdatePaymentStatuses(rows: seq<Id>, target: PaymentStatus) returns (outcome: Outcome)
      requires forall i | 0 <= i < |rows| :: rows[i] in payments
      modifies this`payments
      ensures outcome.Done? <==> forall i | 0 <= i < |rows| :: PaymentEdge(old(payments)[rows[i]].status, target)
      ensures outcome.Done? ==> Snapshot() == MoveIn(old(Snapshot()), Elements(rows), target, None)
      ensures outcome.Failed? ==> Snapshot() == old(Snapshot())
    {
      if |rows| == 0 {
        return Done;
      }
      for i := 0 to |rows|
        invariant payments == old(payments)
        invariant forall j | 0 <= j < i :: PaymentEdge(payments[rows[j]].status, target)
      {
        var ok := PaymentTransition(payments[rows[i]].status, target);
        if !ok {
          return Failed(InvalidTransition);
        }
      }
      var ids: set<Id> := {};
      for i := 0 to |rows|
        invariant payments == old(payments)
        invariant ids == Elements(rows[..i])
      {
        assert rows[..i + 1] == rows[..i] + [rows[i]];
        ids := ids + {rows[i]};
      }
      assert rows[..|rows|] == rows;
      payments := MovePayments(payments, ids, target, now, None);
      return Done;
    }

    method UpdatePayment(id: Id, target: PaymentStatus, transactionId: string) returns (outcome: Outcome)
      modifies this`payments
      ensures outcome.Done? <==>
                id in old(payments) && !Blank(transactionId) && PaymentEdge(old(payments)[id].status, target)
      ensures outcome.Done? ==> Snapshot() == MoveIn(old(Snapshot()), {id}, target, Some(transactionId))
      ensures outcome.Done? ==> id in payments && payments[id].transactionId == transactionId
      ensures outcome.Failed? ==> Snapshot() == old(Snapshot())
    {
      if Blank(transactionId) {
        return Failed(InvalidInput);
      }
      if id !in payments {
        return Failed(RecordNotFound);
      }
      var ok := PaymentTransition(payments[id].status, target);
      if !ok {
        return Failed(InvalidTransition);
      }
      payments := payments[id := MovedPayment(payments[id], target, now, Some(transactionId))];
      assert payments == MovePayments(old(payments), {id}, target, now, Some(transactionId));
      return Done;
    }

    method DeleteAllDraftForDisbursement(d: Id)
      modifies this`payments
      ensures Snapshot() == old(Snapshot()).(payments := WithoutDrafts(old(payments), d))
    {
      payments := map id | id in payments && !(payments[id].disbursement == Some(d)
                                               && payments[id].status == DraftPayment)
        :: payments[id];
    }

    method ValidateAll(rows: seq<Payment>) returns (valid: bool)
      ensures valid <==> forall i | 0 <= i < |rows| :: ValidAmount(rows[i].amount)
    {
      for i := 0 to |rows|
        invariant forall j | 0 <= j < i :: ValidAmount(rows[j].amount)
      {
        if !ValidAmount(rows[i].amount) {
          return false;
        }
      }
      return true;
    }

    /** All rows are validated before the first is inserted; inserted rows are numbered in order. */
    method InsertAllPayments(rows: seq<Payment>) returns (outcome: Outcome)
      requires forall id | id in payments :: id < nextId
      modifies this`payments, this`nextId
      ensures outcome.Done? <==> forall i | 0 <= i < |rows| :: ValidAmount(rows[i].amount)
      ensures outcome.Done? ==> Snapshot() == old(Snapshot()).(
                payments := old(payments) + Numbered(old(nextId), rows), nextId := old(nextId) + |rows|)
      ensures outcome.Failed? ==> Snapshot() == old(Snapshot())
    {
      var valid := ValidateAll(rows);
      if !valid {
        return Failed(InvalidInput);
      }
      for i := 0 to |rows|
        invariant payments == old(payments) + Numbered(old(nextId), rows[..i]) && nextId == old(nextId) + i
      {
        InsertedRow(old(payments), old(nextId), rows, i);
        payments := payments[nextId := rows[i]];
        nextId := nextId + 1;
      }
      assert rows[..|rows|] == rows;
      return Done;
    }

    method RetryFailedPayments(email: string, ids: seq<Id>) returns (outcome: Outcome)
      modifies this
      ensures outcome.Done? <==>
                && ids != [] && email != "" && Distinct(ids)
                && forall i | 0 <= i < |ids| :: ids[i] in old(payments) && old(payments)[ids[i]].status == FailedPayment
      ensures Snapshot() == Retried(old(Snapshot()), email, ids)
      ensures outcome.Done? ==> Snapshot() == MoveIn(old(Snapshot()), Elements(ids), ReadyPayment, Some(""))
      ensures Step(old(Snapshot()), Event.RetryFailedPayments(email, ids), Snapshot())
    {
      var begun := Snapshot();
      RetryIsAllOrNothing(payments, ids);
      if |ids| == 0 || email == "" {
        return Failed(MissingInput);
      }
      var failed := FailedAmong(payments, Elements(ids));
      payments := MovePayments(payments, failed, ReadyPayment, now, Some(""));
      if |failed| != |ids| {
        Restore(begun);
        return Failed(RowCountMismatch);
      }
      return Done;
    }

    method CancelPaymentsWithinPeriodDays(periodInDays: int)
      modifies this`payments
      ensures Snapshot() == AutoCanceled(old(Snapshot()), periodInDays)
      ensures Step(old(Snapshot()), Event.CancelReadyPayments(periodInDays), Snapshot())
    {
      var cutoff := now - periodInDays * DAY;
      payments := map id | id in payments ::
        if payments[id].status == ReadyPayment && ReadySince(payments[id].history, cutoff)
        then MovedPayment(payments[id], CanceledPayment, now, None) else payments[id];
      assert payments == AutoCanceled(old(Snapshot()), periodInDays).payments;
    }

    method CancelPayment(id: Id) returns (outcome: Outcome)
      modifies this`payments
      ensures outcome == if id !in old(payments) then Failed(RecordNotFound)
                         else if old(payments)[id].status != ReadyPayment then Failed(InvalidTransition) else Done
      ensures Snapshot() == Canceled(old(Snapshot()), id)
      ensures Step(old(Snapshot()), Event.CancelPayment(id), Snapshot())
    {
      if id !in payments {
        return Failed(RecordNotFound);
      }
      var ok := PaymentTransition(payments[id].status, CanceledPayment);
      if !ok {
        return Failed(InvalidTransition);
      }
      outcome := UpdatePaymentStatuses([id], CanceledPayment);
      assert Elements([id]) == {id};
    }

    method CreateDirectPayment(wallet: Id, asset: Id, amount: int) returns (outcome: Outcome)
      modifies this
      ensures outcome.Done? <==>
                wallet in old(wallets) && old(wallets)[wallet].status in {ReadyWallet, RegisteredWallet}
                  && ValidAmount(amount)
      ensures Snapshot() == WithDirectPayment(old(Snapshot()), wallet, asset, amount)
      ensures Step(old(Snapshot()), Event.CreateDirectPayment(wallet, asset, amount), Snapshot())
    {
      if wallet !in wallets {
        return Failed(RecordNotFound);
      }
      if wallets[wallet].status != ReadyWallet && wallets[wallet].status != RegisteredWallet {
        return Failed(InvalidInput);
      }
      if !ValidAmount(amount) {
        return Failed(InvalidInput);
      }
      payments := payments[nextId := Payment(None, wallets[wallet].receiver, wallet, asset, amount,
                                             ReadyPayment, [Entry(ReadyPayment, now)], "", now)];
      nextId := nextId + 1;
      return Done;
    }

    // ---------- sending ----------

    /** SELECT ... ORDER BY: the given rows in query order; rows that compare equal come in any order. */
    method Ordered(candidates: set<Id>) returns (rows: seq<Id>)
      requires candidates <= payments.Keys
      ensures Distinct(rows) && Elements(rows) == candidates
      ensures InOrder(payments, rows)
    {
      rows := [];
      var todo := candidates;
      while todo != {}
        invariant todo <= candidates
        invariant Distinct(rows) && Elements(rows) == candidates - todo
        invariant InOrder(payments, rows)
        invariant forall i, id | 0 <= i < |rows| && id in todo :: Precedes(payments[rows[i]], payments[id])
      {
        FirstExists(payments, todo);
        var next :| next in todo && forall id | id in todo :: Precedes(payments[next], payments[id]);
        assert next !in Elements(rows);
        DistinctSnoc(rows, next);
        assert Elements(rows + [next]) == Elements(rows) + {next};
        rows := rows + [next];
        todo := todo - {next};
      }
    }

    /** Disbursement payments, then direct payments, cut off at the batch size after they are combined. */
    method GetBatchForUpdate(batchSize: int) returns (outcome: Outcome, batch: seq<Id>)
      ensures outcome.Done? <==> batchSize > 0
      ensures outcome.Done? ==> IsBatch(Snapshot(), batchSize, batch)
    {
      if batchSize <= 0 {
        return Failed(InvalidInput), [];
      }
      var disbursementRows := Ordered(set id | id in payments && Eligible(Snapshot(), id)
                                      && payments[id].disbursement.Some?);
      var directRows := Ordered(set id | id in payments && Eligible(Snapshot(), id) && payments[id].disbursement.None?);
      var all := disbursementRows + directRows;
      AllEligible(Snapshot(), disbursementRows, directRows);
      if |all| > batchSize {
        PrefixIsBatch(Snapshot(), all, batchSize);
        all := all[..batchSize];
      } else {
        PrefixIsBatch(Snapshot(), all, |all|);
        assert all[..|all|] == all;
      }
      return Done, all;
    }

    /** Sorts a batch into the rows that can be sent and the rows whose amount or destination is unusable. */
    method SplitBatch(batch: seq<Id>) returns (failed: seq<Id>, pending: seq<Id>)
      requires Distinct(batch) && forall i | 0 <= i < |batch| :: Eligible(Snapshot(), batch[i])
      ensures Elements(pending) == Sendable(Snapshot(), Elements(batch))
      ensures Elements(failed) == Elements(batch) - Elements(pending)
    {
      failed, pending := [], [];
      for i := 0 to |batch|
        invariant Elements(pending) == Sendable(Snapshot(), Elements(batch[..i]))
        invariant Elements(failed) == Elements(batch[..i]) - Elements(pending)
      {
        assert batch[..i + 1] == batch[..i] + [batch[i]];
        assert Elements(batch[..i + 1]) == Elements(batch[..i]) + {batch[i]};
        DistinctAt(batch, i);
        ghost var wasFailed, wasPending := failed, pending;
        if ReadyForSending(Snapshot(), batch[i]) {
          pending := pending + [batch[i]];
          assert Elements(pending) == Elements(wasPending) + {batch[i]};
        } else {
          failed := failed + [batch[i]];
          assert Elements(failed) == Elements(wasFailed) + {batch[i]};
        }
      }
      assert batch[..|batch|] == batch;
    }

    /** Takes a batch, fails the rows that cannot be sent and hands the others over. */
    method SendPaymentsReadyToPay(batchSize: int) returns (outcome: Outcome, batch: seq<Id>)
      modifies this
      ensures outcome.Done? <==> batchSize > 0
      ensures outcome.Done? ==>
                IsBatch(old(Snapshot()), batchSize, batch) && Snapshot() == Dispatched(old(Snapshot()), Elements(batch))
      ensures outcome.Failed? ==> Snapshot() == old(Snapshot())
      ensures Step(old(Snapshot()), SendBatch(batchSize, batch), Snapshot())
    {
      outcome, batch := GetBatchForUpdate(batchSize);
      if outcome.Failed? {
        return;
      }
      var failed, pending := SplitBatch(batch);
      assert forall i | 0 <= i < |failed| :: failed[i] in Elements(failed);
      assert forall i | 0 <= i < |pending| :: pending[i] in Elements(pending);
      assert forall id | id in Elements(batch) :: Eligible(Snapshot(), id);
      outcome := UpdatePaymentStatuses(failed, FailedPayment);
      outcome := UpdatePaymentStatuses(pending, PendingPayment);
    }

    method SyncPaymentWithTransaction(id: Id, succeeded: bool, transactionId: string) returns (outcome: Outcome)
      modifies this
      ensures outcome.Done? <==>
                id in old(payments) && !Blank(transactionId)
                  && PaymentEdge(old(payments)[id].status, SyncTarget(succeeded))
      ensures Snapshot() == Synced(old(Snapshot()), id, succeeded, transactionId)
      ensures Step(old(Snapshot()), Event.SyncPayment(id, succeeded, transactionId), Snapshot())
    {
      if id !in payments {
        return Failed(RecordNotFound);
      }
      var disbursement := payments[id].disbursement;
      outcome := UpdatePayment(id, if succeeded then SuccessPayment else FailedPayment, transactionId);
      if outcome.Done? && disbursement.Some? {
        CompleteDisbursements({disbursement.value});
      }
    }

    /**
     Writes a status without asking the transition table. On a PENDING payment with a final status it is the
     reconciliation of the lifecycle; the Circle dispatchers also call it on the READY payments they submit.
     */
    method UpdatePaymentStatus(id: Id, target: PaymentStatus, transactionId: string) returns (outcome: Outcome)
      modifies this`payments
      ensures outcome == if id in old(payments) then Done else Failed(RecordNotFound)
      ensures Snapshot() == MoveIn(old(Snapshot()), {id}, target,
                                   if transactionId != "" then Some(transactionId) else None)
      ensures id in old(payments) && old(payments)[id].status == PendingPayment
              && target in {SuccessPayment, FailedPayment} ==>
                Step(old(Snapshot()), ReconcilePayment(id, target == SuccessPayment, transactionId), Snapshot())
    {
      var hash := if transactionId != "" then Some(transactionId) else None;
      if id !in payments {
        assert payments == MovePayments(payments, {id}, target, now, hash);
        return Failed(RecordNotFound);
      }
      payments := payments[id := MovedPayment(payments[id], target, now, hash)];
      assert payments == MovePayments(old(payments), {id}, target, now, hash);
      return Done;
    }

    // ---------- disbursements ----------

    method UpdateDisbursementStatus(d: Id, target: DisbursementStatus) returns (outcome: Outcome)
      modifies this`disbursements
      ensures outcome.Done? <==> d in old(disbursements) && DisbursementEdge(old(disbursements)[d].status, target)
      ensures outcome.Done? ==>
                Snapshot() == old(Snapshot()).(
                  disbursements := MoveDisbursements(old(disbursements), {d}, target, old(now)))
      ensures outcome.Failed? ==> Snapshot() == old(Snapshot())
    {
      var sources := DisbursementSourceStatuses(target);
      if d !in disbursements || disbursements[d].status !in sources {
        return Failed(RowCountMismatch);
      }
      disbursements := MoveDisbursements(disbursements, {d}, target, now);
      return Done;
    }

    method UpdateDisbursementFile(d: Id, file: File) returns (outcome: Outcome)
      modifies this`disbursements
      ensures outcome.Done? <==> d in old(disbursements) && file.name != "" && file.content != ""
      ensures outcome.Done? ==> Snapshot() == old(Snapshot()).(
                disbursements := old(disbursements)[d := old(disbursements)[d].(file := Some(file))])
      ensures outcome.Failed? ==> Snapshot() == old(Snapshot())
    {
      if file.name == "" || file.content == "" {
        return Failed(InvalidInput);
      }
      if d !in disbursements {
        return Failed(RowCountMismatch);
      }
      disbursements := disbursements[d := disbursements[d].(file := Some(file))];
      return Done;
    }

    method CompleteDisbursements(ids: set<Id>)
      modifies this`disbursements
      ensures Snapshot() == CompletedStrictly(old(Snapshot()), ids)
    {
      var incomplete := set id | id in payments && payments[id].disbursement.Some?
        && payments[id].status != SuccessPayment
                                 :: payments[id].disbursement.value;
      var completed := set d | d in disbursements && d in ids && disbursements[d].status == StartedDisbursement
        && d !in incomplete;
      assert completed == StrictlyCompletable(disbursements, payments, ids);
      disbursements := MoveDisbursements(disbursements, completed, CompletedDisbursement, now);
    }

    method CompleteIfNecessary()
      modifies this`disbursements
      ensures Snapshot() == Completed(old(Snapshot()))
      ensures Step(old(Snapshot()), Event.CompleteIfNecessary, Snapshot())
    {
      var completed := set d | d in disbursements && disbursements[d].status == StartedDisbursement
                               && !exists id | id in payments ::
                                    payments[id].disbursement == Some(d) && !Final(payments[id].status);
      assert completed == Completable(disbursements, payments);
      disbursements := MoveDisbursements(disbursements, completed, CompletedDisbursement, now);
    }

    method StartDisbursement(d: Id) returns (outcome: Outcome)
      modifies this
      ensures outcome == if d !in old(disbursements) then Failed(RecordNotFound)
                         else if old(disbursements)[d].status in {ReadyDisbursement, PausedDisbursement} then Done
                         else Failed(InvalidTransition)
      ensures Snapshot() == Started(old(Snapshot()), d)
      ensures Step(old(Snapshot()), Event.StartDisbursement(d), Snapshot())
    {
      if d !in disbursements {
        return Failed(RecordNotFound);
      }
      var ok := DisbursementTransition(disbursements[d].status, StartedDisbursement);
      if !ok {
        return Failed(InvalidTransition);
      }
      UpdatePaymentStatusByDisbursementID(d, ReadyPayment);
      outcome := UpdateWalletStatusByDisbursementID(d, DraftWallet, ReadyWallet);
      outcome := UpdateWalletStatusByDisbursementID(d, ReadyWallet, RegisteredWallet);
      outcome := UpdateDisbursementStatus(d, StartedDisbursement);
    }

    method PauseDisbursement(d: Id) returns (outcome: Outcome)
      modifies this
      ensures outcome == if d !in old(disbursements) then Failed(RecordNotFound)
                         else if old(disbursements)[d].status == StartedDisbursement then Done
                         else Failed(InvalidTransition)
      ensures Snapshot() == Paused(old(Snapshot()), d)
      ensures Step(old(Snapshot()), Event.PauseDisbursement(d), Snapshot())
    {
      if d !in disbursements {
        return Failed(RecordNotFound);
      }
      var ok := DisbursementTransition(disbursements[d].status, PausedDisbursement);
      if !ok {
        return Failed(InvalidTransition);
      }
      UpdatePaymentStatusByDisbursementID(d, PausedPayment);
      outcome := UpdateDisbursementStatus(d, PausedDisbursement);
    }

    /** The drafts go first; a payment that is left makes the foreign key refuse, and the drafts come back. */
    method DeleteDisbursement(d: Id) returns (outcome: Outcome)
      modifies this
      ensures outcome.Done? <==> && d in old(disbursements) && NotStarted(old(disbursements)[d].status)
                                 && PaymentsOf(WithoutDrafts(old(payments), d), d) == {}
      ensures Snapshot() == Deleted(old(Snapshot()), d)
      ensures Step(old(Snapshot()), Event.DeleteDisbursement(d), Snapshot())
    {
      var begun := Snapshot();
      if d !in disbursements {
        return Failed(RecordNotFound);
      }
      if !NotStarted(disbursements[d].status) {
        return Failed(InvalidTransition);
      }
      DeleteAllDraftForDisbursement(d);
      if exists id | id in payments :: payments[id].disbursement == Some(d) {
        ghost var left :| left in payments && payments[left].disbursement == Some(d);
        assert left in PaymentsOf(payments, d);
        Restore(begun);
        return Failed(ConstraintViolation);
      }
      assert PaymentsOf(payments, d) == {};
      disbursements := disbursements - {d};
      return Done;
    }

    method InsertDisbursement(provider: Id, asset: Id, contactType: ContactType, includesWalletAddress: bool,
                              verificationField: Option<Field>)
      returns (id: Id)
      modifies this`disbursements, this`nextId
      ensures id == old(nextId)
      ensures Step(old(Snapshot()),
                   Event.InsertDisbursement(provider, asset, contactType, includesWalletAddress, verificationField),
                   Snapshot())
    {
      id := nextId;
      disbursements := disbursements[id := Disbursement(DraftDisbursement, [Entry(DraftDisbursement, now)], provider,
                                                        asset,
                                                        contactType, includesWalletAddress, verificationField, None)];
      nextId := nextId + 1;
    }

    // ---------- receivers and verifications ----------

    /** The database refuses a receiver without contact, and one whose phone or e-mail is taken up to letter case. */
    method InsertReceiver(row: Receiver) returns (outcome: Outcome)
      modifies this`receivers, this`nextId
      ensures outcome.Done? <==> (row.phone != "" || row.email != "") && !ContactTaken(old(receivers), row)
      ensures outcome.Done? ==> receivers == old(receivers)[old(nextId) := row] && nextId == old(nextId) + 1
      ensures outcome.Failed? ==> receivers == old(receivers) && nextId == old(nextId)
      ensures WellFormedContacts(row.phone, row.email) ==> Snapshot() == WithReceiver(old(Snapshot()), row)
    {
      if row.phone == "" && row.email == "" {
        return Failed(ConstraintViolation);
      }
      if ContactTaken(receivers, row) {
        return Failed(ConstraintViolation);
      }
      receivers := receivers[nextId := row];
      nextId := nextId + 1;
      return Done;
    }

    method UpdateReceiver(id: Id, contacts: ReceiverUpdate) returns (outcome: Outcome)
      modifies this`receivers
      ensures outcome.Done? <==> (&& ValidReceiverUpdate(contacts)
                                  && (id in old(receivers) ==>
                                        !ContactTaken(old(receivers) - {id},
                                                      UpdatedReceiver(old(receivers)[id], contacts))))
      ensures Step(old(Snapshot()), Event.UpdateReceiver(id, contacts), Snapshot())
    {
      if !ValidReceiverUpdate(contacts) {
        return Failed(InvalidInput);
      }
      if id !in receivers {
        return Done;
      }
      var row := receivers[id];
      if contacts.phone.Some? {
        row := row.(phone := contacts.phone.value);
      }
      if contacts.email.Some? {
        row := row.(email := contacts.email.value);
      }
      if ContactTaken(receivers - {id}, row) {
        return Failed(ConstraintViolation);
      }
      receivers := receivers[id := row];
      return Done;
    }

    method ConfirmVerification(receiver: Id, field: Field)
      modifies this`verifications
      ensures Step(old(Snapshot()), Event.ConfirmVerification(receiver, field), Snapshot())
    {
      if (receiver, field) in verifications {
        var confirmed := verifications[(receiver, field)].(confirmedAt := Some(now));
        verifications := verifications[(receiver, field) := confirmed];
      }
    }

    /** A user's deliberate overwrite: it replaces the value even when it is confirmed, and keeps the confirmation. */
    method UpsertVerificationValue(receiver: Id, field: Field, value: string) returns (outcome: Outcome)
      modifies this`verifications
      ensures outcome.Done? <==> receiver in receivers
      ensures Step(old(Snapshot()), UpsertVerification(receiver, field, value), Snapshot())
    {
      if receiver !in receivers {
        return Failed(ConstraintViolation);
      }
      if (receiver, field) in verifications {
        verifications := verifications[(receiver, field) := verifications[(receiver, field)].(hash := Hashed(value))];
      } else {
        verifications := verifications[(receiver, field) := Verification(Hashed(value), None)];
      }
      return Done;
    }

    // ---------- receiver wallets ----------

    /** One wallet per receiver and provider. */
    method GetOrInsertReceiverWallet(receiver: Id, provider: Id) returns (outcome: Outcome)
      modifies this`wallets, this`nextId
      ensures outcome.Done? <==> (&& receiver in receivers
                                  && !exists w | w in old(wallets) ::
                                       old(wallets)[w].receiver == receiver && old(wallets)[w].provider == provider)
      ensures outcome.Done? ==>
                wallets == old(wallets)[old(nextId) := NewWallet(receiver, provider, now)] && nextId == old(nextId) + 1
      ensures outcome.Failed? ==> wallets == old(wallets) && nextId == old(nextId)
    {
      if receiver !in receivers {
        return Failed(ConstraintViolation);
      }
      if exists w | w in wallets :: wallets[w].receiver == receiver && wallets[w].provider == provider {
        return Failed(ConstraintViolation);
      }
      wallets := wallets[nextId := NewWallet(receiver, provider, now)];
      nextId := nextId + 1;
      return Done;
    }

    method UpdateInvitationSentAt(ids: set<Id>)
      modifies this`wallets
      ensures Step(old(Snapshot()), MarkInvited(ids), Snapshot())
    {
      wallets := map w | w in wallets ::
        if w in ids && wallets[w].status == ReadyWallet then wallets[w].(invitationSentAt := Some(now)) else wallets[w];
      assert Snapshot() == Invited(old(Snapshot()), ids);
    }

    method UpdateWalletStatusByDisbursementID(d: Id, from: WalletStatus,
                                        target: WalletStatus) returns (outcome: Outcome)
      modifies this`wallets
      ensures outcome.Done? <==> WalletEdge(from, target)
      ensures Snapshot() == WalletsMoved(old(Snapshot()), d, from, target)
      ensures Step(old(Snapshot()), Event.MoveWalletsOf(d, from, target), Snapshot())
    {
      var ok := WalletTransition(from, target);
      if !ok {
        return Failed(InvalidTransition);
      }
      wallets := MoveWallets(wallets, WalletsOf(payments, wallets, d, from, target), target, now);
      return Done;
    }

    /** Checks, then the SET clause field by field; a taken address fails the statement, as the trigger does. */
    method UpdateWallet(id: Id, update: WalletUpdate) returns (outcome: Outcome)
      modifies this`wallets
      ensures outcome == WalletUpdateOutcome(old(wallets), id, update)
      ensures Snapshot() == WithWalletUpdate(old(Snapshot()), id, update)
      ensures Step(old(Snapshot()), Event.UpdateWallet(id, update), Snapshot())
    {
      if update.status.None? && update.address.NoAddress? && update.memo.None? {
        return Failed(InvalidInput);
      }
      if update.address.Malformed? {
        return Failed(InvalidInput);
      }
      if update.memo.Some? {
        var address := update.address;
        if address == NoAddress {
          if id !in wallets {
            return Failed(RecordNotFound);
          }
          address := wallets[id].address;
        }
        if address.Contract? && update.memo.value != "" {
          return Failed(MemosNotSupported);
        }
      }
      if id !in wallets {
        return Failed(RecordNotFound);
      }
      var row := wallets[id];
      if update.status.Some? {
        row := row.(status := update.status.value, history := [Entry(update.status.value, now)] + row.history);
      }
      if update.address != NoAddress {
        row := row.(address := update.address);
      }
      if update.memo.Some? {
        row := row.(memo := update.memo.value);
      }
      if row.address != NoAddress && AddressTaken(wallets, row.receiver, row.address) {
        return Failed(DuplicateWalletAddress);
      }
      wallets := wallets[id := row];
      return Done;
    }

    /** Unregisters a wallet, in the order of its checks. */
    method UpdateWalletStatusToReady(id: Id, userManaged: bool) returns (outcome: Outcome)
      modifies this`wallets
      ensures outcome == if id !in old(wallets) then Failed(RecordNotFound)
                         else if old(wallets)[id].status != RegisteredWallet then Failed(WalletNotRegistered)
                         else if userManaged then Failed(UserManagedWallet)
                         else if HasPaymentsInProgress(old(payments), id) then Failed(PaymentsInProgress) else Done
      ensures Snapshot() == Unregistered(old(Snapshot()), id, userManaged)
      ensures Step(old(Snapshot()), Event.UnregisterWallet(id, userManaged), Snapshot())
    {
      if id !in wallets {
        return Failed(RecordNotFound);
      }
      if wallets[id].status != RegisteredWallet {
        return Failed(WalletNotRegistered);
      }
      if userManaged {
        return Failed(UserManagedWallet);
      }
      if HasPaymentsInProgress(payments, id) {
        return Failed(PaymentsInProgress);
      }
      wallets := wallets[id := UnregisteredWallet(wallets[id], now)];
      return Done;
    }
  }

  lemma InsertedRow<T>(table: map<Id, T>, first: Id, rows: seq<T>, i: nat)
    requires i < |rows|
    ensures (table + Numbered(first, rows[..i]))[first + i := rows[i]] == table + Numbered(first, rows[..i + 1])
  {
    assert rows[..i + 1][..i] == rows[..i];
    assert Numbered(first, rows[..i + 1]) == Numbered(first, rows[..i])[first + i := rows[i]];
  }

  // ---------- query order ----------

  ghost predicate InOrder(payments: map<Id, Payment>, rows: seq<Id>) {
    && (forall i | 0 <= i < |rows| :: rows[i] in payments)
    && forall i, j | 0 <= i < j < |rows| :: Precedes(payments[rows[i]], payments[rows[j]])
  }

  /** A non-empty set of rows has one that no other has to precede. */
  lemma {:induction false} FirstExists(payments: map<Id, Payment>, ids: set<Id>)
    requires ids != {} && ids <= payments.Keys
    ensures exists next :: next in ids && forall id | id in ids :: Precedes(payments[next], payments[id])
    decreases |ids|
  {
    var x :| x in ids;
    var others := ids - {x};
    if others == {} {
      forall id | id in ids ensures Precedes(payments[x], payments[id]) {
        assert id !in others;
      }
    } else {
      FirstExists(payments, others);
      var y :| y in others && forall id | id in others :: Precedes(payments[y], payments[id]);
      var next := if Precedes(payments[x], payments[y]) then x else y;
      forall id | id in ids ensures Precedes(payments[next], payments[id]) {
        if id != x { assert id in others; }
      }
    }
  }

  lemma DistinctAt(ids: seq<Id>, i: nat)
    requires Distinct(ids) && i < |ids|
    ensures ids[i] !in Elements(ids[..i])
  {
  }

  /** The combined answer lists every eligible row once, in query order. */
  ghost predicate InQueryOrder(s: Tables, rows: seq<Id>) {
    Distinct(rows) && Elements(rows) == EligiblePayments(s) && InOrder(s.payments, rows)
  }

  lemma AllEligible(s: Tables, fromDisbursements: seq<Id>, direct: seq<Id>)
    requires Distinct(fromDisbursements) && Distinct(direct)
    requires Elements(fromDisbursements) == set id | id in s.payments && Eligible(s, id)
             && s.payments[id].disbursement.Some?
    requires Elements(direct) == set id | id in s.payments && Eligible(s, id) && s.payments[id].disbursement.None?
    requires InOrder(s.payments, fromDisbursements) && InOrder(s.payments, direct)
    ensures InQueryOrder(s, fromDisbursements + direct)
  {
    var all := fromDisbursements + direct;
    assert Elements(all) == Elements(fromDisbursements) + Elements(direct);
    assert forall i | 0 <= i < |fromDisbursements| :: fromDisbursements[i] in Elements(fromDisbursements);
    assert forall i | 0 <= i < |direct| :: direct[i] in Elements(direct);
  }

  lemma PrefixIsBatch(s: Tables, rows: seq<Id>, n: nat)
    requires InQueryOrder(s, rows) && n <= |rows|
    ensures forall size | size > 0 && n == Min(size, |rows|) :: IsBatch(s, size, rows[..n])
  {
    ElementsCount(rows);
    forall i | 0 <= i < |rows| ensures Eligible(s, rows[i]) {
      assert rows[i] in Elements(rows);
    }
    assert forall k | 0 <= k < n :: rows[..n][k] == rows[k];
    forall i, id | 0 <= i < n && Eligible(s, id) && id !in rows[..n]
      ensures Precedes(s.payments[rows[i]], s.payments[id])
    {
      assert id in Elements(rows);
      var j :| 0 <= j < |rows| && rows[j] == id;
    }
  }
}
