/** What holds over whole runs of the lifecycle, starting from empty tables. */
module Runs {
  import opened Statuses
  import opened Tables
  import opened Lifecycle
  import opened Invariants
  import opened Steps

  /** states[i + 1] is what events[i] makes of states[i]. */
  ghost predicate IsRun(states: seq<Tables>, events: seq<Event>) {
    && |states| == |events| + 1
    && states[0] == EMPTY
    && forall i, j | 0 <= i && j == i + 1 < |states| :: Step(states[i], events[i], states[j])
  }

  lemma {:induction false} InvAlways(states: seq<Tables>, events: seq<Event>, i: nat)
    requires IsRun(states, events) && i < |states|
    ensures Inv(states[i])
  {
    if i > 0 {
      InvAlways(states, events, i - 1);
      StepKeepsInv(states[i - 1], events[i - 1], states[i]);
    }
  }

  lemma FrameOfStep(states: seq<Tables>, events: seq<Event>, i: nat, j: nat)
    requires IsRun(states, events) && j == i + 1 < |states|
    ensures Frame(states[i], states[j])
  {
    InvAlways(states, events, i);
    StepKeepsInv(states[i], events[i], states[j]);
  }

  ghost predicate Framed(states: seq<Tables>) {
    forall i, j | 0 <= i && j == i + 1 < |states| :: Frame(states[i], states[j])
  }

  lemma {:induction false} FramedBetween(states: seq<Tables>, i: nat, j: nat)
    requires Framed(states) && i <= j < |states|
    ensures Frame(states[i], states[j])
    decreases j
  {
    if i == j {
      FrameRefl(states[i]);
    } else {
      FramedBetween(states, i, j - 1);
      FrameTrans(states[i], states[j - 1], states[j]);
    }
  }

  lemma FrameBetween(states: seq<Tables>, events: seq<Event>, i: nat, j: nat)
    requires IsRun(states, events) && i <= j < |states|
    ensures Frame(states[i], states[j])
  {
    forall k, l | 0 <= k && l == k + 1 < |states| ensures Frame(states[k], states[l]) {
      FrameOfStep(states, events, k, l);
    }
    FramedBetween(states, i, j);
  }

  // ---------- what may be PENDING ----------

  /** A payment handed over for submission always has a destination. */
  lemma PendingPaymentsHaveAnAddress(states: seq<Tables>, events: seq<Event>, i: nat, p: Id)
    requires IsRun(states, events) && i < |states|
    requires p in states[i].payments && states[i].payments[p].status == PendingPayment
    ensures states[i].payments[p].wallet in states[i].wallets
    ensures states[i].wallets[states[i].payments[p].wallet].address != NoAddress
  {
    InvAlways(states, events, i);
    assert PayInv(states[i]);
  }

  /** No Stellar address is ever shared by two receivers. */
  lemma AddressesAreNeverShared(states: seq<Tables>, events: seq<Event>, i: nat, v: Id, w: Id)
    requires IsRun(states, events) && i < |states| && v in states[i].wallets && w in states[i].wallets
    requires states[i].wallets[v].address == states[i].wallets[w].address != NoAddress
    ensures states[i].wallets[v].receiver == states[i].wallets[w].receiver
  {
    InvAlways(states, events, i);
    assert WalletsConsistent(states[i].wallets);
  }

  // ---------- what COMPLETED means ----------

  /**
   A completed disbursement and the set and rows of its payments never change again, and each was sent or canceled.
   */
  lemma CompletedForever(states: seq<Tables>, events: seq<Event>, i: nat, j: nat, d: Id)
    requires IsRun(states, events) && i <= j < |states|
    requires d in states[i].disbursements && states[i].disbursements[d].status == CompletedDisbursement
    ensures d in states[j].disbursements && states[j].disbursements[d] == states[i].disbursements[d]
    ensures RowsOf(states[j].payments, d) == RowsOf(states[i].payments, d)
    ensures forall p | p in RowsOf(states[j].payments, d) :: Final(states[j].payments[p].status)
  {
    FrameBetween(states, events, i, j);
    assert StaysCompleted(states[i], states[j], d);
    InvAlways(states, events, j);
    assert PayInv(states[j]);
    forall p | p in RowsOf(states[j].payments, d) ensures Final(states[j].payments[p].status) {
      assert PaymentOk(states[j].payments[p], states[j].disbursements, states[j].wallets, states[j].now);
    }
  }

  /** The strict query completes only what the lenient one would; what it leaves out has a canceled payment. */
  lemma StrictCompletionIsLenient(ds: map<Id, Disbursement>, ps: map<Id, Payment>, ids: set<Id>, d: Id)
    ensures d in StrictlyCompletable(ds, ps, ids) <==>
            d in ids && d in Completable(ds, ps)
            && !exists p | p in ps :: ps[p].disbursement == Some(d) && ps[p].status == CanceledPayment
  {
  }

  // ---------- starting, pausing and resuming ----------

  /** Starting readies a wallet, and registers it at once when its address is known. */
  function StatusAfterStart(w: Wallet): WalletStatus {
    if w.status != DraftWallet && w.status != ReadyWallet then w.status
    else if w.address == NoAddress then ReadyWallet
    else RegisteredWallet
  }

  /** A start leaves no payment of the disbursement and no wallet it pays behind. */
  lemma StartReadiesEverything(states: seq<Tables>, events: seq<Event>, i: nat, d: Id, p: Id)
    requires IsRun(states, events) && i < |states|
    requires d in states[i].disbursements && states[i].disbursements[d].status == ReadyDisbursement
    requires p in states[i].payments && states[i].payments[p].disbursement == Some(d)
    ensures var s, s', w := states[i], Started(states[i], d), states[i].payments[p].wallet;
            && s'.disbursements[d].status == StartedDisbursement
            && s'.payments[p].status == ReadyPayment
            && w in s.wallets && s'.wallets[w].status == StatusAfterStart(s.wallets[w])
  {
    InvAlways(states, events, i);
    assert PayInv(states[i]);
    StartedRows(states[i], d, p);
  }

  lemma StartedRows(s: Tables, d: Id, p: Id)
    requires d in s.disbursements && s.disbursements[d].status == ReadyDisbursement
    requires p in s.payments && s.payments[p].disbursement == Some(d)
    requires s.payments[p].status == DraftPayment && s.payments[p].wallet in s.wallets
    ensures var s', w := Started(s, d), s.payments[p].wallet;
            && s'.disbursements[d].status == StartedDisbursement
            && s'.payments[p].status == ReadyPayment
            && s'.wallets[w].status == StatusAfterStart(s.wallets[w])
  {
  }

  /** Pausing and resuming puts every payment back where it was and touches no other disbursement's payments. */
  lemma ResumingUndoesPausing(states: seq<Tables>, events: seq<Event>, i: nat, d: Id, p: Id)
    requires IsRun(states, events) && i < |states| && p in states[i].payments
    requires d in states[i].disbursements && states[i].disbursements[d].status == StartedDisbursement
    ensures var s, s' := states[i], Started(Paused(states[i], d), d);
            && s'.disbursements[d].status == StartedDisbursement
            && p in s'.payments && s'.payments[p].status == s.payments[p].status
            && (s.payments[p].disbursement != Some(d) ==> s'.payments[p] == s.payments[p])
    ensures states[i].payments[p].disbursement == Some(d) ==> Paused(states[i], d).payments[p].status != ReadyPayment
  {
    InvAlways(states, events, i);
    assert PayInv(states[i]);
    assert PaymentOk(states[i].payments[p], states[i].disbursements, states[i].wallets, states[i].now);
    PausedAndResumedRow(states[i], d, p);
  }

  lemma PausedRow(s: Tables, d: Id, p: Id)
    requires d in s.disbursements && s.disbursements[d].status == StartedDisbursement && p in s.payments
    ensures var s' := Paused(s, d);
            && d in s'.disbursements && s'.disbursements[d].status == PausedDisbursement && p in s'.payments
            && s'.payments[p]
               == if s.payments[p].disbursement == Some(d) && s.payments[p].status == ReadyPayment
                  then MovedPayment(s.payments[p], PausedPayment, s.now, None) else s.payments[p]
  {
  }

  lemma ResumedRow(s: Tables, d: Id, p: Id)
    requires d in s.disbursements && s.disbursements[d].status == PausedDisbursement && p in s.payments
    ensures var s' := Started(s, d);
            && d in s'.disbursements && s'.disbursements[d].status == StartedDisbursement && p in s'.payments
            && s'.payments[p]
               == if s.payments[p].disbursement == Some(d) && PaymentEdge(s.payments[p].status, ReadyPayment)
                  then MovedPayment(s.payments[p], ReadyPayment, s.now, None) else s.payments[p]
  {
  }

  lemma PausedAndResumedRow(s: Tables, d: Id, p: Id)
    requires d in s.disbursements && s.disbursements[d].status == StartedDisbursement && p in s.payments
    requires s.payments[p].disbursement == Some(d) ==>
               s.payments[p].status != PausedPayment && s.payments[p].status != DraftPayment
    ensures var s' := Started(Paused(s, d), d);
            && s'.disbursements[d].status == StartedDisbursement
            && p in s'.payments && s'.payments[p].status == s.payments[p].status
            && (s.payments[p].disbursement != Some(d) ==> s'.payments[p] == s.payments[p])
    ensures s.payments[p].disbursement == Some(d) ==> Paused(s, d).payments[p].status != ReadyPayment
  {
    PausedRow(s, d, p);
    ResumedRow(Paused(s, d), d, p);
  }

  // ---------- drafts ----------

  lemma DraftIffNotStarted(states: seq<Tables>, events: seq<Event>, i: nat, p: Id, d: Id)
    requires IsRun(states, events) && i < |states|
    requires p in states[i].payments && states[i].payments[p].disbursement == Some(d)
    ensures d in states[i].disbursements
    ensures states[i].payments[p].status == DraftPayment <==> NotStarted(states[i].disbursements[d].status)
    ensures states[i].payments[p].status == PausedPayment ==> states[i].disbursements[d].status == PausedDisbursement
  {
    InvAlways(states, events, i);
    assert PayInv(states[i]);
  }

  lemma ReplacedRows(ps: map<Id, Payment>, d: Id, first: Id, drafts: seq<Payment>)
    requires PaymentsOf(WithoutDrafts(ps, d), d) == {}
    requires forall i | 0 <= i < |drafts| :: drafts[i].disbursement == Some(d)
    ensures RowsOf(WithoutDrafts(ps, d) + Numbered(first, drafts), d) == Numbered(first, drafts)
  {
    var after := WithoutDrafts(ps, d) + Numbered(first, drafts);
    forall id | id in RowsOf(after, d) ensures id in Numbered(first, drafts) {
      assert id !in PaymentsOf(WithoutDrafts(ps, d), d);
    }
  }

  lemma UploadReplacesRows(s: Tables, u: Upload, row: Disbursement, after: Tables, owners: seq<Id>, walletIds: seq<Id>,
                           first: Id)
    requires PayInv(s) && u.disbursement in s.disbursements && row == s.disbursements[u.disbursement]
    requires PaymentsUploaded(s, u, row, after, owners, walletIds, first)
    ensures RowsOf(after.payments, u.disbursement) == Numbered(first, DraftsFor(u, row, owners, walletIds, s.now))
    ensures forall e | e != u.disbursement :: RowsOf(after.payments, e) == RowsOf(s.payments, e)
  {
    NothingSurvivesReupload(s, u.disbursement);
    var drafts := DraftsFor(u, row, owners, walletIds, s.now);
    ReplacedRows(s.payments, u.disbursement, first, drafts);
    forall e | e != u.disbursement ensures RowsOf(after.payments, e) == RowsOf(s.payments, e) {
      OtherRowsSurvive(s.payments, u.disbursement, first, drafts, e);
    }
  }

  /**
   After a successful upload the disbursement's payments are exactly the drafts of this file, whatever was uploaded
   before, and the payments of other disbursements are as they were.
   */
  lemma ReuploadReplacesEverything(states: seq<Tables>, events: seq<Event>, i: nat, u: Upload, row: Disbursement,
                                   after: Tables,
                                   owners: seq<Id>, walletIds: seq<Id>, first: Id)
    requires IsRun(states, events) && i < |states|
    requires u.disbursement in states[i].disbursements && row == states[i].disbursements[u.disbursement]
    requires PaymentsUploaded(states[i], u, row, after, owners, walletIds, first)
    ensures RowsOf(after.payments, u.disbursement)
            == Numbered(first, DraftsFor(u, row, owners, walletIds, states[i].now))
    ensures forall e | e != u.disbursement :: RowsOf(after.payments, e) == RowsOf(states[i].payments, e)
  {
    InvAlways(states, events, i);
    UploadReplacesRows(states[i], u, row, after, owners, walletIds, first);
  }

  // ---------- payment histories ----------

  lemma HistoryShape(p: Payment, now: int, k: nat)
    requires PaymentHistoryOk(p, now) && k < |p.history|
    ensures Final(p.history[k].status) ==> k == |p.history| - 1
    ensures p.history[k].status == SuccessPayment ==> k > 0 && p.history[k - 1].status == PendingPayment
    ensures p.history[k].status == PendingPayment ==> k > 0 && p.history[k - 1].status == ReadyPayment
    ensures p.history[k].status == CanceledPayment ==> k > 0 && p.history[k - 1].status == ReadyPayment
    ensures p.history[k].status == FailedPayment && k + 1 < |p.history| ==> p.history[k + 1].status == ReadyPayment
  {
    var h := p.history;
    if k > 0 { assert HistoryEdge(h[k - 1].status, h[k].status); }
    if k + 1 < |h| { assert HistoryEdge(h[k].status, h[k + 1].status); }
  }

  /**
   A history records the life of a payment: its last entry is the current status, SUCCESS and CANCELED only close it,
   SUCCESS comes from PENDING and PENDING from READY, and a FAILED payment goes on only as READY.
   */
  lemma HistoryTellsTheLife(states: seq<Tables>, events: seq<Event>, i: nat, p: Id, k: nat)
    requires IsRun(states, events) && i < |states| && p in states[i].payments
    requires k < |states[i].payments[p].history|
    ensures var h := states[i].payments[p].history;
            && Last(h).status == states[i].payments[p].status
            && (Final(h[k].status) ==> k == |h| - 1)
            && (h[k].status == SuccessPayment ==> k > 0 && h[k - 1].status == PendingPayment)
            && (h[k].status == PendingPayment ==> k > 0 && h[k - 1].status == ReadyPayment)
            && (h[k].status == CanceledPayment ==> k > 0 && h[k - 1].status == ReadyPayment)
            && (h[k].status == FailedPayment && k + 1 < |h| ==> h[k + 1].status == ReadyPayment)
  {
    InvAlways(states, events, i);
    assert PayInv(states[i]);
    HistoryShape(states[i].payments[p], states[i].now, k);
  }

  /** Automatic cancellation takes exactly the payments whose last entry is READY and old enough. */
  lemma StaleIffLastEntryOld(s: Tables, periodInDays: int, p: Id)
    requires PayInv(s) && p in s.payments
    ensures p in Stale(s, periodInDays) <==>
            s.payments[p].status == ReadyPayment && Last(s.payments[p].history).timestamp <= s.now - periodInDays * DAY
  {
  }

  /**
   A payment canceled automatically has been READY, with the same history, at every moment of the whole period: a retry
   or a resumption in between would have restarted the window.
   */
  lemma CanceledOnlyAfterUninterruptedWait(states: seq<Tables>, events: seq<Event>, i: nat, j: nat,
                                        periodInDays: int, p: Id)
    requires IsRun(states, events) && i <= j < |states|
    requires p in states[j].payments && p in Stale(states[j], periodInDays)
    requires states[i].now > states[j].now - periodInDays * DAY
    ensures p in states[i].payments && states[i].payments[p].status == ReadyPayment
    ensures states[i].payments[p].history == states[j].payments[p].history
  {
    InvAlways(states, events, i);
    InvAlways(states, events, j);
    assert PayInv(states[i]) && PayInv(states[j]);
    StaleIffLastEntryOld(states[j], periodInDays, p);
    FrameBetween(states, events, i, j);
    assert PaymentAged(states[i], states[j], p);
    assert PaymentHistoryOk(states[i].payments[p], states[i].now);
  }

  // ---------- retries ----------

  lemma {:induction false} ElementsCount(ids: seq<Id>)
    ensures |Elements(ids)| <= |ids|
    ensures |Elements(ids)| == |ids| <==> Distinct(ids)
  {
    if ids == [] {
      assert Elements(ids) == {};
    } else {
      var front, last := ids[..|ids| - 1], ids[|ids| - 1];
      ElementsCount(front);
      assert ids == front + [last];
      assert Elements(ids) == Elements(front) + {last};
      if last in front {
        var i :| 0 <= i < |front| && front[i] == last;
        assert ids[i] == ids[|ids| - 1];
        assert Elements(ids) == Elements(front);
      } else {
        assert |Elements(ids)| == |Elements(front)| + 1;
        DistinctSnoc(front, last);
      }
    }
  }

  lemma DistinctSnoc(front: seq<Id>, last: Id)
    requires last !in front
    ensures Distinct(front + [last]) <==> Distinct(front)
  {
    if Distinct(front + [last]) {
      forall i, j | 0 <= i < j < |front| ensures front[i] != front[j] {
        assert (front + [last])[i] != (front + [last])[j];
      }
    }
  }

  /** A retry goes through exactly when the ids are pairwise different and every one is a FAILED payment. */
  lemma RetryIsAllOrNothing(ps: map<Id, Payment>, ids: seq<Id>)
    ensures |FailedAmong(ps, Elements(ids))| == |ids| <==>
            Distinct(ids) && forall i | 0 <= i < |ids| :: ids[i] in ps && ps[ids[i]].status == FailedPayment
    ensures |FailedAmong(ps, Elements(ids))| == |ids| ==> FailedAmong(ps, Elements(ids)) == Elements(ids)
  {
    var failed, all := FailedAmong(ps, Elements(ids)), Elements(ids);
    ElementsCount(ids);
    assert failed <= all;
    SubsetCount(failed, all);
    if |failed| == |ids| {
      assert failed == all;
      forall i | 0 <= i < |ids| ensures ids[i] in failed { assert ids[i] in all; }
    } else if forall i | 0 <= i < |ids| :: ids[i] in ps && ps[ids[i]].status == FailedPayment {
      assert failed == all;
    }
  }

  lemma SubsetCount<T>(a: set<T>, b: set<T>)
    requires a <= b
    ensures |a| <= |b| && (|a| == |b| ==> a == b)
  {
    assert b == a + (b - a);
    assert |b| == |a| + |b - a|;
  }

  // ---------- wallet histories ----------

  /**
   Wallet histories fall and then rise in time, and an end of them is a newest entry that records the current status.
   */
  lemma WalletHistoriesAreValleys(states: seq<Tables>, events: seq<Event>, i: nat, w: Id)
    requires IsRun(states, events) && i < |states| && w in states[i].wallets
    ensures exists k: nat :: ValleyAt(states[i].wallets[w].history, k)
    ensures NewestAt(states[i].wallets[w], 0) || NewestAt(states[i].wallets[w], |states[i].wallets[w].history| - 1)
  {
    InvAlways(states, events, i);
    assert WalInv(states[i]);
  }

  // ---------- confirmed verifications ----------

  predicate Confirmed(s: Tables, r: Id, f: Field) {
    (r, f) in s.verifications && s.verifications[(r, f)].confirmedAt.Some?
  }

  /** Everything but a deliberate overwrite by a user keeps a confirmed value: an upload that disagrees aborts. */
  lemma StepKeepsConfirmed(s: Tables, e: Event, s': Tables, r: Id, f: Field)
    requires Step(s, e, s') && Confirmed(s, r, f)
    requires !(e.UpsertVerification? && (e.receiver, e.field) == (r, f))
    ensures Confirmed(s', r, f) && s'.verifications[(r, f)].hash == s.verifications[(r, f)].hash
  {
    if PaymentEvent(e) {
      PaymentEventLeaves(s, e, s');
    } else if WalletEvent(e) {
      WalletEventLeaves(s, e, s');
    } else if e.UploadInstructions? && s' != s {
      var owners, walletIds, first :| UploadedTo(s, e.upload, s', owners, walletIds, first);
      UploadKeepsConfirmed(s, e.upload, s.disbursements[e.upload.disbursement], s', owners, r, f);
    }
  }

  lemma UploadKeepsConfirmed(s: Tables, u: Upload, row: Disbursement, s': Tables, owners: seq<Id>, r: Id, f: Field)
    requires VerificationsUploaded(s, u, row, s', owners) && Confirmed(s, r, f)
    ensures Confirmed(s', r, f) && s'.verifications[(r, f)] == s.verifications[(r, f)]
  {
  }

  lemma {:induction false} ConfirmedValueNeverChanges(states: seq<Tables>, events: seq<Event>, i: nat, j: nat, r: Id,
                                        f: Field)
    requires IsRun(states, events) && i <= j < |states| && Confirmed(states[i], r, f)
    requires forall k | i <= k < j :: !(events[k].UpsertVerification?
                                        && (events[k].receiver, events[k].field) == (r, f))
    ensures Confirmed(states[j], r, f) && states[j].verifications[(r, f)].hash == states[i].verifications[(r, f)].hash
    decreases j
  {
    if i < j {
      ConfirmedValueNeverChanges(states, events, i, j - 1, r, f);
      StepKeepsConfirmed(states[j - 1], events[j - 1], states[j], r, f);
    }
  }
}
