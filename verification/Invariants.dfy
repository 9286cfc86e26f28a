/** The joint invariant of the lifecycle tables, and the proof that every event keeps it. */
module Invariants {
  import opened Statuses
  import opened Tables
  import opened Lifecycle

  // ---------- the invariant ----------

  /**
   The moves that ever appear in a payment history: the transition table with the retry edge FAILED -> READY in place of
   the table's own FAILED -> PENDING, which no transaction takes.
   */
  predicate HistoryEdge(from: PaymentStatus, to: PaymentStatus) {
    if from == FailedPayment then to == ReadyPayment else PaymentEdge(from, to)
  }

  ghost predicate PaymentHistoryOk(p: Payment, now: int) {
    && p.history != [] && Last(p.history).status == p.status
    && p.history[0].status in {DraftPayment, ReadyPayment}
    && (forall i, j | 0 <= i && j == i + 1 < |p.history| :: HistoryEdge(p.history[i].status, p.history[j].status))
    && (forall i, j | 0 <= i <= j < |p.history| :: p.history[i].timestamp <= p.history[j].timestamp)
    && Last(p.history).timestamp <= now
  }

  /** What a payment's status says about its disbursement. */
  predicate AgreesWith(payment: PaymentStatus, disbursement: DisbursementStatus) {
    && (payment == DraftPayment <==> NotStarted(disbursement))
    && (payment == PausedPayment ==> disbursement == PausedDisbursement)
    && (disbursement == CompletedDisbursement ==> Final(payment))
  }

  ghost predicate PaymentOk(p: Payment, ds: map<Id, Disbursement>, ws: map<Id, Wallet>, now: int) {
    && PaymentHistoryOk(p, now)
    && ValidAmount(p.amount)
    && p.wallet in ws
    && (p.status == PendingPayment ==> ws[p.wallet].address != NoAddress)
    && match p.disbursement
       case None => p.status != DraftPayment && p.status != PausedPayment
       case Some(d) => d in ds && AgreesWith(p.status, ds[d].status)
  }

  ghost predicate DisbursementOk(d: Disbursement, now: int) {
    && d.history != [] && d.history[0].status == DraftDisbursement && Last(d.history).status == d.status
    && (forall i, j | 0 <= i && j == i + 1 < |d.history| :: DisbursementEdge(d.history[i].status, d.history[j].status))
    && Last(d.history).timestamp <= now
  }

  /** Timestamps fall up to position k and rise from there on. */
  ghost predicate ValleyAt(h: seq<Entry<WalletStatus>>, k: nat) {
    && k < |h|
    && (forall i, j | 0 <= i <= j <= k :: h[i].timestamp >= h[j].timestamp)
    && (forall i, j | k <= i <= j < |h| :: h[i].timestamp <= h[j].timestamp)
  }

  /** Entry i is a newest one and records the current status. */
  ghost predicate NewestAt(w: Wallet, i: nat) {
    && i < |w.history| && w.history[i].status == w.status
    && (forall j | 0 <= j < |w.history| :: w.history[j].timestamp <= w.history[i].timestamp)
  }

  ghost predicate WalletHistoryOk(w: Wallet, now: int) {
    && w.history != []
    && (exists k: nat :: ValleyAt(w.history, k))
    && (NewestAt(w, 0) || NewestAt(w, |w.history| - 1))
    && (forall j | 0 <= j < |w.history| :: w.history[j].timestamp <= now)
  }

  ghost predicate PaymentsInv(ps: map<Id, Payment>, ds: map<Id, Disbursement>, ws: map<Id, Wallet>, nextId: Id,
                              now: int) {
    forall id | id in ps :: id < nextId && PaymentOk(ps[id], ds, ws, now)
  }

  ghost predicate DisbursementsInv(ds: map<Id, Disbursement>, nextId: Id, now: int) {
    forall d | d in ds :: d < nextId && DisbursementOk(ds[d], now)
  }

  ghost predicate WalletsInv(ws: map<Id, Wallet>, rs: map<Id, Receiver>, nextId: Id, now: int) {
    forall w | w in ws :: w < nextId && ws[w].receiver in rs && WalletHistoryOk(ws[w], now)
  }

  ghost predicate ReceiversInv(rs: map<Id, Receiver>, vs: map<(Id, Field), Verification>, nextId: Id) {
    && (forall r | r in rs :: r < nextId)
    && (forall k | k in vs :: k.0 in rs)
  }

  ghost predicate PayInv(s: Tables) {
    PaymentsInv(s.payments, s.disbursements, s.wallets, s.nextId, s.now)
  }

  ghost predicate Inv(s: Tables) {
    && PayInv(s)
    && DisbursementsInv(s.disbursements, s.nextId, s.now)
    && WalletsInv(s.wallets, s.receivers, s.nextId, s.now)
    && ReceiversInv(s.receivers, s.verifications, s.nextId)
    && Consistent(s)
  }

  // ---------- what a step leaves alone ----------

  function RowsOf(ps: map<Id, Payment>, d: Id): map<Id, Payment> {
    map id | id in ps && ps[id].disbursement == Some(d) :: ps[id]
  }

  /** A payment of the later state has the history it had, or gained an entry meanwhile. */
  ghost predicate PaymentAged(s: Tables, s': Tables, id: Id)
    requires id in s'.payments
  {
    || (id in s.payments && s'.payments[id].history == s.payments[id].history)
    || (s'.payments[id].history != [] && Last(s'.payments[id].history).timestamp >= s.now)
  }

  ghost predicate StaysCompleted(s: Tables, s': Tables, d: Id) {
    d in s.disbursements && s.disbursements[d].status == CompletedDisbursement ==>
      d in s'.disbursements && s'.disbursements[d] == s.disbursements[d]
        && RowsOf(s'.payments, d) == RowsOf(s.payments, d)
  }

  ghost predicate AllAged(s: Tables, s': Tables) {
    forall id | id in s'.payments :: PaymentAged(s, s', id)
  }

  ghost predicate AllStayCompleted(s: Tables, s': Tables) {
    forall d :: StaysCompleted(s, s', d)
  }

  ghost predicate Frame(s: Tables, s': Tables) {
    && s.now <= s'.now && s.nextId <= s'.nextId
    && AllAged(s, s')
    && AllStayCompleted(s, s')
  }

  lemma FrameTrans(s: Tables, t: Tables, u: Tables)
    requires Frame(s, t) && Frame(t, u)
    ensures Frame(s, u)
  {
    forall id | id in u.payments ensures PaymentAged(s, u, id) {
      assert PaymentAged(t, u, id);
      if id in t.payments { assert PaymentAged(s, t, id); }
    }
    forall d ensures StaysCompleted(s, u, d) {
      assert StaysCompleted(s, t, d) && StaysCompleted(t, u, d);
    }
  }

  // ---------- one lemma per kind of write ----------

  lemma AppendedHistory(p: Payment, to: PaymentStatus, now: int, tx: Option<string>)
    requires PaymentHistoryOk(p, now) && HistoryEdge(p.status, to)
    ensures PaymentHistoryOk(MovedPayment(p, to, now, tx), now)
  {
  }

  /**
   A payment may be moved by itself when the edge exists and its disbursement and wallet agree with the new status.
   */
  ghost predicate MayMove(s: Tables, id: Id, to: PaymentStatus) {
    && id in s.payments
    && HistoryEdge(s.payments[id].status, to)
    && s.payments[id].status != DraftPayment && s.payments[id].status != PausedPayment
    && to != PausedPayment
    && (to == PendingPayment ==>
          s.payments[id].wallet in s.wallets && s.wallets[s.payments[id].wallet].address != NoAddress)
  }

  lemma MovedPaymentOk(p: Payment, to: PaymentStatus, tx: Option<string>, ds: map<Id, Disbursement>,
                       ws: map<Id, Wallet>, now: int)
    requires PaymentOk(p, ds, ws, now) && HistoryEdge(p.status, to)
    requires p.status != DraftPayment && p.status != PausedPayment && to != PausedPayment
    requires to == PendingPayment ==> ws[p.wallet].address != NoAddress
    ensures PaymentOk(MovedPayment(p, to, now, tx), ds, ws, now)
  {
    AppendedHistory(p, to, now, tx);
  }

  /** What keeps a completed disbursement as it is: no row is added to it, moved or removed. */
  lemma SameRowsStayCompleted(s: Tables, s': Tables, d: Id)
    requires d in s.disbursements && d in s'.disbursements && s'.disbursements[d] == s.disbursements[d]
    requires forall id | id in s.payments && s.payments[id].disbursement == Some(d) ::
               id in s'.payments && s'.payments[id] == s.payments[id]
    requires forall id | id in s'.payments && s'.payments[id].disbursement == Some(d) ::
               id in s.payments && s'.payments[id] == s.payments[id]
    ensures StaysCompleted(s, s', d)
  {
  }

  lemma CompletedPaymentsDoNotMove(s: Tables, id: Id, d: Id, to: PaymentStatus)
    requires PayInv(s) && id in s.payments && s.payments[id].disbursement == Some(d)
    requires d in s.disbursements && s.disbursements[d].status == CompletedDisbursement
    ensures !MayMove(s, id, to)
  {
  }

  lemma MoveKeepsCompleted(s: Tables, ids: set<Id>, to: PaymentStatus, tx: Option<string>, d: Id)
    requires PayInv(s)
    requires forall id | id in ids :: MayMove(s, id, to)
    ensures StaysCompleted(s, MoveIn(s, ids, to, tx), d)
  {
    if d in s.disbursements && s.disbursements[d].status == CompletedDisbursement {
      forall id | id in s.payments && s.payments[id].disbursement == Some(d) ensures id !in ids {
        CompletedPaymentsDoNotMove(s, id, d, to);
      }
      SameRowsStayCompleted(s, MoveIn(s, ids, to, tx), d);
    }
  }

  lemma MoveKeepsPayments(s: Tables, ids: set<Id>, to: PaymentStatus, tx: Option<string>)
    requires PayInv(s)
    requires forall id | id in ids :: MayMove(s, id, to)
    ensures PayInv(MoveIn(s, ids, to, tx))
  {
    var s' := MoveIn(s, ids, to, tx);
    forall id | id in s'.payments
      ensures id < s'.nextId && PaymentOk(s'.payments[id], s'.disbursements, s'.wallets, s'.now)
    {
      if id in ids {
        assert MayMove(s, id, to);
        MovedPaymentOk(s.payments[id], to, tx, s.disbursements, s.wallets, s.now);
      }
    }
  }

  lemma MoveAges(s: Tables, ids: set<Id>, to: PaymentStatus, tx: Option<string>)
    ensures AllAged(s, MoveIn(s, ids, to, tx))
  {
  }

  lemma MoveInOk(s: Tables, ids: set<Id>, to: PaymentStatus, tx: Option<string>)
    requires PayInv(s)
    requires forall id | id in ids :: MayMove(s, id, to)
    ensures PayInv(MoveIn(s, ids, to, tx)) && Frame(s, MoveIn(s, ids, to, tx))
  {
    MoveKeepsPayments(s, ids, to, tx);
    MoveAges(s, ids, to, tx);
    forall d ensures StaysCompleted(s, MoveIn(s, ids, to, tx), d) {
      MoveKeepsCompleted(s, ids, to, tx, d);
    }
  }

  /** No wallet disappears, and none with payments in progress loses its address. */
  ghost predicate KeepsAddresses(s: Tables, ws: map<Id, Wallet>) {
    forall w | w in s.wallets :: w in ws
      && (s.wallets[w].address != NoAddress && HasPaymentsInProgress(s.payments, w) ==> ws[w].address != NoAddress)
  }

  /**
   Writes outside the payments table: no started disbursement changes, and no wallet of a PENDING payment loses its
   address.
   */
  lemma PaymentsUntouchedOk(s: Tables, s': Tables)
    requires PayInv(s) && s'.payments == s.payments && s.now <= s'.now && s.nextId <= s'.nextId
    requires forall d | d in s.disbursements :: d in s'.disbursements && s'.disbursements[d] == s.disbursements[d]
    requires KeepsAddresses(s, s'.wallets)
    ensures PayInv(s') && Frame(s, s')
  {
    forall id | id in s'.payments
      ensures id < s'.nextId && PaymentOk(s'.payments[id], s'.disbursements, s'.wallets, s'.now)
    {
      if s.payments[id].status == PendingPayment { assert HasPaymentsInProgress(s.payments, s.payments[id].wallet); }
    }
    forall d ensures StaysCompleted(s, s', d) {
      if d in s.disbursements { SameRowsStayCompleted(s, s', d); }
    }
  }

  lemma CompletionOk(s: Tables, ids: set<Id>)
    requires PayInv(s)
    requires forall d | d in ids && d in s.disbursements ::
               s.disbursements[d].status == StartedDisbursement
                 && AllPaymentsIn(s.payments, d, {SuccessPayment, CanceledPayment})
    ensures var s' := s.(disbursements := MoveDisbursements(s.disbursements, ids, CompletedDisbursement, s.now));
            PayInv(s') && Frame(s, s')
  {
    var s' := s.(disbursements := MoveDisbursements(s.disbursements, ids, CompletedDisbursement, s.now));
    forall id | id in s'.payments
      ensures id < s'.nextId && PaymentOk(s'.payments[id], s'.disbursements, s'.wallets, s'.now)
    {
    }
    forall d ensures StaysCompleted(s, s', d) {
      if d in s.disbursements && s.disbursements[d].status == CompletedDisbursement { SameRowsStayCompleted(s, s', d); }
    }
  }

  /** Starting moves DRAFT and PAUSED payments to READY; pausing moves READY ones to PAUSED. */
  predicate Together(to: PaymentStatus, target: DisbursementStatus) {
    (to == ReadyPayment && target == StartedDisbursement) || (to == PausedPayment && target == PausedDisbursement)
  }

  lemma MovedTogetherPaymentOk(
    p: Payment, d: Id, to: PaymentStatus, target: DisbursementStatus,
    ds: map<Id, Disbursement>, ds': map<Id, Disbursement>, ws: map<Id, Wallet>, ws': map<Id, Wallet>, now: int)
    requires PaymentOk(p, ds, ws, now) && Together(to, target)
    requires d in ds && DisbursementEdge(ds[d].status, target) && d in ds' && ds'[d].status == target
    requires forall e | e in ds && e != d :: e in ds' && ds'[e] == ds[e]
    requires p.wallet in ws' && ws'[p.wallet].address == ws[p.wallet].address
    ensures p.disbursement == Some(d) && PaymentEdge(p.status, to) ==>
            PaymentOk(MovedPayment(p, to, now, None), ds', ws', now)
    ensures !(p.disbursement == Some(d) && PaymentEdge(p.status, to)) ==> PaymentOk(p, ds', ws', now)
  {
    if p.disbursement == Some(d) && PaymentEdge(p.status, to) { AppendedHistory(p, to, now, None); }
  }

  /** The disbursement and all its movable payments move in one transaction. */
  function MovedTogether(s: Tables, d: Id, to: PaymentStatus, target: DisbursementStatus, ws: map<Id, Wallet>): Tables {
    s.(payments := MovePayments(s.payments, Movable(s.payments, d, to), to, s.now, None), wallets := ws,
       disbursements := MoveDisbursements(s.disbursements, {d}, target, s.now))
  }

  lemma MoveTogetherOk(s: Tables, d: Id, to: PaymentStatus, target: DisbursementStatus, ws: map<Id, Wallet>)
    requires PayInv(s) && d in s.disbursements && DisbursementEdge(s.disbursements[d].status, target)
             && Together(to, target)
    requires forall w | w in s.wallets :: w in ws && ws[w].address == s.wallets[w].address
    ensures PayInv(MovedTogether(s, d, to, target, ws))
  {
    var s' := MovedTogether(s, d, to, target, ws);
    assert forall e | e in s.disbursements && e != d ::
             e in s'.disbursements && s'.disbursements[e] == s.disbursements[e];
    forall id | id in s'.payments
      ensures id < s'.nextId && PaymentOk(s'.payments[id], s'.disbursements, s'.wallets, s'.now)
    {
      MovedTogetherPaymentOk(s.payments[id], d, to, target, s.disbursements, s'.disbursements, s.wallets, ws, s.now);
    }
  }

  lemma MoveTogetherFrame(s: Tables, d: Id, to: PaymentStatus, target: DisbursementStatus, ws: map<Id, Wallet>)
    requires d in s.disbursements && DisbursementEdge(s.disbursements[d].status, target)
    ensures Frame(s, MovedTogether(s, d, to, target, ws))
  {
    var s' := MovedTogether(s, d, to, target, ws);
    MoveAges(s, Movable(s.payments, d, to), to, None);
    assert AllAged(s, s');
    forall e ensures StaysCompleted(s, s', e) {
      if e in s.disbursements && s.disbursements[e].status == CompletedDisbursement { SameRowsStayCompleted(s, s', e); }
    }
  }

  lemma DeletionOk(s: Tables, d: Id)
    requires PayInv(s) && d in s.disbursements && NotStarted(s.disbursements[d].status)
    requires PaymentsOf(WithoutDrafts(s.payments, d), d) == {}
    ensures var s' := s.(payments := WithoutDrafts(s.payments, d), disbursements := s.disbursements - {d});
            PayInv(s') && Frame(s, s')
  {
    var s' := s.(payments := WithoutDrafts(s.payments, d), disbursements := s.disbursements - {d});
    forall id | id in s'.payments
      ensures id < s'.nextId && PaymentOk(s'.payments[id], s'.disbursements, s'.wallets, s'.now)
    {
      if s'.payments[id].disbursement == Some(d) { assert id in PaymentsOf(s'.payments, d); }
    }
    forall e ensures StaysCompleted(s, s', e) {
      if e in s.disbursements && s.disbursements[e].status == CompletedDisbursement { SameRowsStayCompleted(s, s', e); }
    }
  }

  lemma DirectPaymentOk(s: Tables, wallet: Id, asset: Id, amount: int)
    requires PayInv(s)
    ensures PayInv(WithDirectPayment(s, wallet, asset, amount)) && Frame(s, WithDirectPayment(s, wallet, asset, amount))
  {
    var s' := WithDirectPayment(s, wallet, asset, amount);
    if s' != s {
      assert s.nextId !in s.payments;
      assert PaymentOk(s'.payments[s.nextId], s'.disbursements, s'.wallets, s'.now);
    }
    DirectPaymentFrame(s, wallet, asset, amount);
  }

  lemma DirectPaymentFrame(s: Tables, wallet: Id, asset: Id, amount: int)
    requires s.nextId !in s.payments
    ensures Frame(s, WithDirectPayment(s, wallet, asset, amount))
  {
    var s' := WithDirectPayment(s, wallet, asset, amount);
    forall e ensures StaysCompleted(s, s', e) {
      if e in s.disbursements && s.disbursements[e].status == CompletedDisbursement { SameRowsStayCompleted(s, s', e); }
    }
  }

  // ---------- uploads ----------

  /** Every payment a re-upload finds is a draft, so the deletion leaves none of the disbursement's payments behind. */
  lemma NothingSurvivesReupload(s: Tables, d: Id)
    requires PayInv(s) && d in s.disbursements && NotStarted(s.disbursements[d].status)
    ensures PaymentsOf(WithoutDrafts(s.payments, d), d) == {}
  {
  }

  lemma KeptPaymentOk(p: Payment, d: Id, ds: map<Id, Disbursement>, ds': map<Id, Disbursement>,
                      ws: map<Id, Wallet>, ws': map<Id, Wallet>, now: int)
    requires PaymentOk(p, ds, ws, now) && p.disbursement != Some(d)
    requires forall e | e in ds && e != d :: e in ds' && ds'[e] == ds[e]
    requires forall w | w in ws :: w in ws' && (ws[w].address != NoAddress ==> ws'[w].address != NoAddress)
    ensures PaymentOk(p, ds', ws', now)
  {
  }

  lemma UploadKeepsAddresses(s: Tables, u: Upload, row: Disbursement, s': Tables, owners: seq<Id>,
                             walletIds: seq<Id>, first: Id)
    requires WalletsUploaded(s, u, row, s', owners, walletIds, first)
    ensures forall w | w in s.wallets ::
              w in s'.wallets && (s.wallets[w].address != NoAddress ==> s'.wallets[w].address != NoAddress)
    ensures forall i | 0 <= i < |walletIds| :: walletIds[i] in s'.wallets
  {
  }

  lemma UploadKeepsPayments(s: Tables, u: Upload, s': Tables, row: Disbursement, owners: seq<Id>, walletIds: seq<Id>,
                            first: Id)
    requires PayInv(s) && u.disbursement in s.disbursements && s.disbursements[u.disbursement] == row
    requires PaymentsUploaded(s, u, row, s', owners, walletIds, first)
    requires forall w | w in s.wallets ::
               w in s'.wallets && (s.wallets[w].address != NoAddress ==> s'.wallets[w].address != NoAddress)
    requires forall i | 0 <= i < |walletIds| :: walletIds[i] in s'.wallets
    ensures PayInv(s')
  {
    NothingSurvivesReupload(s, u.disbursement);
    var kept := WithoutDrafts(s.payments, u.disbursement);
    var drafts := DraftsFor(u, row, owners, walletIds, s.now);
    forall id | id in s'.payments
      ensures id < s'.nextId && PaymentOk(s'.payments[id], s'.disbursements, s'.wallets, s'.now)
    {
      if id in Numbered(first, drafts) {
        assert s'.payments[id] == drafts[id - first];
      } else {
        assert id in kept && id !in PaymentsOf(kept, u.disbursement);
        KeptPaymentOk(s.payments[id], u.disbursement, s.disbursements, s'.disbursements, s.wallets, s'.wallets, s.now);
      }
    }
  }

  lemma OtherRowsSurvive(ps: map<Id, Payment>, d: Id, first: Id, drafts: seq<Payment>, e: Id)
    requires e != d
    requires forall i | 0 <= i < |drafts| :: drafts[i].disbursement == Some(d)
    requires forall id | id in ps :: id < first
    ensures RowsOf(WithoutDrafts(ps, d) + Numbered(first, drafts), e) == RowsOf(ps, e)
  {
    var after := WithoutDrafts(ps, d) + Numbered(first, drafts);
    forall id | id in after && after[id].disbursement == Some(e) ensures id in ps && after[id] == ps[id] {
    }
    forall id | id in ps && ps[id].disbursement == Some(e) ensures id in after && after[id] == ps[id] {
    }
  }

  lemma UploadFrame(s: Tables, u: Upload, s': Tables, row: Disbursement, owners: seq<Id>, walletIds: seq<Id>, first: Id)
    requires u.disbursement in s.disbursements && s.disbursements[u.disbursement] == row
    requires PaymentsUploaded(s, u, row, s', owners, walletIds, first)
    requires forall id | id in s.payments :: id < s.nextId
    ensures Frame(s, s')
  {
    var drafts := DraftsFor(u, row, owners, walletIds, s.now);
    assert forall i | 0 <= i < |drafts| ::
        drafts[i].history == [Entry(DraftPayment, s.now)] && drafts[i].disbursement == Some(u.disbursement);
    forall e ensures StaysCompleted(s, s', e) {
      if e != u.disbursement { OtherRowsSurvive(s.payments, u.disbursement, first, drafts, e); }
    }
  }

  // ---------- wallet histories ----------

  lemma AppendedWalletOk(w: Wallet, to: WalletStatus, now: int, w': Wallet)
    requires WalletHistoryOk(w, now)
    requires w'.status == to && w'.history == w.history + [Entry(to, now)]
    ensures WalletHistoryOk(w', now)
  {
    var k: nat :| ValleyAt(w.history, k);
    assert ValleyAt(w'.history, k);
    assert NewestAt(w', |w'.history| - 1);
  }

  lemma PrependedWalletOk(w: Wallet, to: WalletStatus, now: int, w': Wallet)
    requires WalletHistoryOk(w, now)
    requires w'.status == to && w'.history == [Entry(to, now)] + w.history
    ensures WalletHistoryOk(w', now)
  {
    var k: nat :| ValleyAt(w.history, k);
    forall i, j | 0 <= i <= j <= k + 1 ensures w'.history[i].timestamp >= w'.history[j].timestamp {
      if i > 0 { assert w.history[i - 1].timestamp >= w.history[j - 1].timestamp; }
    }
    forall i, j | k + 1 <= i <= j < |w'.history| ensures w'.history[i].timestamp <= w'.history[j].timestamp {
      assert w.history[i - 1].timestamp <= w.history[j - 1].timestamp;
    }
    assert ValleyAt(w'.history, k + 1);
    assert NewestAt(w', 0);
  }

  lemma NewWalletOk(receiver: Id, provider: Id, now: int)
    ensures WalletHistoryOk(NewWallet(receiver, provider, now), now)
  {
    assert ValleyAt(NewWallet(receiver, provider, now).history, 0);
    assert NewestAt(NewWallet(receiver, provider, now), 0);
  }

  lemma LaterWalletOk(w: Wallet, now: int, w': Wallet, now': int)
    requires WalletHistoryOk(w, now) && now <= now' && w'.history == w.history && w'.status == w.status
    ensures WalletHistoryOk(w', now')
  {
  }

  /** A wallet row keeps its owner; its history keeps, gains a last entry or gains a first entry. */
  predicate WalletRowMove(w: Wallet, w': Wallet, now: int) {
    && w'.receiver == w.receiver && w'.provider == w.provider
    && (|| (w'.history == w.history && w'.status == w.status)
        || w'.history == w.history + [Entry(w'.status, now)]
        || w'.history == [Entry(w'.status, now)] + w.history)
  }

  function RowBefore(ws: map<Id, Wallet>, id: Id, w: Wallet, now: int): Wallet {
    if id in ws then ws[id] else NewWallet(w.receiver, w.provider, now)
  }

  ghost predicate WalletRowsMove(ws: map<Id, Wallet>, now: int, ws': map<Id, Wallet>, rs': map<Id, Receiver>,
                                 nextId': Id) {
    forall w | w in ws' ::
      && (w in ws || (w < nextId' && ws'[w].receiver in rs'))
      && WalletRowMove(RowBefore(ws, w, ws'[w], now), ws'[w], now)
  }

  lemma WalletRowsOk(ws: map<Id, Wallet>, rs: map<Id, Receiver>, nextId: Id, now: int,
                     ws': map<Id, Wallet>, rs': map<Id, Receiver>, nextId': Id)
    requires WalletsInv(ws, rs, nextId, now) && nextId <= nextId'
    requires forall r | r in rs :: r in rs'
    requires WalletRowsMove(ws, now, ws', rs', nextId')
    ensures WalletsInv(ws', rs', nextId', now)
  {
    forall w | w in ws' ensures WalletHistoryOk(ws'[w], now) {
      var before := RowBefore(ws, w, ws'[w], now);
      if w !in ws { NewWalletOk(ws'[w].receiver, ws'[w].provider, now); }
      assert WalletHistoryOk(before, now);
      if ws'[w].history == before.history + [Entry(ws'[w].status, now)] {
        AppendedWalletOk(before, ws'[w].status, now, ws'[w]);
      } else if ws'[w].history == [Entry(ws'[w].status, now)] + before.history {
        PrependedWalletOk(before, ws'[w].status, now, ws'[w]);
      } else {
        LaterWalletOk(before, now, ws'[w], now);
      }
    }
  }

  lemma LaterWalletsOk(ws: map<Id, Wallet>, rs: map<Id, Receiver>, nextId: Id, now: int, now': int)
    requires WalletsInv(ws, rs, nextId, now) && now <= now'
    ensures WalletsInv(ws, rs, nextId, now')
  {
  }

  // ---------- disbursement histories ----------

  lemma MovedDisbursementOk(d: Disbursement, to: DisbursementStatus, now: int, d': Disbursement)
    requires DisbursementOk(d, now) && DisbursementEdge(d.status, to)
    requires d'.status == to && d'.history == d.history + [Entry(to, now)]
    ensures DisbursementOk(d', now)
  {
  }

  lemma MoveDisbursementsOk(ds: map<Id, Disbursement>, ids: set<Id>, to: DisbursementStatus, nextId: Id, now: int)
    requires DisbursementsInv(ds, nextId, now)
    requires forall d | d in ids && d in ds :: DisbursementEdge(ds[d].status, to)
    ensures DisbursementsInv(MoveDisbursements(ds, ids, to, now), nextId, now)
  {
    var ds' := MoveDisbursements(ds, ids, to, now);
    forall d | d in ds' ensures d < nextId && DisbursementOk(ds'[d], now) {
      if d in ids { MovedDisbursementOk(ds[d], to, now, ds'[d]); }
    }
  }
}
