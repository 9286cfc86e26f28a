/**
 Every event keeps the joint invariant, ages payments only forward and leaves completed disbursements alone. The proof
 goes component by component: payments with the frame, wallets, disbursements, receivers, and the unique indexes.
 */
module Steps {
  import opened Statuses
  import opened Tables
  import opened Lifecycle
  import opened Invariants

  // ---------- which tables an event leaves alone ----------

  /** Events that write payments or disbursements. */
  predicate PaymentEvent(e: Event) {
    || e.DeleteDisbursement? || e.StartDisbursement? || e.PauseDisbursement? || e.SendBatch? || e.SyncPayment?
    || e.CompleteIfNecessary? || e.CreateDirectPayment? || MovesAlone(e)
  }

  /** The events that move payments by themselves, in one update. */
  predicate MovesAlone(e: Event) {
    e.ReconcilePayment? || e.RetryFailedPayments? || e.CancelPayment? || e.CancelReadyPayments?
  }

  predicate WalletEvent(e: Event) {
    e.InsertWallet? || e.UpdateWallet? || e.UnregisterWallet? || e.MoveWalletsOf? || e.MarkInvited?
  }

  /** Events that only add a disbursement, write receivers or verifications, or let time pass. */
  predicate SideEvent(e: Event) {
    || e.Advance? || e.InsertDisbursement? || e.InsertReceiver? || e.UpdateReceiver? || e.ConfirmVerification?
      || e.UpsertVerification?
  }

  function AfterWalletEvent(s: Tables, e: Event): Tables
    requires WalletEvent(e)
  {
    match e
    case InsertWallet(receiver, provider) => WithWallet(s, receiver, provider)
    case UpdateWallet(w, u) => WithWalletUpdate(s, w, u)
    case UnregisterWallet(w, userManaged) => Unregistered(s, w, userManaged)
    case MoveWalletsOf(d, from, to) => WalletsMoved(s, d, from, to)
    case MarkInvited(ids) => Invited(s, ids)
  }

  lemma WalletEventIs(s: Tables, e: Event, s': Tables)
    requires WalletEvent(e) && Step(s, e, s')
    ensures s' == AfterWalletEvent(s, e)
  {
  }

  lemma MoveEventLeaves(s: Tables, e: Event, s': Tables)
    requires MovesAlone(e) && Step(s, e, s')
    ensures s' == s.(payments := s'.payments)
  {
  }

  lemma PaymentEventLeaves(s: Tables, e: Event, s': Tables)
    requires PaymentEvent(e) && Step(s, e, s')
    ensures s'.receivers == s.receivers && s'.verifications == s.verifications && s'.now == s.now
            && s.nextId <= s'.nextId
    ensures !e.StartDisbursement? ==> s'.wallets == s.wallets
    ensures MovesAlone(e) || e.SendBatch? || e.CreateDirectPayment? ==> s'.disbursements == s.disbursements
  {
    if MovesAlone(e) { MoveEventLeaves(s, e, s'); }
  }

  lemma WalletEventLeaves(s: Tables, e: Event, s': Tables)
    requires WalletEvent(e) && Step(s, e, s')
    ensures s'.receivers == s.receivers && s'.verifications == s.verifications
    ensures s'.payments == s.payments && s'.disbursements == s.disbursements && s'.now == s.now && s.nextId <= s'.nextId
  {
    WalletEventIs(s, e, s');
  }

  // ---------- payments ----------

  lemma FrameRefl(s: Tables)
    ensures Frame(s, s)
  {
  }

  lemma StartKeepsPayments(s: Tables, d: Id)
    requires PayInv(s)
    ensures PayInv(Started(s, d)) && Frame(s, Started(s, d))
  {
    if d in s.disbursements && DisbursementEdge(s.disbursements[d].status, StartedDisbursement) {
      var ws := Started(s, d).wallets;
      assert Started(s, d) == MovedTogether(s, d, ReadyPayment, StartedDisbursement, ws);
      MoveTogetherOk(s, d, ReadyPayment, StartedDisbursement, ws);
      MoveTogetherFrame(s, d, ReadyPayment, StartedDisbursement, ws);
    } else {
      FrameRefl(s);
    }
  }

  lemma PauseKeepsPayments(s: Tables, d: Id)
    requires PayInv(s)
    ensures PayInv(Paused(s, d)) && Frame(s, Paused(s, d))
  {
    if d in s.disbursements && DisbursementEdge(s.disbursements[d].status, PausedDisbursement) {
      assert Paused(s, d) == MovedTogether(s, d, PausedPayment, PausedDisbursement, s.wallets);
      MoveTogetherOk(s, d, PausedPayment, PausedDisbursement, s.wallets);
      MoveTogetherFrame(s, d, PausedPayment, PausedDisbursement, s.wallets);
    } else {
      FrameRefl(s);
    }
  }

  lemma DispatchMayMove(s: Tables, batch: set<Id>)
    requires forall id | id in batch :: Eligible(s, id)
    ensures forall id | id in batch - Sendable(s, batch) :: MayMove(s, id, FailedPayment)
    ensures forall id | id in Sendable(s, batch) ::
              MayMove(MoveIn(s, batch - Sendable(s, batch), FailedPayment, None), id, PendingPayment)
  {
  }

  lemma DispatchKeepsPayments(s: Tables, batch: set<Id>)
    requires PayInv(s) && forall id | id in batch :: Eligible(s, id)
    ensures PayInv(Dispatched(s, batch)) && Frame(s, Dispatched(s, batch))
  {
    DispatchMayMove(s, batch);
    var failed := MoveIn(s, batch - Sendable(s, batch), FailedPayment, None);
    MoveInOk(s, batch - Sendable(s, batch), FailedPayment, None);
    MoveInOk(failed, Sendable(s, batch), PendingPayment, None);
    FrameTrans(s, failed, Dispatched(s, batch));
  }

  lemma StrictCompletionOk(s: Tables, ids: set<Id>)
    requires PayInv(s)
    ensures PayInv(CompletedStrictly(s, ids)) && Frame(s, CompletedStrictly(s, ids))
  {
    CompletionOk(s, StrictlyCompletable(s.disbursements, s.payments, ids));
  }

  lemma SyncKeepsPayments(s: Tables, id: Id, succeeded: bool, tx: string)
    requires PayInv(s)
    ensures PayInv(Synced(s, id, succeeded, tx)) && Frame(s, Synced(s, id, succeeded, tx))
  {
    var to := SyncTarget(succeeded);
    if id in s.payments && !Blank(tx) && PaymentEdge(s.payments[id].status, to) {
      var moved := MoveIn(s, {id}, to, Some(tx));
      assert MayMove(s, id, to);
      MoveInOk(s, {id}, to, Some(tx));
      if s.payments[id].disbursement.Some? {
        StrictCompletionOk(moved, {s.payments[id].disbursement.value});
        FrameTrans(s, moved, Synced(s, id, succeeded, tx));
      }
    } else {
      FrameRefl(s);
    }
  }

  function MovedIds(s: Tables, e: Event): set<Id>
    requires MovesAlone(e)
  {
    match e
    case ReconcilePayment(id, _, _) => if id in s.payments && s.payments[id].status == PendingPayment then {id} else {}
    case CancelPayment(id) =>
      if id in s.payments && PaymentEdge(s.payments[id].status, CanceledPayment) then {id} else {}
    case CancelReadyPayments(days) => Stale(s, days)
    case RetryFailedPayments(_, ids) => FailedAmong(s.payments, Elements(ids))
  }

  function MoveTarget(e: Event): PaymentStatus
    requires MovesAlone(e)
  {
    match e
    case ReconcilePayment(_, succeeded, _) => SyncTarget(succeeded)
    case RetryFailedPayments(_, _) => ReadyPayment
    case _ => CanceledPayment
  }

  function MoveTransactionId(e: Event): Option<string>
    requires MovesAlone(e)
  {
    match e
    case ReconcilePayment(_, _, transactionId) => if transactionId != "" then Some(transactionId) else None
    case RetryFailedPayments(_, _) => Some("")
    case _ => None
  }

  lemma MovedIdsMayMove(s: Tables, e: Event)
    requires MovesAlone(e)
    ensures forall id | id in MovedIds(s, e) :: MayMove(s, id, MoveTarget(e))
  {
  }

  lemma MoveEventIsMoveIn(s: Tables, e: Event, s': Tables)
    requires MovesAlone(e) && Step(s, e, s') && s' != s
    ensures s' == MoveIn(s, MovedIds(s, e), MoveTarget(e), MoveTransactionId(e))
  {
  }

  lemma MoveEventKeepsPayments(s: Tables, e: Event, s': Tables)
    requires MovesAlone(e) && PayInv(s) && Step(s, e, s')
    ensures PayInv(s') && Frame(s, s')
  {
    FrameRefl(s);
    if s' != s {
      MoveEventIsMoveIn(s, e, s');
      MovedIdsMayMove(s, e);
      MoveInOk(s, MovedIds(s, e), MoveTarget(e), MoveTransactionId(e));
    }
  }

  lemma InsertWalletKeepsAddresses(s: Tables, receiver: Id, provider: Id)
    requires s.nextId !in s.wallets
    ensures KeepsAddresses(s, WithWallet(s, receiver, provider).wallets)
  {
  }

  lemma UpdateWalletKeepsAddresses(s: Tables, w: Id, u: WalletUpdate)
    ensures KeepsAddresses(s, WithWalletUpdate(s, w, u).wallets)
  {
  }

  /** The unregister step clears an address only when no payment of the wallet is in progress. */
  lemma UnregisterKeepsAddresses(s: Tables, w: Id, userManaged: bool)
    ensures KeepsAddresses(s, Unregistered(s, w, userManaged).wallets)
  {
  }

  lemma MoveWalletsKeepsAddresses(s: Tables, d: Id, from: WalletStatus, to: WalletStatus)
    ensures KeepsAddresses(s, WalletsMoved(s, d, from, to).wallets)
  {
  }

  lemma MarkInvitedKeepsAddresses(s: Tables, ids: set<Id>)
    ensures KeepsAddresses(s, Invited(s, ids).wallets)
  {
  }

  lemma WalletEventKeepsAddresses(s: Tables, e: Event)
    requires WalletEvent(e) && s.nextId !in s.wallets
    ensures KeepsAddresses(s, AfterWalletEvent(s, e).wallets)
  {
    match e
    case InsertWallet(receiver, provider) => InsertWalletKeepsAddresses(s, receiver, provider);
    case UpdateWallet(w, u) => UpdateWalletKeepsAddresses(s, w, u);
    case UnregisterWallet(w, userManaged) => UnregisterKeepsAddresses(s, w, userManaged);
    case MoveWalletsOf(d, from, to) => MoveWalletsKeepsAddresses(s, d, from, to);
    case MarkInvited(ids) => MarkInvitedKeepsAddresses(s, ids);
  }

  lemma WalletEventKeepsPayments(s: Tables, e: Event, s': Tables)
    requires WalletEvent(e) && PayInv(s) && Step(s, e, s') && s.nextId !in s.wallets
    ensures PayInv(s') && Frame(s, s')
  {
    WalletEventIs(s, e, s');
    WalletEventKeepsAddresses(s, e);
    WalletEventLeaves(s, e, s');
    PaymentsUntouchedOk(s, s');
  }

  lemma SideEventLeaves(s: Tables, e: Event, s': Tables)
    requires SideEvent(e) && Step(s, e, s') && s.nextId !in s.disbursements
    ensures s'.payments == s.payments && s'.wallets == s.wallets && s.now <= s'.now && s.nextId <= s'.nextId
    ensures forall d | d in s.disbursements :: d in s'.disbursements && s'.disbursements[d] == s.disbursements[d]
  {
  }

  lemma SideEventKeepsPayments(s: Tables, e: Event, s': Tables)
    requires SideEvent(e) && PayInv(s) && Step(s, e, s') && s.nextId !in s.disbursements
    ensures PayInv(s') && Frame(s, s')
  {
    SideEventLeaves(s, e, s');
    PaymentsUntouchedOk(s, s');
  }

  lemma StepKeepsPayments(s: Tables, e: Event, s': Tables)
    requires PayInv(s) && Step(s, e, s')
    requires s.nextId !in s.disbursements && s.nextId !in s.wallets
    ensures PayInv(s') && Frame(s, s')
  {
    if WalletEvent(e) {
      WalletEventKeepsPayments(s, e, s');
    } else if SideEvent(e) {
      SideEventKeepsPayments(s, e, s');
    } else if MovesAlone(e) {
      MoveEventKeepsPayments(s, e, s');
    } else {
      FrameRefl(s);
      match e
      case UploadInstructions(u) =>
        if s' != s {
          var owners, walletIds, first :| UploadedTo(s, u, s', owners, walletIds, first);
          UploadKeepsAddresses(s, u, s.disbursements[u.disbursement], s', owners, walletIds, first);
          UploadKeepsPayments(s, u, s', s.disbursements[u.disbursement], owners, walletIds, first);
          UploadFrame(s, u, s', s.disbursements[u.disbursement], owners, walletIds, first);
        }
      case DeleteDisbursement(d) => if s' != s { DeletionOk(s, d); }
      case StartDisbursement(d) => StartKeepsPayments(s, d);
      case PauseDisbursement(d) => PauseKeepsPayments(s, d);
      case SendBatch(size, batch) => if IsBatch(s, size, batch) { DispatchKeepsPayments(s, Elements(batch)); }
      case SyncPayment(id, succeeded, tx) => SyncKeepsPayments(s, id, succeeded, tx);
      case CompleteIfNecessary => CompletionOk(s, Completable(s.disbursements, s.payments));
      case CreateDirectPayment(wallet, asset, amount) => DirectPaymentOk(s, wallet, asset, amount);
    }
  }

  // ---------- disbursements ----------

  ghost predicate DisbInv(s: Tables) {
    DisbursementsInv(s.disbursements, s.nextId, s.now)
  }

  lemma StartKeepsDisbursements(s: Tables, d: Id)
    requires DisbInv(s)
    ensures DisbInv(Started(s, d))
  {
  }

  lemma PauseKeepsDisbursements(s: Tables, d: Id)
    requires DisbInv(s)
    ensures DisbInv(Paused(s, d))
  {
  }

  lemma SyncKeepsDisbursements(s: Tables, id: Id, succeeded: bool, tx: string)
    requires DisbInv(s)
    ensures DisbInv(Synced(s, id, succeeded, tx))
  {
    var s' := Synced(s, id, succeeded, tx);
    if s' != s && s.payments[id].disbursement.Some? {
      MoveDisbursementsOk(s.disbursements,
                          StrictlyCompletable(s.disbursements, s'.payments, {s.payments[id].disbursement.value}),
                          CompletedDisbursement, s.nextId, s.now);
    }
  }

  lemma UploadKeepsDisbursements(s: Tables, u: Upload, s': Tables)
    requires DisbInv(s) && Uploaded(s, u, s')
    ensures DisbInv(s')
  {
    var owners, walletIds, first :| UploadedTo(s, u, s', owners, walletIds, first);
    MovedDisbursementOk(s.disbursements[u.disbursement], ReadyDisbursement, s.now, s'.disbursements[u.disbursement]);
  }

  lemma DeleteKeepsDisbursements(s: Tables, d: Id)
    requires DisbInv(s)
    ensures DisbInv(Deleted(s, d))
  {
  }

  lemma InsertKeepsDisbursements(s: Tables, e: Event)
    requires DisbInv(s) && e.InsertDisbursement?
    ensures DisbInv(WithDisbursement(s, e))
  {
  }

  lemma LaterKeepsDisbursements(s: Tables, to: int)
    requires DisbInv(s) && s.now <= to
    ensures DisbInv(s.(now := to))
  {
  }

  predicate TouchesDisbursements(e: Event) {
    || e.StartDisbursement? || e.PauseDisbursement? || e.CompleteIfNecessary? || e.SyncPayment? || e.UploadInstructions?
    || e.InsertDisbursement? || e.DeleteDisbursement? || e.Advance?
  }

  lemma OtherEventLeavesDisbursements(s: Tables, e: Event, s': Tables)
    requires Step(s, e, s') && !TouchesDisbursements(e)
    ensures s'.disbursements == s.disbursements && s.nextId <= s'.nextId && s'.now == s.now
  {
    if PaymentEvent(e) { PaymentEventLeaves(s, e, s'); }
    else if WalletEvent(e) { WalletEventLeaves(s, e, s'); }
  }

  lemma StepKeepsDisbursements(s: Tables, e: Event, s': Tables)
    requires DisbInv(s) && Step(s, e, s')
    ensures DisbInv(s')
  {
    if !TouchesDisbursements(e) {
      OtherEventLeavesDisbursements(s, e, s');
    } else {
      match e
      case StartDisbursement(d) => StartKeepsDisbursements(s, d);
      case PauseDisbursement(d) => PauseKeepsDisbursements(s, d);
      case CompleteIfNecessary =>
        MoveDisbursementsOk(s.disbursements, Completable(s.disbursements, s.payments), CompletedDisbursement,
                            s.nextId, s.now);
      case SyncPayment(id, succeeded, tx) => SyncKeepsDisbursements(s, id, succeeded, tx);
      case UploadInstructions(u) => if s' != s { UploadKeepsDisbursements(s, u, s'); }
      case DeleteDisbursement(d) => DeleteKeepsDisbursements(s, d);
      case InsertDisbursement(_, _, _, _, _) => InsertKeepsDisbursements(s, e);
      case Advance(to) => if s.now <= to { LaterKeepsDisbursements(s, to); }
    }
  }

  // ---------- wallets ----------

  ghost predicate WalInv(s: Tables) {
    WalletsInv(s.wallets, s.receivers, s.nextId, s.now)
  }

  /** What a step other than a start does to wallet rows: nothing, or one new entry at one end of the history. */
  ghost predicate MovesWalletRows(s: Tables, s': Tables) {
    && s.nextId <= s'.nextId
    && (forall r | r in s.receivers :: r in s'.receivers)
    && WalletRowsMove(s.wallets, s.now, s'.wallets, s'.receivers, s'.nextId)
  }

  lemma InsertKeepsWallets(s: Tables, receiver: Id, provider: Id)
    requires WalInv(s) && s.nextId !in s.wallets
    ensures WalInv(WithWallet(s, receiver, provider))
  {
    assert MovesWalletRows(s, WithWallet(s, receiver, provider));
    MovedRowsOk(s, WithWallet(s, receiver, provider));
  }

  lemma UpdateKeepsWallets(s: Tables, w: Id, u: WalletUpdate)
    requires WalInv(s)
    ensures WalInv(WithWalletUpdate(s, w, u))
  {
    assert MovesWalletRows(s, WithWalletUpdate(s, w, u));
    MovedRowsOk(s, WithWalletUpdate(s, w, u));
  }

  lemma UnregisterKeepsWallets(s: Tables, w: Id, userManaged: bool)
    requires WalInv(s)
    ensures WalInv(Unregistered(s, w, userManaged))
  {
    assert MovesWalletRows(s, Unregistered(s, w, userManaged));
    MovedRowsOk(s, Unregistered(s, w, userManaged));
  }

  lemma InviteKeepsWallets(s: Tables, ids: set<Id>)
    requires WalInv(s)
    ensures WalInv(Invited(s, ids))
  {
    assert MovesWalletRows(s, Invited(s, ids));
    MovedRowsOk(s, Invited(s, ids));
  }

  lemma MoveKeepsWallets(s: Tables, d: Id, from: WalletStatus, to: WalletStatus)
    requires WalInv(s)
    ensures WalInv(WalletsMoved(s, d, from, to))
  {
    if WalletEdge(from, to) {
      BulkMovesRows(s, WalletsOf(s.payments, s.wallets, d, from, to), to);
      MovedRowsOk(s, WalletsMoved(s, d, from, to));
    }
  }

  lemma BulkMovesRows(s: Tables, ids: set<Id>, to: WalletStatus)
    ensures MovesWalletRows(s, s.(wallets := MoveWallets(s.wallets, ids, to, s.now)))
  {
  }

  lemma UploadedRowMoves(s: Tables, u: Upload, row: Disbursement, s': Tables, owners: seq<Id>, walletIds: seq<Id>,
                         first: Id, i: nat)
    requires WalletsUploaded(s, u, row, s', owners, walletIds, first) && i < |walletIds|
    ensures var w := walletIds[i];
      && w in s'.wallets && (w in s.wallets || w < first) && s'.wallets[w].receiver == owners[i]
      && WalletRowMove(RowBefore(s.wallets, w, s'.wallets[w], s.now), s'.wallets[w], s.now)
  {
  }

  lemma UploadMovesRows(s: Tables, u: Upload, row: Disbursement, s': Tables, owners: seq<Id>, walletIds: seq<Id>,
                        first: Id)
    requires WalletsUploaded(s, u, row, s', owners, walletIds, first)
    requires forall r | r in s.receivers :: r in s'.receivers
    requires forall i | 0 <= i < |owners| :: owners[i] in s'.receivers
    requires s.nextId <= first <= s'.nextId
    ensures MovesWalletRows(s, s')
  {
    forall w | w in s'.wallets
      ensures w in s.wallets || (w < s'.nextId && s'.wallets[w].receiver in s'.receivers)
      ensures WalletRowMove(RowBefore(s.wallets, w, s'.wallets[w], s.now), s'.wallets[w], s.now)
    {
      if w in walletIds {
        var i :| 0 <= i < |walletIds| && walletIds[i] == w;
        UploadedRowMoves(s, u, row, s', owners, walletIds, first, i);
      }
    }
  }

  predicate TouchesWallets(e: Event) {
    || e.InsertWallet? || e.UpdateWallet? || e.UnregisterWallet? || e.MoveWalletsOf? || e.MarkInvited?
    || e.StartDisbursement? || e.UploadInstructions? || e.Advance?
  }

  lemma OtherEventLeavesWallets(s: Tables, e: Event, s': Tables)
    requires Step(s, e, s') && !TouchesWallets(e)
    ensures s'.wallets == s.wallets && s'.now == s.now && s.nextId <= s'.nextId
    ensures forall r | r in s.receivers :: r in s'.receivers
  {
    if PaymentEvent(e) { PaymentEventLeaves(s, e, s'); }
  }

  lemma SameWalletsOk(s: Tables, s': Tables)
    requires WalInv(s) && s'.wallets == s.wallets && s'.now == s.now && s.nextId <= s'.nextId
    requires forall r | r in s.receivers :: r in s'.receivers
    ensures WalInv(s')
  {
  }

  lemma MovedRowsOk(s: Tables, s': Tables)
    requires WalInv(s) && MovesWalletRows(s, s') && s'.now == s.now
    ensures WalInv(s')
  {
    WalletRowsOk(s.wallets, s.receivers, s.nextId, s.now, s'.wallets, s'.receivers, s'.nextId);
  }

  lemma StartKeepsWallets(s: Tables, d: Id)
    requires WalInv(s)
    ensures WalInv(Started(s, d))
  {
    if d in s.disbursements && DisbursementEdge(s.disbursements[d].status, StartedDisbursement) {
      var payments := MovePayments(s.payments, Movable(s.payments, d, ReadyPayment), ReadyPayment, s.now, None);
      var first := WalletsOf(payments, s.wallets, d, DraftWallet, ReadyWallet);
      var readied := s.(wallets := MoveWallets(s.wallets, first, ReadyWallet, s.now));
      var second := WalletsOf(payments, readied.wallets, d, ReadyWallet, RegisteredWallet);
      BulkMovesRows(s, first, ReadyWallet);
      MovedRowsOk(s, readied);
      BulkMovesRows(readied, second, RegisteredWallet);
      MovedRowsOk(readied, readied.(wallets := MoveWallets(readied.wallets, second, RegisteredWallet, s.now)));
    }
  }

  lemma UploadKeepsWallets(s: Tables, u: Upload, s': Tables)
    requires WalInv(s) && Uploaded(s, u, s')
    ensures WalInv(s')
  {
    var owners, walletIds, first :| UploadedTo(s, u, s', owners, walletIds, first);
    UploadMovesRows(s, u, s.disbursements[u.disbursement], s', owners, walletIds, first);
    MovedRowsOk(s, s');
  }

  lemma WalletEventKeepsWallets(s: Tables, e: Event)
    requires WalInv(s) && WalletEvent(e) && s.nextId !in s.wallets
    ensures WalInv(AfterWalletEvent(s, e))
  {
    match e
    case InsertWallet(receiver, provider) => InsertKeepsWallets(s, receiver, provider);
    case UpdateWallet(w, u) => UpdateKeepsWallets(s, w, u);
    case UnregisterWallet(w, userManaged) => UnregisterKeepsWallets(s, w, userManaged);
    case MoveWalletsOf(d, from, to) => MoveKeepsWallets(s, d, from, to);
    case MarkInvited(ids) => InviteKeepsWallets(s, ids);
  }

  lemma StepKeepsWallets(s: Tables, e: Event, s': Tables)
    requires WalInv(s) && Step(s, e, s') && s.nextId !in s.wallets
    ensures WalInv(s')
  {
    if !TouchesWallets(e) {
      OtherEventLeavesWallets(s, e, s');
      SameWalletsOk(s, s');
    } else if WalletEvent(e) {
      WalletEventIs(s, e, s');
      WalletEventKeepsWallets(s, e);
    } else {
      match e
      case Advance(to) => if s.now <= to { LaterWalletsOk(s.wallets, s.receivers, s.nextId, s.now, to); }
      case StartDisbursement(d) => StartKeepsWallets(s, d);
      case UploadInstructions(u) => if s' != s { UploadKeepsWallets(s, u, s'); }
    }
  }

  // ---------- receivers, verifications and unique indexes ----------

  ghost predicate RecInv(s: Tables) {
    ReceiversInv(s.receivers, s.verifications, s.nextId)
  }

  lemma StepKeepsReceivers(s: Tables, e: Event, s': Tables)
    requires RecInv(s) && Step(s, e, s')
    ensures RecInv(s')
  {
    if PaymentEvent(e) {
      PaymentEventLeaves(s, e, s');
    } else if WalletEvent(e) {
      WalletEventLeaves(s, e, s');
    } else if e.UploadInstructions? && s' != s {
      UploadKeepsReceivers(s, e.upload, s');
    }
  }

  lemma UploadKeepsReceivers(s: Tables, u: Upload, s': Tables)
    requires RecInv(s) && Uploaded(s, u, s')
    ensures RecInv(s')
  {
    var owners, walletIds, first :| UploadedTo(s, u, s', owners, walletIds, first);
    UploadedReceiversOk(s, u, s', owners, first);
    UploadedVerificationsOk(s, u, s.disbursements[u.disbursement], s', owners);
  }

  lemma UploadedReceiversOk(s: Tables, u: Upload, s': Tables, owners: seq<Id>, first: Id)
    requires ReceiversUploaded(s, u, s', owners, first) && s.nextId <= first <= s'.nextId
    requires forall r | r in s.receivers :: r < s.nextId
    ensures forall r | r in s'.receivers :: r < s'.nextId
    ensures forall r | r in s.receivers :: r in s'.receivers
    ensures forall i | 0 <= i < |owners| :: owners[i] in s'.receivers
  {
  }

  lemma UploadedVerificationsOk(s: Tables, u: Upload, row: Disbursement, s': Tables, owners: seq<Id>)
    requires VerificationsUploaded(s, u, row, s', owners)
    requires forall k | k in s.verifications :: k.0 in s.receivers
    requires forall r | r in s.receivers :: r in s'.receivers
    requires forall i | 0 <= i < |owners| :: owners[i] in s'.receivers
    ensures forall k | k in s'.verifications :: k.0 in s'.receivers
  {
  }

  lemma SameKeysConsistent(ws: map<Id, Wallet>, ws': map<Id, Wallet>)
    requires WalletsConsistent(ws)
    requires forall w | w in ws' :: w in ws && ws'[w].receiver == ws[w].receiver && ws'[w].provider == ws[w].provider
               && (ws'[w].address == NoAddress || ws'[w].address == ws[w].address)
    ensures WalletsConsistent(ws')
  {
  }

  lemma InsertedReceiverConsistent(rs: map<Id, Receiver>, id: Id, r: Receiver)
    requires ReceiversConsistent(rs) && id !in rs && !ContactTaken(rs, r)
    requires (r.phone != "" || r.email != "") && WellFormedContacts(r.phone, r.email)
    ensures ReceiversConsistent(rs[id := r])
  {
  }

  /** Taking the row out and putting the updated one in keeps contacts apart. */
  lemma UpdatedReceiverConsistent(rs: map<Id, Receiver>, id: Id, u: ReceiverUpdate)
    requires ReceiversConsistent(rs) && id in rs && ValidReceiverUpdate(u)
    requires !ContactTaken(rs - {id}, UpdatedReceiver(rs[id], u))
    ensures ReceiversConsistent(rs[id := UpdatedReceiver(rs[id], u)])
  {
    InsertedReceiverConsistent(rs - {id}, id, UpdatedReceiver(rs[id], u));
    assert (rs - {id})[id := UpdatedReceiver(rs[id], u)] == rs[id := UpdatedReceiver(rs[id], u)];
  }

  lemma UpdatedWalletsConsistent(ws: map<Id, Wallet>, id: Id, w: Wallet)
    requires WalletsConsistent(ws) && id in ws && w.receiver == ws[id].receiver && w.provider == ws[id].provider
    requires w.address != NoAddress ==> !AddressTaken(ws, w.receiver, w.address)
    ensures WalletsConsistent(ws[id := w])
  {
  }

  lemma InsertedWalletConsistent(ws: map<Id, Wallet>, id: Id, w: Wallet)
    requires WalletsConsistent(ws) && id !in ws && w.address == NoAddress
    requires !exists v | v in ws :: ws[v].receiver == w.receiver && ws[v].provider == w.provider
    ensures WalletsConsistent(ws[id := w])
  {
  }

  lemma BulkKeepsIndexes(ws: map<Id, Wallet>, ids: set<Id>, to: WalletStatus, now: int)
    requires WalletsConsistent(ws)
    ensures WalletsConsistent(MoveWallets(ws, ids, to, now))
  {
  }

  lemma InviteKeepsIndexes(s: Tables, ids: set<Id>)
    requires WalletsConsistent(s.wallets)
    ensures WalletsConsistent(Invited(s, ids).wallets)
  {
  }

  lemma MoveKeepsIndexes(s: Tables, d: Id, from: WalletStatus, to: WalletStatus)
    requires WalletsConsistent(s.wallets)
    ensures WalletsConsistent(WalletsMoved(s, d, from, to).wallets)
  {
    BulkKeepsIndexes(s.wallets, WalletsOf(s.payments, s.wallets, d, from, to), to, s.now);
  }

  lemma UnregisterKeepsIndexes(s: Tables, w: Id, userManaged: bool)
    requires WalletsConsistent(s.wallets)
    ensures WalletsConsistent(Unregistered(s, w, userManaged).wallets)
  {
  }

  lemma InsertKeepsIndexes(s: Tables, receiver: Id, provider: Id)
    requires WalletsConsistent(s.wallets) && s.nextId !in s.wallets
    ensures WalletsConsistent(WithWallet(s, receiver, provider).wallets)
  {
  }

  lemma UpdateKeepsIndexes(s: Tables, w: Id, u: WalletUpdate)
    requires WalletsConsistent(s.wallets)
    ensures WalletsConsistent(WithWalletUpdate(s, w, u).wallets)
  {
  }

  lemma StartKeepsIndexes(s: Tables, d: Id)
    requires WalletsConsistent(s.wallets)
    ensures WalletsConsistent(Started(s, d).wallets)
  {
    var payments := MovePayments(s.payments, Movable(s.payments, d, ReadyPayment), ReadyPayment, s.now, None);
    var first := WalletsOf(payments, s.wallets, d, DraftWallet, ReadyWallet);
    var readied := MoveWallets(s.wallets, first, ReadyWallet, s.now);
    BulkKeepsIndexes(s.wallets, first, ReadyWallet, s.now);
    BulkKeepsIndexes(readied, WalletsOf(payments, readied, d, ReadyWallet, RegisteredWallet), RegisteredWallet, s.now);
  }

  lemma WalletEventKeepsIndexes(s: Tables, e: Event)
    requires WalletsConsistent(s.wallets) && WalletEvent(e) && s.nextId !in s.wallets
    ensures WalletsConsistent(AfterWalletEvent(s, e).wallets)
  {
    match e
    case MoveWalletsOf(d, from, to) => MoveKeepsIndexes(s, d, from, to);
    case MarkInvited(ids) => InviteKeepsIndexes(s, ids);
    case UnregisterWallet(w, userManaged) => UnregisterKeepsIndexes(s, w, userManaged);
    case InsertWallet(receiver, provider) => InsertKeepsIndexes(s, receiver, provider);
    case UpdateWallet(w, u) => UpdateKeepsIndexes(s, w, u);
  }

  lemma StepKeepsWalletIndexes(s: Tables, e: Event, s': Tables)
    requires WalletsConsistent(s.wallets) && Step(s, e, s') && !e.UploadInstructions?
    requires s.nextId !in s.wallets
    ensures WalletsConsistent(s'.wallets)
  {
    if !TouchesWallets(e) {
      OtherEventLeavesWallets(s, e, s');
    } else if WalletEvent(e) {
      WalletEventIs(s, e, s');
      WalletEventKeepsIndexes(s, e);
    } else if e.StartDisbursement? {
      StartKeepsIndexes(s, e.disbursement);
    }
  }

  lemma StepKeepsReceiverIndexes(s: Tables, e: Event, s': Tables)
    requires ReceiversConsistent(s.receivers) && Step(s, e, s') && !e.UploadInstructions?
    requires s.nextId !in s.receivers
    ensures ReceiversConsistent(s'.receivers)
  {
    if PaymentEvent(e) {
      PaymentEventLeaves(s, e, s');
    } else if WalletEvent(e) {
      WalletEventLeaves(s, e, s');
    } else if e.InsertReceiver? && s' != s {
      InsertedReceiverConsistent(s.receivers, s.nextId, e.row);
    } else if e.UpdateReceiver? && s' != s {
      UpdatedReceiverConsistent(s.receivers, e.receiver, e.contacts);
    }
  }

  // ---------- the invariant ----------

  /** Every transaction keeps the invariant. */
  lemma StepKeepsInv(s: Tables, e: Event, s': Tables)
    requires Inv(s) && Step(s, e, s')
    ensures Inv(s') && Frame(s, s')
  {
    assert PayInv(s) && DisbInv(s) && WalInv(s) && RecInv(s);
    StepKeepsPayments(s, e, s');
    StepKeepsDisbursements(s, e, s');
    StepKeepsWallets(s, e, s');
    StepKeepsReceivers(s, e, s');
    if !e.UploadInstructions? {
      StepKeepsWalletIndexes(s, e, s');
      StepKeepsReceiverIndexes(s, e, s');
    }
  }
}
