/** The status columns of the three lifecycle tables and the transition tables written over them. */
module Statuses {

  datatype PaymentStatus =
    | DraftPayment | ReadyPayment | PendingPayment | PausedPayment
    | SuccessPayment | FailedPayment | CanceledPayment

  datatype DisbursementStatus =
    | DraftDisbursement | ReadyDisbursement | StartedDisbursement | PausedDisbursement | CompletedDisbursement

  datatype WalletStatus = DraftWallet | ReadyWallet | RegisteredWallet | FlaggedWallet

  datatype Transition<S> = Transition(from: S, to: S)

  const PAYMENT_STATUSES: seq<PaymentStatus> :=
    [DraftPayment, ReadyPayment, PendingPayment, PausedPayment, SuccessPayment, FailedPayment, CanceledPayment]

  const PAYMENT_TRANSITIONS: seq<Transition<PaymentStatus>> := [
    Transition(DraftPayment, ReadyPayment),
    Transition(ReadyPayment, PendingPayment),
    Transition(ReadyPayment, PausedPayment),
    Transition(ReadyPayment, CanceledPayment),
    Transition(ReadyPayment, FailedPayment),
    Transition(PausedPayment, ReadyPayment),
    Transition(PendingPayment, FailedPayment),
    Transition(FailedPayment, PendingPayment),
    Transition(PendingPayment, SuccessPayment)
  ]

  const DISBURSEMENT_STATUSES: seq<DisbursementStatus> :=
    [DraftDisbursement, ReadyDisbursement, StartedDisbursement, PausedDisbursement, CompletedDisbursement]

  const DISBURSEMENT_TRANSITIONS: seq<Transition<DisbursementStatus>> := [
    Transition(DraftDisbursement, ReadyDisbursement),
    Transition(ReadyDisbursement, ReadyDisbursement),
    Transition(ReadyDisbursement, StartedDisbursement),
    Transition(StartedDisbursement, PausedDisbursement),
    Transition(PausedDisbursement, StartedDisbursement),
    Transition(StartedDisbursement, CompletedDisbursement)
  ]

  const WALLET_TRANSITIONS: seq<Transition<WalletStatus>> := [
    Transition(DraftWallet, ReadyWallet),
    Transition(ReadyWallet, RegisteredWallet),
    Transition(ReadyWallet, FlaggedWallet),
    Transition(FlaggedWallet, ReadyWallet),
    Transition(RegisteredWallet, FlaggedWallet),
    Transition(FlaggedWallet, RegisteredWallet)
  ]

  /** What the payment table says in words: the moves a payment may make. */
  predicate PaymentEdge(from: PaymentStatus, to: PaymentStatus) {
    match from
    case DraftPayment => to == ReadyPayment
    case ReadyPayment => to in {PendingPayment, PausedPayment, CanceledPayment, FailedPayment}
    case PendingPayment => to in {SuccessPayment, FailedPayment}
    case PausedPayment => to == ReadyPayment
    case FailedPayment => to == PendingPayment
    case SuccessPayment => false
    case CanceledPayment => false
  }

  predicate DisbursementEdge(from: DisbursementStatus, to: DisbursementStatus) {
    match from
    case DraftDisbursement => to == ReadyDisbursement
    case ReadyDisbursement => to == ReadyDisbursement || to == StartedDisbursement
    case StartedDisbursement => to == PausedDisbursement || to == CompletedDisbursement
    case PausedDisbursement => to == StartedDisbursement
    case CompletedDisbursement => false
  }

  predicate WalletEdge(from: WalletStatus, to: WalletStatus) {
    match from
    case DraftWallet => to == ReadyWallet
    case ReadyWallet => to == RegisteredWallet || to == FlaggedWallet
    case RegisteredWallet => to == FlaggedWallet
    case FlaggedWallet => to == ReadyWallet || to == RegisteredWallet
  }

  predicate NotStarted(status: DisbursementStatus) {
    status == DraftDisbursement || status == ReadyDisbursement
  }

  /** Statuses of a payment that still blocks unregistering its receiver wallet. */
  predicate InProgress(status: PaymentStatus) {
    status in {ReadyPayment, PendingPayment, PausedPayment}
  }

  /** Statuses from which no step may move a payment again. */
  predicate Final(status: PaymentStatus) {
    status == SuccessPayment || status == CanceledPayment
  }
}
