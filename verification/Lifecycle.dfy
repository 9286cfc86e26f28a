/**
 The lifecycle as a state machine over whole tables: one event per transaction of the data layer. An event whose guard
 fails is a transaction that returned an error: it leaves the tables as they were.
 */
module Lifecycle {
  import opened Statuses
  import opened Tables

  // ---------- instructions and what an upload does ----------

  datatype Instruction = Instruction(
    phone: string, email: string, amount: int, name: string, idNo: string, walletAddress: Address, memo: Memo)

  /** The one contact of an instruction; None when it has both or neither. */
  function Contact(i: Instruction): Option<string> {
    if i.phone != "" && i.email != "" then None
    else if i.phone != "" then Some(i.phone)
    else if i.email != "" then Some(i.email)
    else None
  }

  predicate Matches(contact: string, r: Receiver) {
    contact == r.phone || contact == r.email
  }

  function ContactByType(r: Receiver, contactType: ContactType): string {
    match contactType
    case PhoneContact => r.phone
    case EmailContact => r.email
  }

  datatype Upload = Upload(disbursement: Id, instructions: seq<Instruction>, file: File, maxInstructions: nat)

  /** The draft payment that an instruction becomes. */
  function DraftFor(u: Upload, row: Disbursement, i: nat, receiver: Id, wallet: Id, now: int): Payment
    requires i < |u.instructions|
  {
    Payment(Some(u.disbursement), receiver, wallet, row.asset, u.instructions[i].amount,
            DraftPayment, [Entry(DraftPayment, now)], "", now)
  }

  function DraftsFor(u: Upload, row: Disbursement, owners: seq<Id>, walletIds: seq<Id>, now: int): (rows: seq<Payment>)
    requires |owners| == |walletIds| == |u.instructions|
  {
    seq(|u.instructions|, i requires 0 <= i < |u.instructions| => DraftFor(u, row, i, owners[i], walletIds[i], now))
  }

  /** The memo column is written only when the instruction carries a memo. */
  function SuppliedMemo(m: Memo): Option<string> {
    match m
    case NoMemo => None
    case ParsedMemo(text) => Some(text)
    case UnparsableMemo(text) => Some(text)
  }

  /** Looking a wallet up again drops the invitation timestamp of a READY one. */
  function Reinvited(w: Wallet): Wallet {
    if w.status == ReadyWallet then w.(invitationSentAt := None) else w
  }

  /** The update that registers a wallet with what its instruction supplies. */
  function SuppliedUpdate(i: Instruction): WalletUpdate {
    WalletUpdate(Some(RegisteredWallet), i.walletAddress, SuppliedMemo(i.memo))
  }

  /** An address that is stored already must be the supplied one. */
  predicate AddressAgrees(w: Wallet, i: Instruction) {
    w.address != NoAddress ==> w.address == i.walletAddress
  }

  /** Memo and address can be stored: both are readable, and a contract address has no memo. */
  predicate Storable(w: Wallet, i: Instruction) {
    && !i.memo.UnparsableMemo? && !i.walletAddress.Malformed?
    && !(i.memo.ParsedMemo? && i.memo.text != "" && StoredAddress(w, SuppliedUpdate(i)).Contract?)
  }

  predicate Registrable(w: Wallet, i: Instruction) {
    AddressAgrees(w, i) && (w.status in {RegisteredWallet, FlaggedWallet} || Storable(w, i))
  }

  /** A supplied address registers the wallet, unless it is REGISTERED or FLAGGED already. */
  function UploadedWallet(w: Wallet, includesWalletAddress: bool, i: Instruction, now: int): Wallet {
    if !includesWalletAddress || w.status in {RegisteredWallet, FlaggedWallet} then Reinvited(w)
    else UpdatedWallet(Reinvited(w), SuppliedUpdate(i), now)
  }

  /** The verification an upload leaves behind; None when it must abort instead. */
  function UploadedVerification(before: Option<Verification>, idNo: string): Option<Verification> {
    match before
    case None => if Blank(idNo) then None else Some(Verification(Hashed(idNo), None))
    case Some(v) =>
      if v.hash == Hashed(idNo) then Some(v)
      else if v.confirmedAt.Some? then None
      else Some(v.(hash := Hashed(idNo)))
  }

  predicate Blank(s: string) {
    forall i | 0 <= i < |s| :: s[i] in " \t\n\r"
  }

  function VerificationAt(vs: map<(Id, Field), Verification>, receiver: Id, field: Field): Option<Verification> {
    if (receiver, field) in vs then Some(vs[(receiver, field)]) else None
  }

  ghost predicate Distinct<T(!new)>(s: seq<T>) {
    forall i, j :: 0 <= i < j < |s| ==> s[i] != s[j]
  }

  /** Instruction i belongs to receiver owners[i]; owners are pairwise different, and only missing ones are inserted. */
  ghost predicate ReceiversUploaded(s: Tables, u: Upload, s': Tables, owners: seq<Id>, first: Id) {
    && |owners| == |u.instructions|
    && Distinct(owners)
    && (forall i | 0 <= i < |owners| ::
          && owners[i] in s'.receivers && Contact(u.instructions[i]).Some?
          && Matches(Contact(u.instructions[i]).value, s'.receivers[owners[i]])
          && (|| owners[i] in s.receivers
              || (s.nextId <= owners[i] < first && s'.receivers[owners[i]] == ReceiverFor(u.instructions[i]))))
    && (forall r | r in s.receivers :: r in s'.receivers && s'.receivers[r] == s.receivers[r])
    && (forall r | r in s'.receivers :: r in s.receivers || r in owners)
  }

  function ReceiverFor(i: Instruction): Receiver {
    Receiver(i.phone, i.email, i.name)
  }

  /** The wallet that receiver and provider had before the upload, or the one it inserts for them. */
  function WalletBefore(s: Tables, id: Id, receiver: Id, provider: Id): Wallet {
    if id in s.wallets then s.wallets[id] else NewWallet(receiver, provider, s.now)
  }

  /** walletIds[i] is the wallet of owners[i] for the disbursement's provider; no other wallet changes. */
  ghost predicate WalletsUploaded(s: Tables, u: Upload, row: Disbursement, s': Tables, owners: seq<Id>,
                                  walletIds: seq<Id>, first: Id) {
    && |walletIds| == |owners| == |u.instructions|
    && (forall i | 0 <= i < |walletIds| ::
          var before := WalletBefore(s, walletIds[i], owners[i], row.provider);
          && (walletIds[i] in s.wallets || s.nextId <= walletIds[i] < first)
          && before.receiver == owners[i] && before.provider == row.provider
          && (row.includesWalletAddress ==> Registrable(before, u.instructions[i]))
          && walletIds[i] in s'.wallets
          && s'.wallets[walletIds[i]] == UploadedWallet(before, row.includesWalletAddress, u.instructions[i], s.now))
    && (forall w | w in s.wallets :: w in s'.wallets && (w in walletIds || s'.wallets[w] == s.wallets[w]))
    && (forall w | w in s'.wallets :: w in s.wallets || w in walletIds)
  }

  /**
   The drafts of the disbursement are replaced by one new draft per instruction, and the disbursement becomes READY.
   */
  ghost predicate PaymentsUploaded(s: Tables, u: Upload, row: Disbursement, s': Tables, owners: seq<Id>,
                                   walletIds: seq<Id>, first: Id) {
    && |walletIds| == |owners| == |u.instructions|
    && NotStarted(row.status)
    && s.nextId <= first && s'.nextId == first + |u.instructions| && s'.now == s.now
    && (forall i | 0 <= i < |u.instructions| :: ValidAmount(u.instructions[i].amount))
    && s'.payments == WithoutDrafts(s.payments, u.disbursement)
                      + Numbered(first, DraftsFor(u, row, owners, walletIds, s.now))
    && s'.disbursements == s.disbursements[u.disbursement :=
         row.(status := ReadyDisbursement, history := row.history + [Entry(ReadyDisbursement, s.now)],
              file := Some(u.file))]
  }

  /** The instructions are within the limit, and the file has a name and a content. */
  predicate Accepted(u: Upload) {
    |u.instructions| <= u.maxInstructions && u.file.name != "" && u.file.content != ""
  }

  predicate Verifies(row: Disbursement) {
    !row.includesWalletAddress && row.verificationField.Some?
  }

  /**
   Receivers that existed, and all receivers that are verified, have the instruction's contact as their contact of the
   type.
   */
  ghost predicate FoundByType(s: Tables, u: Upload, row: Disbursement, s': Tables, owners: seq<Id>) {
    && |owners| == |u.instructions|
    && forall i | 0 <= i < |owners| && owners[i] in s'.receivers && (owners[i] in s.receivers || Verifies(row)) ::
         Contact(u.instructions[i]) == Some(ContactByType(s'.receivers[owners[i]], row.contactType))
  }

  /**
   A successful upload `u` from `s` to `s'`: instruction i is paid to receiver owners[i] through wallet walletIds[i].
   */
  ghost predicate UploadedTo(s: Tables, u: Upload, s': Tables, owners: seq<Id>, walletIds: seq<Id>, first: Id) {
    && u.disbursement in s.disbursements
    && var row := s.disbursements[u.disbursement];
    && Accepted(u)
    && ReceiversUploaded(s, u, s', owners, first)
    && FoundByType(s, u, row, s', owners)
    && WalletsUploaded(s, u, row, s', owners, walletIds, first)
    && VerificationsUploaded(s, u, row, s', owners)
    && PaymentsUploaded(s, u, row, s', owners, walletIds, first)
    && (Consistent(s) ==> Consistent(s'))
  }

  ghost predicate Consistent(s: Tables) {
    ReceiversConsistent(s.receivers) && WalletsConsistent(s.wallets)
  }

  /** Every receiver's stored value comes from its instruction; no other verification changes. */
  ghost predicate VerificationsUploaded(s: Tables, u: Upload, row: Disbursement, s': Tables, owners: seq<Id>) {
    && |owners| == |u.instructions|
    && if !Verifies(row) then s'.verifications == s.verifications
       else
         var field := row.verificationField.value;
         && (forall i | 0 <= i < |owners| ::
               var after := UploadedVerification(VerificationAt(s.verifications, owners[i], field),
                                                 u.instructions[i].idNo);
               after.Some? && VerificationAt(s'.verifications, owners[i], field) == after)
         && (forall k | k in s.verifications :: k in s'.verifications
               && ((k.0 in owners && k.1 == field) || s'.verifications[k] == s.verifications[k]))
         && (forall k | k in s'.verifications :: k in s.verifications || (k.0 in owners && k.1 == field))
  }

  ghost predicate Uploaded(s: Tables, u: Upload, s': Tables) {
    exists owners, walletIds, first :: UploadedTo(s, u, s', owners, walletIds, first)
  }

  // ---------- events ----------

  datatype Event =
    | Advance(to: int)
    | InsertDisbursement(provider: Id, asset: Id, contactType: ContactType, includesWalletAddress: bool,
                         verificationField: Option<Field>)
    | UploadInstructions(upload: Upload)
    | DeleteDisbursement(disbursement: Id)
    | StartDisbursement(disbursement: Id)
    | PauseDisbursement(disbursement: Id)
    | SendBatch(batchSize: int, batch: seq<Id>)
    | SyncPayment(payment: Id, succeeded: bool, transactionId: string)
    | ReconcilePayment(payment: Id, succeeded: bool, transactionId: string)
    | CompleteIfNecessary
    | RetryFailedPayments(email: string, payments: seq<Id>)
    | CancelPayment(payment: Id)
    | CancelReadyPayments(periodInDays: int)
    | CreateDirectPayment(wallet: Id, asset: Id, amount: int)
    | InsertReceiver(row: Receiver)
    | UpdateReceiver(receiver: Id, contacts: ReceiverUpdate)
    | MarkInvited(wallets: set<Id>)
    | InsertWallet(receiver: Id, provider: Id)
    | UpdateWallet(wallet: Id, update: WalletUpdate)
    | UnregisterWallet(wallet: Id, userManaged: bool)
    | MoveWalletsOf(disbursement: Id, from: WalletStatus, target: WalletStatus)
    | ConfirmVerification(receiver: Id, field: Field)
    | UpsertVerification(receiver: Id, field: Field, value: string)

  const DAY := 86400

  function MoveIn(s: Tables, ids: set<Id>, to: PaymentStatus, transactionId: Option<string>): Tables {
    s.(payments := MovePayments(s.payments, ids, to, s.now, transactionId))
  }

  function Elements(ids: seq<Id>): set<Id> { set id | id in ids }

  /** Starts a READY disbursement or resumes a PAUSED one. */
  function Started(s: Tables, d: Id): Tables {
    if d in s.disbursements && DisbursementEdge(s.disbursements[d].status, StartedDisbursement) then
      var payments := MovePayments(s.payments, Movable(s.payments, d, ReadyPayment), ReadyPayment, s.now, None);
      var readied := MoveWallets(s.wallets, WalletsOf(payments, s.wallets, d, DraftWallet, ReadyWallet), ReadyWallet,
                                 s.now);
      var registered := MoveWallets(readied, WalletsOf(payments, readied, d, ReadyWallet, RegisteredWallet),
                                    RegisteredWallet, s.now);
      s.(payments := payments, wallets := registered,
         disbursements := MoveDisbursements(s.disbursements, {d}, StartedDisbursement, s.now))
    else s
  }

  function Paused(s: Tables, d: Id): Tables {
    if d in s.disbursements && DisbursementEdge(s.disbursements[d].status, PausedDisbursement) then
      s.(payments := MovePayments(s.payments, Movable(s.payments, d, PausedPayment), PausedPayment, s.now, None),
         disbursements := MoveDisbursements(s.disbursements, {d}, PausedDisbursement, s.now))
    else s
  }

  function Deleted(s: Tables, d: Id): Tables {
    if d in s.disbursements && NotStarted(s.disbursements[d].status)
       && PaymentsOf(WithoutDrafts(s.payments, d), d) == {} then
      s.(payments := WithoutDrafts(s.payments, d), disbursements := s.disbursements - {d})
    else s
  }

  /** The WHERE clauses of the two batch queries. */
  predicate Eligible(s: Tables, id: Id) {
    && id in s.payments
    && s.payments[id].status == ReadyPayment
    && s.payments[id].wallet in s.wallets && s.wallets[s.payments[id].wallet].status == RegisteredWallet
    && match s.payments[id].disbursement
       case None => true
       case Some(d) => d in s.disbursements && s.disbursements[d].status == StartedDisbursement
  }

  function EligiblePayments(s: Tables): set<Id> {
    set id | id in s.payments && Eligible(s, id)
  }

  /** ORDER BY: disbursement payments first, by disbursement and then age; direct payments after them, by age. */
  predicate Precedes(p: Payment, q: Payment) {
    match (p.disbursement, q.disbursement)
    case (Some(d), Some(e)) => d < e || (d == e && p.updatedAt <= q.updatedAt)
    case (Some(_), None) => true
    case (None, Some(_)) => false
    case (None, None) => p.updatedAt <= q.updatedAt
  }

  function Min(a: int, b: int): int { if a < b then a else b }

  /** `batch` is a possible answer of GetBatchForUpdate: the first `size` eligible rows in query order. */
  ghost predicate IsBatch(s: Tables, size: int, batch: seq<Id>) {
    && 0 < size
    && Distinct(batch)
    && |batch| == Min(size, |EligiblePayments(s)|)
    && (forall i | 0 <= i < |batch| :: Eligible(s, batch[i]))
    && (forall i, j | 0 <= i < j < |batch| :: Precedes(s.payments[batch[i]], s.payments[batch[j]]))
    && (forall i, id | 0 <= i < |batch| && Eligible(s, id) && id !in batch ::
          Precedes(s.payments[batch[i]], s.payments[id]))
  }

  /** A selected row is sent unless its amount or destination turns out to be unusable. */
  predicate ReadyForSending(s: Tables, id: Id)
    requires Eligible(s, id)
  {
    ValidAmount(s.payments[id].amount) && s.wallets[s.payments[id].wallet].address != NoAddress
  }

  function Sendable(s: Tables, batch: set<Id>): set<Id> {
    set id | id in batch && Eligible(s, id) && ReadyForSending(s, id)
  }

  /** Rows that fail validation become FAILED, then the others are handed over and become PENDING. */
  function Dispatched(s: Tables, batch: set<Id>): Tables {
    var failed := MoveIn(s, batch - Sendable(s, batch), FailedPayment, None);
    MoveIn(failed, Sendable(s, batch), PendingPayment, None)
  }

  function SyncTarget(succeeded: bool): PaymentStatus {
    if succeeded then SuccessPayment else FailedPayment
  }

  function CompletedStrictly(s: Tables, ids: set<Id>): Tables {
    s.(disbursements := MoveDisbursements(s.disbursements, StrictlyCompletable(s.disbursements, s.payments, ids),
                                          CompletedDisbursement, s.now))
  }

  /** A result from the submitter: the payment moves, then its disbursement completes if that was the last one. */
  function Synced(s: Tables, id: Id, succeeded: bool, transactionId: string): Tables {
    if id in s.payments && !Blank(transactionId) && PaymentEdge(s.payments[id].status, SyncTarget(succeeded)) then
      var moved := MoveIn(s, {id}, SyncTarget(succeeded), Some(transactionId));
      if s.payments[id].disbursement.Some? then CompletedStrictly(moved, {s.payments[id].disbursement.value}) else moved
    else s
  }

  /** The update checks no transition; the event restricts it to payments that are PENDING. */
  function Reconciled(s: Tables, id: Id, succeeded: bool, transactionId: string): Tables {
    if id in s.payments && s.payments[id].status == PendingPayment
    then MoveIn(s, {id}, SyncTarget(succeeded), if transactionId != "" then Some(transactionId) else None) else s
  }

  function Completed(s: Tables): Tables {
    s.(disbursements := MoveDisbursements(s.disbursements, Completable(s.disbursements, s.payments),
                                          CompletedDisbursement, s.now))
  }

  function FailedAmong(payments: map<Id, Payment>, ids: set<Id>): set<Id> {
    set id | id in payments && id in ids && payments[id].status == FailedPayment
  }

  /** The row count must equal the length of the id list, otherwise the transaction is rolled back. */
  function Retried(s: Tables, email: string, ids: seq<Id>): Tables {
    if ids != [] && email != "" && |FailedAmong(s.payments, Elements(ids))| == |ids|
    then MoveIn(s, FailedAmong(s.payments, Elements(ids)), ReadyPayment, Some("")) else s
  }

  function Canceled(s: Tables, id: Id): Tables {
    if id in s.payments && PaymentEdge(s.payments[id].status, CanceledPayment)
    then MoveIn(s, {id}, CanceledPayment, None) else s
  }

  /** The newest READY entry of the history is not younger than the cutoff. */
  predicate ReadySince(history: seq<Entry<PaymentStatus>>, cutoff: int) {
    && (exists i | 0 <= i < |history| :: history[i].status == ReadyPayment)
    && (forall i | 0 <= i < |history| :: history[i].status == ReadyPayment ==> history[i].timestamp <= cutoff)
  }

  function Stale(s: Tables, periodInDays: int): set<Id> {
    set id | id in s.payments && s.payments[id].status == ReadyPayment
             && ReadySince(s.payments[id].history, s.now - periodInDays * DAY)
  }

  function AutoCanceled(s: Tables, periodInDays: int): Tables {
    MoveIn(s, Stale(s, periodInDays), CanceledPayment, None)
  }

  function WithDirectPayment(s: Tables, wallet: Id, asset: Id, amount: int): Tables {
    if wallet in s.wallets && s.wallets[wallet].status in {ReadyWallet, RegisteredWallet} && ValidAmount(amount) then
      s.(payments := s.payments[s.nextId := Payment(None, s.wallets[wallet].receiver, wallet, asset, amount,
                                                   ReadyPayment, [Entry(ReadyPayment, s.now)], "", s.now)],
         nextId := s.nextId + 1)
    else s
  }

  function WithReceiver(s: Tables, r: Receiver): Tables {
    if (r.phone != "" || r.email != "") && WellFormedContacts(r.phone, r.email) && !ContactTaken(s.receivers, r)
    then s.(receivers := s.receivers[s.nextId := r], nextId := s.nextId + 1) else s
  }

  function WithReceiverUpdate(s: Tables, id: Id, u: ReceiverUpdate): Tables {
    if id in s.receivers && ValidReceiverUpdate(u)
       && !ContactTaken(s.receivers - {id}, UpdatedReceiver(s.receivers[id], u))
    then s.(receivers := s.receivers[id := UpdatedReceiver(s.receivers[id], u)]) else s
  }

  /** Sending invitations stamps the READY wallets among `ids`. */
  function Invited(s: Tables, ids: set<Id>): Tables {
    s.(wallets := map w | w in s.wallets ::
         if w in ids && s.wallets[w].status == ReadyWallet then s.wallets[w].(invitationSentAt := Some(s.now))
           else s.wallets[w])
  }

  function WithWallet(s: Tables, receiver: Id, provider: Id): Tables {
    if receiver in s.receivers
       && !exists w | w in s.wallets :: s.wallets[w].receiver == receiver && s.wallets[w].provider == provider
    then s.(wallets := s.wallets[s.nextId := NewWallet(receiver, provider, s.now)], nextId := s.nextId + 1) else s
  }

  function WithWalletUpdate(s: Tables, w: Id, u: WalletUpdate): Tables {
    if WalletUpdateOutcome(s.wallets, w, u).Done? && w in s.wallets
    then s.(wallets := s.wallets[w := UpdatedWallet(s.wallets[w], u, s.now)]) else s
  }

  function Unregistered(s: Tables, w: Id, userManaged: bool): Tables {
    if w in s.wallets && s.wallets[w].status == RegisteredWallet && !userManaged
      && !HasPaymentsInProgress(s.payments, w)
    then s.(wallets := s.wallets[w := UnregisteredWallet(s.wallets[w], s.now)]) else s
  }

  function WalletsMoved(s: Tables, d: Id, from: WalletStatus, to: WalletStatus): Tables {
    if WalletEdge(from, to)
    then s.(wallets := MoveWallets(s.wallets, WalletsOf(s.payments, s.wallets, d, from, to), to, s.now)) else s
  }

  function WithVerification(s: Tables, receiver: Id, field: Field, value: string): Tables {
    if receiver !in s.receivers then s
    else
      var confirmed := if (receiver, field) in s.verifications then s.verifications[(receiver, field)].confirmedAt
        else None;
      s.(verifications := s.verifications[(receiver, field) := Verification(Hashed(value), confirmed)])
  }

  function WithConfirmation(s: Tables, receiver: Id, field: Field): Tables {
    if (receiver, field) in s.verifications
    then
      var confirmed := s.verifications[(receiver, field)].(confirmedAt := Some(s.now));
      s.(verifications := s.verifications[(receiver, field) := confirmed])
    else s
  }

  function WithDisbursement(s: Tables, e: Event): Tables
    requires e.InsertDisbursement?
  {
    s.(disbursements := s.disbursements[s.nextId :=
         Disbursement(DraftDisbursement, [Entry(DraftDisbursement, s.now)], e.provider, e.asset, e.contactType,
                      e.includesWalletAddress, e.verificationField, None)],
       nextId := s.nextId + 1)
  }

  /** One transaction. Only an upload and the choice of a batch leave the database freedom. */
  ghost predicate Step(s: Tables, e: Event, s': Tables) {
    match e
    case Advance(to) => s' == if s.now <= to then s.(now := to) else s
    case InsertDisbursement(_, _, _, _, _) => s' == WithDisbursement(s, e)
    case UploadInstructions(u) => s' == s || Uploaded(s, u, s')
    case DeleteDisbursement(d) => s' == Deleted(s, d)
    case StartDisbursement(d) => s' == Started(s, d)
    case PauseDisbursement(d) => s' == Paused(s, d)
    case SendBatch(size, batch) => s' == if IsBatch(s, size, batch) then Dispatched(s, Elements(batch)) else s
    case SyncPayment(id, succeeded, transactionId) => s' == Synced(s, id, succeeded, transactionId)
    case ReconcilePayment(id, succeeded, transactionId) => s' == Reconciled(s, id, succeeded, transactionId)
    case CompleteIfNecessary => s' == Completed(s)
    case RetryFailedPayments(email, ids) => s' == Retried(s, email, ids)
    case CancelPayment(id) => s' == Canceled(s, id)
    case CancelReadyPayments(days) => s' == AutoCanceled(s, days)
    case CreateDirectPayment(wallet, asset, amount) => s' == WithDirectPayment(s, wallet, asset, amount)
    case InsertReceiver(r) => s' == WithReceiver(s, r)
    case UpdateReceiver(receiver, contacts) => s' == WithReceiverUpdate(s, receiver, contacts)
    case MarkInvited(ids) => s' == Invited(s, ids)
    case InsertWallet(receiver, provider) => s' == WithWallet(s, receiver, provider)
    case UpdateWallet(w, u) => s' == WithWalletUpdate(s, w, u)
    case UnregisterWallet(w, userManaged) => s' == Unregistered(s, w, userManaged)
    case MoveWalletsOf(d, from, to) => s' == WalletsMoved(s, d, from, to)
    case ConfirmVerification(receiver, field) => s' == WithConfirmation(s, receiver, field)
    case UpsertVerification(receiver, field, value) => s' == WithVerification(s, receiver, field, value)
  }
}
