/**
 Rows of the lifecycle tables and the SQL statements that select and write them, as functions on maps keyed by row id.
 */
module Tables {
  import opened Statuses

  /** Row ids come from one counter, in place of uuid_generate_v4(). */
  type Id = nat

  datatype Option<+T> = None | Some(value: T)

  datatype Error =
    | RecordNotFound | MissingInput | InvalidInput | InvalidTransition | RowCountMismatch
    | MaxInstructionsExceeded | DuplicateContact | DuplicateWalletAddress | WalletAddressMismatch
    | MemosNotSupported | VerificationMismatch | ReceiverCountMismatch
    | WalletNotRegistered | UserManagedWallet | PaymentsInProgress | ConstraintViolation

  datatype Outcome = Done | Failed(error: Error)

  datatype Entry<+S> = Entry(status: S, timestamp: int)

  /** A stored or supplied Stellar address. Account and Contract are the two forms strkey accepts. */
  datatype Address = NoAddress | Account(key: string) | Contract(key: string) | Malformed(text: string)

  datatype Memo = NoMemo | ParsedMemo(text: string) | UnparsableMemo(text: string)

  datatype ContactType = PhoneContact | EmailContact

  datatype Field = DateOfBirth | Pin | NationalIdNumber | YearMonth

  /** A bcrypt hash, symbolically: it matches exactly the value it was made from. */
  datatype Hash = Hashed(value: string)

  datatype File = File(name: string, content: string)

  datatype Disbursement = Disbursement(
    status: DisbursementStatus, history: seq<Entry<DisbursementStatus>>,
    provider: Id, asset: Id, contactType: ContactType, includesWalletAddress: bool,
    verificationField: Option<Field>, file: Option<File>)

  /** A payment is of type DISBURSEMENT when it names a disbursement and DIRECT when it does not. */
  datatype Payment = Payment(
    disbursement: Option<Id>, receiver: Id, wallet: Id, asset: Id, amount: int,
    status: PaymentStatus, history: seq<Entry<PaymentStatus>>, transactionId: string, updatedAt: int)

  datatype Wallet = Wallet(
    receiver: Id, provider: Id, address: Address, memo: string,
    status: WalletStatus, history: seq<Entry<WalletStatus>>, invitationSentAt: Option<int>)

  datatype Receiver = Receiver(phone: string, email: string, name: string)

  datatype Verification = Verification(hash: Hash, confirmedAt: Option<int>)

  datatype Tables = Tables(
    disbursements: map<Id, Disbursement>,
    payments: map<Id, Payment>,
    wallets: map<Id, Wallet>,
    receivers: map<Id, Receiver>,
    verifications: map<(Id, Field), Verification>,
    nextId: Id,
    now: int)

  const EMPTY := Tables(map[], map[], map[], map[], map[], 0, 0)

  /** Amounts are in stroops; ValidateAmount accepts the positive 64-bit ones. */
  const MAX_AMOUNT := 0x7FFF_FFFF_FFFF_FFFF

  predicate ValidAmount(amount: int) { 0 < amount <= MAX_AMOUNT }

  function Last<T>(s: seq<T>): T
    requires s != []
  {
    s[|s| - 1]
  }

  // ---------- payments ----------

  function PaymentsOf(payments: map<Id, Payment>, d: Id): set<Id> {
    set id | id in payments && payments[id].disbursement == Some(d)
  }

  /** The payments of `d` that the set-based update selects for target status `to`. */
  function Movable(payments: map<Id, Payment>, d: Id, to: PaymentStatus): set<Id> {
    set id | id in payments && payments[id].disbursement == Some(d) && PaymentEdge(payments[id].status, to)
  }

  function MovedPayment(p: Payment, to: PaymentStatus, now: int, transactionId: Option<string>): Payment {
    p.(status := to, history := p.history + [Entry(to, now)], updatedAt := now,
       transactionId := if transactionId.Some? then transactionId.value else p.transactionId)
  }

  /** UPDATE payments SET status, status_history = array_append(...) WHERE id is in `ids`. */
  function MovePayments(payments: map<Id, Payment>, ids: set<Id>, to: PaymentStatus, now: int,
                        transactionId: Option<string>)
    : (moved: map<Id, Payment>)
  {
    map id | id in payments :: if id in ids then MovedPayment(payments[id], to, now, transactionId) else payments[id]
  }

  /** DELETE FROM payments WHERE disbursement_id = d AND status = 'DRAFT'. */
  function WithoutDrafts(payments: map<Id, Payment>, d: Id): map<Id, Payment> {
    map id | id in payments && !(payments[id].disbursement == Some(d) && payments[id].status == DraftPayment) ::
      payments[id]
  }

  /** Rows inserted one after the other get consecutive ids. */
  function Numbered<T>(first: Id, rows: seq<T>): (m: map<Id, T>)
    ensures forall id :: id in m <==> first <= id < first + |rows|
    ensures forall id :: id in m ==> m[id] == rows[id - first]
  {
    if rows == [] then map[] else Numbered(first, rows[..|rows| - 1])[first + |rows| - 1 := Last(rows)]
  }

  // ---------- disbursements ----------

  function MoveDisbursements(ds: map<Id, Disbursement>, ids: set<Id>, to: DisbursementStatus,
                             now: int): map<Id, Disbursement> {
    map d | d in ds :: if d in ids then ds[d].(status := to, history := ds[d].history + [Entry(to, now)]) else ds[d]
  }

  predicate AllPaymentsIn(payments: map<Id, Payment>, d: Id, statuses: set<PaymentStatus>) {
    forall id | id in payments && payments[id].disbursement == Some(d) :: payments[id].status in statuses
  }

  /** The rows CompleteIfNecessary completes: started, with every payment sent or canceled. */
  function Completable(ds: map<Id, Disbursement>, payments: map<Id, Payment>): set<Id> {
    set d | d in ds && ds[d].status == StartedDisbursement
      && AllPaymentsIn(payments, d, {SuccessPayment, CanceledPayment})
  }

  /** The rows CompleteDisbursements completes among `ids`: started, with every payment sent. */
  function StrictlyCompletable(ds: map<Id, Disbursement>, payments: map<Id, Payment>, ids: set<Id>): set<Id> {
    set d | d in ds && d in ids && ds[d].status == StartedDisbursement && AllPaymentsIn(payments, d, {SuccessPayment})
  }

  // ---------- receiver wallets ----------

  /** Wallets paid by disbursement `d` that the bulk update moves; registering ones must carry an address. */
  function WalletsOf(payments: map<Id, Payment>, wallets: map<Id, Wallet>, d: Id, from: WalletStatus,
                     to: WalletStatus): set<Id> {
    set w | w in wallets && wallets[w].status == from
            && (to != RegisteredWallet || wallets[w].address != NoAddress)
            && exists p | p in payments :: payments[p].disbursement == Some(d) && payments[p].wallet == w
  }

  /** The bulk update appends to the status history. */
  function MoveWallets(wallets: map<Id, Wallet>, ids: set<Id>, to: WalletStatus, now: int): map<Id, Wallet> {
    map w | w in wallets ::
      if w in ids then wallets[w].(status := to, history := wallets[w].history + [Entry(to, now)]) else wallets[w]
  }

  datatype WalletUpdate = WalletUpdate(status: Option<WalletStatus>, address: Address, memo: Option<string>)

  predicate AddressTaken(wallets: map<Id, Wallet>, receiver: Id, address: Address) {
    exists w | w in wallets :: wallets[w].address == address && wallets[w].receiver != receiver
  }

  /** The checks a single-row update makes, in the order it makes them. */
  function WalletUpdateOutcome(wallets: map<Id, Wallet>, id: Id, u: WalletUpdate): Outcome {
    if u.status.None? && u.address.NoAddress? && u.memo.None? then Failed(InvalidInput)
    else if u.address.Malformed? then Failed(InvalidInput)
    else if u.memo.Some? && u.address.NoAddress? && id !in wallets then Failed(RecordNotFound)
    else if u.memo.Some? && u.memo.value != ""
            && (if u.address.NoAddress? then wallets[id].address else u.address).Contract?
      then Failed(MemosNotSupported)
    else if id !in wallets then Failed(RecordNotFound)
    else if !StoredAddress(wallets[id], u).NoAddress?
            && AddressTaken(wallets, wallets[id].receiver, StoredAddress(wallets[id], u))
      then Failed(DuplicateWalletAddress)
    else Done
  }

  function StoredAddress(w: Wallet, u: WalletUpdate): Address {
    if u.address.NoAddress? then w.address else u.address
  }

  /** A single-row update prepends to the status history; fields that are not supplied keep their value. */
  function UpdatedWallet(w: Wallet, u: WalletUpdate, now: int): Wallet {
    w.(status := if u.status.Some? then u.status.value else w.status,
       history := if u.status.Some? then [Entry(u.status.value, now)] + w.history else w.history,
       address := StoredAddress(w, u),
       memo := if u.memo.Some? then u.memo.value else w.memo)
  }

  /** The unregister step appends, and clears address, memo and invitation. */
  function UnregisteredWallet(w: Wallet, now: int): Wallet {
    w.(status := ReadyWallet, history := w.history + [Entry(ReadyWallet, now)],
       address := NoAddress, memo := "", invitationSentAt := None)
  }

  predicate HasPaymentsInProgress(payments: map<Id, Payment>, w: Id) {
    exists p | p in payments :: payments[p].wallet == w && InProgress(payments[p].status)
  }

  function NewWallet(receiver: Id, provider: Id, now: int): Wallet {
    Wallet(receiver, provider, NoAddress, "", DraftWallet, [Entry(DraftWallet, now)], None)
  }

  // ---------- receivers ----------

  function LowerChar(c: char): char {
    if 'A' <= c <= 'Z' then c - 'A' + 'a' else c
  }

  function Lower(s: string): string {
    seq(|s|, i requires 0 <= i < |s| => LowerChar(s[i]))
  }

  /** The unique indexes on LOWER(phone_number) and LOWER(email); an empty string stands for NULL. */
  predicate ContactTaken(receivers: map<Id, Receiver>, r: Receiver) {
    exists id | id in receivers ::
      || (r.phone != "" && Lower(receivers[id].phone) == Lower(r.phone))
      || (r.email != "" && Lower(receivers[id].email) == Lower(r.email))
  }

  /** New contact information; None leaves a column as it is. */
  datatype ReceiverUpdate = ReceiverUpdate(phone: Option<string>, email: Option<string>)

  /** What the validation of an update demands: something to write, a phone without '@', an e-mail with one. */
  predicate ValidReceiverUpdate(u: ReceiverUpdate) {
    && (u.phone.Some? || u.email.Some?)
    && (u.phone.Some? ==> u.phone.value != "" && '@' !in u.phone.value)
    && (u.email.Some? ==> '@' in u.email.value)
  }

  function UpdatedReceiver(r: Receiver, u: ReceiverUpdate): Receiver {
    r.(phone := if u.phone.Some? then u.phone.value else r.phone,
       email := if u.email.Some? then u.email.value else r.email)
  }

  /** The formats the validators enforce: an e-mail has an '@' and a phone number has none. */
  predicate WellFormedContacts(phone: string, email: string) {
    '@' !in phone && (email != "" ==> '@' in email)
  }

  /** Every receiver can be contacted, and no two share a phone number or an e-mail up to letter case. */
  ghost predicate ReceiversConsistent(receivers: map<Id, Receiver>) {
    && (forall r | r in receivers ::
          && WellFormedContacts(receivers[r].phone, receivers[r].email)
          && (receivers[r].phone != "" || receivers[r].email != ""))
    && (forall q, r | q in receivers && r in receivers && q != r ::
          && (receivers[q].phone != "" ==> Lower(receivers[q].phone) != Lower(receivers[r].phone))
          && (receivers[q].email != "" ==> Lower(receivers[q].email) != Lower(receivers[r].email)))
  }

  /** One wallet per receiver and provider, and no address shared by two receivers. */
  ghost predicate WalletsConsistent(wallets: map<Id, Wallet>) {
    forall v, w | v in wallets && w in wallets && v != w ::
      && (wallets[v].receiver != wallets[w].receiver || wallets[v].provider != wallets[w].provider)
      && (wallets[v].address == wallets[w].address != NoAddress ==> wallets[v].receiver == wallets[w].receiver)
  }
}
