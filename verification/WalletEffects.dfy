/**
 What each transaction does to each row of the wallets, receivers and verifications tables, told by the columns alone:
 who is selected, what is written, and that everything else stays.
 */
module WalletEffects {
  import opened Statuses
  import opened Tables
  import opened Lifecycle
  import opened Steps
  import opened PaymentEffects

  /** Some payment of the disbursement goes to the wallet. */
  ghost predicate IsPaidBy(s: Tables, d: Id, w: Id) {
    exists p | p in s.payments :: s.payments[p].disbursement == Some(d) && s.payments[p].wallet == w
  }

  /** The wallet row takes a status, with one new last history entry, and keeps every other column. */
  predicate Advanced(w: Wallet, w': Wallet, to: WalletStatus, now: int) {
    w' == w.(status := to, history := w.history + [Entry(to, now)])
  }

  // ---------- updates for a disbursement ----------

  /** Exactly the wallets the disbursement pays and that have the source status move; REGISTERED asks for an address. */
  lemma BulkWalletEffect(s: Tables, d: Id, from: WalletStatus, to: WalletStatus, s': Tables, w: Id)
    requires Step(s, MoveWalletsOf(d, from, to), s') && w in s.wallets
    ensures s' == s.(wallets := s'.wallets) && s'.wallets.Keys == s.wallets.Keys
    ensures if && Transition(from, to) in WALLET_TRANSITIONS && IsPaidBy(s, d, w) && s.wallets[w].status == from
               && (to == RegisteredWallet ==> s.wallets[w].address != NoAddress)
            then Advanced(s.wallets[w], s'.wallets[w], to, s.now)
            else s'.wallets[w] == s.wallets[w]
  {
    assert Transition(from, to) in WALLET_TRANSITIONS <==> WalletEdge(from, to);
  }

  /** What a start makes of a wallet it pays. */
  predicate Readied(w: Wallet, w': Wallet, now: int) {
    if w.status == DraftWallet && w.address == NoAddress then Advanced(w, w', ReadyWallet, now)
    else if w.status == DraftWallet then
      w' == w.(status := RegisteredWallet,
               history := w.history + [Entry(ReadyWallet, now), Entry(RegisteredWallet, now)])
    else if w.status == ReadyWallet && w.address != NoAddress then Advanced(w, w', RegisteredWallet, now)
    else w' == w
  }

  /** The two updates of a start, one after the other, as seen from one wallet. */
  lemma ReadiedThenRegistered(payments: map<Id, Payment>, ws: map<Id, Wallet>, d: Id, now: int, w: Id)
    requires w in ws
    ensures var readied := MoveWallets(ws, WalletsOf(payments, ws, d, DraftWallet, ReadyWallet), ReadyWallet, now);
            var ws' := MoveWallets(readied, WalletsOf(payments, readied, d, ReadyWallet, RegisteredWallet),
                                   RegisteredWallet, now);
      && ws'.Keys == ws.Keys
      && if exists p | p in payments :: payments[p].disbursement == Some(d) && payments[p].wallet == w
         then Readied(ws[w], ws'[w], now) else ws'[w] == ws[w]
  {
    var readied := MoveWallets(ws, WalletsOf(payments, ws, d, DraftWallet, ReadyWallet), ReadyWallet, now);
    assert readied[w].status == DraftWallet ==> readied[w] == ws[w];
    assert ws[w].history + [Entry(ReadyWallet, now), Entry(RegisteredWallet, now)]
        == (ws[w].history + [Entry(ReadyWallet, now)]) + [Entry(RegisteredWallet, now)];
  }

  lemma MovedPaysSame(s: Tables, d: Id, payments: map<Id, Payment>, w: Id)
    requires payments == MovePayments(s.payments, Movable(s.payments, d, ReadyPayment), ReadyPayment, s.now, None)
    ensures IsPaidBy(s, d, w) <==> exists p | p in payments ::
                                     payments[p].disbursement == Some(d) && payments[p].wallet == w
  {
    if IsPaidBy(s, d, w) {
      var p :| p in s.payments && s.payments[p].disbursement == Some(d) && s.payments[p].wallet == w;
      assert p in payments && payments[p].disbursement == Some(d) && payments[p].wallet == w;
    }
  }

  /** A start touches only wallets that the started disbursement pays. */
  lemma StartWalletEffect(s: Tables, d: Id, s': Tables, w: Id)
    requires Step(s, StartDisbursement(d), s') && w in s.wallets
    ensures s'.wallets.Keys == s.wallets.Keys
    ensures if MayStart(s, d) && IsPaidBy(s, d, w) then Readied(s.wallets[w], s'.wallets[w], s.now)
            else s'.wallets[w] == s.wallets[w]
  {
    if MayStart(s, d) {
      var payments := MovePayments(s.payments, Movable(s.payments, d, ReadyPayment), ReadyPayment, s.now, None);
      MovedPaysSame(s, d, payments, w);
      ReadiedThenRegistered(payments, s.wallets, d, s.now, w);
    }
  }

  // ---------- single wallets ----------

  /** Unregistering clears address, memo and invitation of a REGISTERED wallet that no payment in progress needs. */
  lemma UnregisterEffect(s: Tables, w: Id, userManaged: bool, s': Tables)
    requires Step(s, UnregisterWallet(w, userManaged), s')
    ensures if && w in s.wallets && s.wallets[w].status == RegisteredWallet && !userManaged
               && forall p | p in s.payments && s.payments[p].wallet == w ::
                    s.payments[p].status !in {ReadyPayment, PendingPayment, PausedPayment}
            then && s' == s.(wallets := s.wallets[w := s'.wallets[w]])
                 && var row, row' := s.wallets[w], s'.wallets[w];
                 && row'.status == ReadyWallet && row'.history == row.history + [Entry(ReadyWallet, s.now)]
                 && row'.address == NoAddress && row'.memo == "" && row'.invitationSentAt == None
                 && row'.receiver == row.receiver && row'.provider == row.provider
            else s' == s
  {
  }

  /** The address that the wallet has after the update. */
  function NewAddress(w: Wallet, u: WalletUpdate): Address {
    if u.address != NoAddress then u.address else w.address
  }

  /** What an update asks for. */
  ghost predicate Acceptable(s: Tables, w: Id, u: WalletUpdate) {
    && (u.status != None || u.address != NoAddress || u.memo != None)
    && !u.address.Malformed?
    && w in s.wallets
    && !(u.memo != None && u.memo != Some("") && NewAddress(s.wallets[w], u).Contract?)
    && (NewAddress(s.wallets[w], u) != NoAddress ==>
          forall v | v in s.wallets && s.wallets[v].address == NewAddress(s.wallets[w], u) ::
            s.wallets[v].receiver == s.wallets[w].receiver)
  }

  /** An update writes the columns it supplies and puts its status first in the history. */
  lemma UpdateWalletEffect(s: Tables, w: Id, u: WalletUpdate, s': Tables)
    requires Step(s, UpdateWallet(w, u), s')
    ensures WalletUpdateOutcome(s.wallets, w, u) == Done <==> Acceptable(s, w, u)
    ensures !Acceptable(s, w, u) ==> s' == s
    ensures Acceptable(s, w, u) ==>
              && s' == s.(wallets := s.wallets[w := s'.wallets[w]])
              && var row, row' := s.wallets[w], s'.wallets[w];
              && row'.receiver == row.receiver && row'.provider == row.provider
              && row'.invitationSentAt == row.invitationSentAt
              && (u.status == None ==> row'.status == row.status && row'.history == row.history)
              && (u.status != None ==>
                    Some(row'.status) == u.status && row'.history == [Entry(row'.status, s.now)] + row.history)
              && row'.address == NewAddress(row, u)
              && (u.memo == None ==> row'.memo == row.memo)
              && (u.memo != None ==> Some(row'.memo) == u.memo)
  {
  }

  /** The reason a refused update is refused for: the first of the checks that fails. */
  lemma UpdateWalletRefusals(ws: map<Id, Wallet>, w: Id, u: WalletUpdate)
    ensures WalletUpdateOutcome(ws, w, u) == Failed(InvalidInput) <==>
            (u.status == None && u.address == NoAddress && u.memo == None) || u.address.Malformed?
    ensures WalletUpdateOutcome(ws, w, u) == Failed(RecordNotFound) ==> w !in ws
    ensures WalletUpdateOutcome(ws, w, u) == Failed(MemosNotSupported) ==>
              && u.memo != None && u.memo != Some("")
              && (u.address.Contract? || (w in ws && NewAddress(ws[w], u).Contract?))
    ensures WalletUpdateOutcome(ws, w, u) == Failed(DuplicateWalletAddress) ==>
              w in ws && exists v | v in ws :: ws[v].address == NewAddress(ws[w], u) && ws[v].receiver != ws[w].receiver
  {
  }

  lemma InviteEffect(s: Tables, ids: set<Id>, s': Tables, w: Id)
    requires Step(s, MarkInvited(ids), s') && w in s.wallets
    ensures s' == s.(wallets := s'.wallets) && s'.wallets.Keys == s.wallets.Keys
    ensures if w in ids && s.wallets[w].status == ReadyWallet
            then s'.wallets[w] == s.wallets[w].(invitationSentAt := Some(s.now))
            else s'.wallets[w] == s.wallets[w]
  {
  }

  /** A new wallet is DRAFT and blank; a receiver has at most one for each provider. */
  lemma InsertWalletEffect(s: Tables, receiver: Id, provider: Id, s': Tables)
    requires Step(s, InsertWallet(receiver, provider), s')
    ensures if && receiver in s.receivers
               && forall w | w in s.wallets && s.wallets[w].receiver == receiver :: s.wallets[w].provider != provider
            then s' == s.(nextId := s.nextId + 1, wallets := s.wallets[s.nextId :=
                            Wallet(receiver, provider, NoAddress, "", DraftWallet, [Entry(DraftWallet, s.now)], None)])
            else s' == s
  {
  }

  // ---------- receivers ----------

  /** The same letter, or its upper-case and lower-case form. */
  predicate SameLetter(c: char, d: char) {
    || c == d
    || ('A' <= c <= 'Z' && d as int == c as int + 32)
    || ('A' <= d <= 'Z' && c as int == d as int + 32)
  }

  /** Equal but for letter case. */
  predicate SameText(a: string, b: string) {
    |a| == |b| && forall k | 0 <= k < |a| :: SameLetter(a[k], b[k])
  }

  lemma LowerEqualIff(a: string, b: string)
    ensures Lower(a) == Lower(b) <==> SameText(a, b)
  {
    if Lower(a) == Lower(b) {
      assert |Lower(a)| == |a| && |Lower(b)| == |b|;
      forall k | 0 <= k < |a| ensures SameLetter(a[k], b[k]) {
        assert Lower(a)[k] == Lower(b)[k];
      }
    }
  }

  /** Another receiver has the phone number or the e-mail address already. */
  ghost predicate InUse(receivers: map<Id, Receiver>, except: Option<Id>, r: Receiver) {
    exists q | q in receivers && Some(q) != except ::
      || (r.phone != "" && SameText(receivers[q].phone, r.phone))
      || (r.email != "" && SameText(receivers[q].email, r.email))
  }

  lemma TakenIff(receivers: map<Id, Receiver>, except: Option<Id>, r: Receiver, others: map<Id, Receiver>)
    requires others == if except == None then receivers else receivers - {except.value}
    ensures ContactTaken(others, r) <==> InUse(receivers, except, r)
  {
    forall q | q in receivers
      ensures Lower(receivers[q].phone) == Lower(r.phone) <==> SameText(receivers[q].phone, r.phone)
      ensures Lower(receivers[q].email) == Lower(r.email) <==> SameText(receivers[q].email, r.email)
    {
      LowerEqualIff(receivers[q].phone, r.phone);
      LowerEqualIff(receivers[q].email, r.email);
    }
    if InUse(receivers, except, r) {
      var q :| q in receivers && Some(q) != except
        && ((r.phone != "" && SameText(receivers[q].phone, r.phone))
            || (r.email != "" && SameText(receivers[q].email, r.email)));
      assert q in others && others[q] == receivers[q];
    }
  }

  /** A phone number without '@', an e-mail address with one, and not both missing. */
  predicate Contactable(r: Receiver) {
    && (r.phone != "" || r.email != "")
    && (forall k | 0 <= k < |r.phone| :: r.phone[k] != '@')
    && (r.email != "" ==> exists k | 0 <= k < |r.email| :: r.email[k] == '@')
  }

  lemma InsertReceiverEffect(s: Tables, r: Receiver, s': Tables)
    requires Step(s, InsertReceiver(r), s')
    ensures if Contactable(r) && !InUse(s.receivers, None, r)
            then s' == s.(nextId := s.nextId + 1, receivers := s.receivers[s.nextId := r]) else s' == s
  {
    TakenIff(s.receivers, None, r, s.receivers);
  }

  /** The contact an update leaves behind. */
  function Kept(stored: string, given: Option<string>): string {
    if given == None then stored else given.value
  }

  /** The update names a contact, and each contact it names has the format of its kind. */
  ghost predicate ValidContacts(u: ReceiverUpdate) {
    && (u.phone != None || u.email != None)
    && (forall text | u.phone == Some(text) :: text != "" && '@' !in text)
    && (forall text | u.email == Some(text) :: '@' in text)
  }

  lemma UpdateReceiverEffect(s: Tables, id: Id, u: ReceiverUpdate, s': Tables)
    requires Step(s, UpdateReceiver(id, u), s')
    ensures if && id in s.receivers && ValidContacts(u)
               && !InUse(s.receivers, Some(id), Receiver(Kept(s.receivers[id].phone, u.phone),
                                                         Kept(s.receivers[id].email, u.email), s.receivers[id].name))
            then s' == s.(receivers := s.receivers[id :=
                            Receiver(Kept(s.receivers[id].phone, u.phone), Kept(s.receivers[id].email, u.email),
                                     s.receivers[id].name)])
            else s' == s
  {
    if id in s.receivers {
      var row := Receiver(Kept(s.receivers[id].phone, u.phone), Kept(s.receivers[id].email, u.email),
                          s.receivers[id].name);
      TakenIff(s.receivers, Some(id), row, s.receivers - {id});
      assert UpdatedReceiver(s.receivers[id], u) == row;
    }
  }

  // ---------- verifications ----------

  /** The time at which the receiver's value was confirmed. */
  function ConfirmedAt(s: Tables, receiver: Id, field: Field): Option<int> {
    if (receiver, field) in s.verifications then s.verifications[(receiver, field)].confirmedAt else None
  }

  /** A user's overwrite stores the value and keeps the confirmation; no other verification changes. */
  lemma UpsertEffect(s: Tables, receiver: Id, field: Field, value: string, s': Tables)
    requires Step(s, UpsertVerification(receiver, field, value), s')
    ensures receiver !in s.receivers ==> s' == s
    ensures receiver in s.receivers ==>
              s' == s.(verifications := s.verifications[(receiver, field) :=
                         Verification(Hashed(value), ConfirmedAt(s, receiver, field))])
  {
  }

  lemma ConfirmEffect(s: Tables, receiver: Id, field: Field, s': Tables)
    requires Step(s, ConfirmVerification(receiver, field), s')
    ensures (receiver, field) !in s.verifications ==> s' == s
    ensures (receiver, field) in s.verifications ==>
              s' == s.(verifications := s.verifications[(receiver, field) :=
                         Verification(s.verifications[(receiver, field)].hash, Some(s.now))])
  {
  }

  // ---------- disbursements ----------

  /** A new disbursement is DRAFT, without file, as the request describes it. */
  lemma InsertDisbursementEffect(s: Tables, provider: Id, asset: Id, contactType: ContactType, addresses: bool,
                                 field: Option<Field>, s': Tables)
    requires Step(s, InsertDisbursement(provider, asset, contactType, addresses, field), s')
    ensures s' == s.(nextId := s.nextId + 1, disbursements := s.disbursements[s.nextId :=
                       Disbursement(DraftDisbursement, [Entry(DraftDisbursement, s.now)], provider, asset, contactType,
                                    addresses, field, None)])
  {
  }
}
