/** When an upload succeeds, told by the columns of the file and of the tables alone. */
module UploadConditions {
  import opened Statuses
  import opened Tables
  import opened Lifecycle
  import opened Invariants
  import opened Runs
  import opened Matching
  import opened Feasibility
  import opened Criteria
  import opened WalletEffects
  import opened UploadEffects

  // ---------- the conditions ----------

  predicate HasOneContact(i: Instruction) {
    (i.phone != "" && i.email == "") || (i.phone == "" && i.email != "")
  }

  /** The two instructions have the same contact, up to letter case. */
  predicate SameContact(i: Instruction, j: Instruction) {
    (i.phone != "" && SameText(i.phone, j.phone)) || (i.email != "" && SameText(i.email, j.email))
  }

  /** The instruction's contact is what the receiver has in the column of the type. */
  predicate IsContactOf(i: Instruction, r: Receiver, contactType: ContactType) {
    match contactType
    case PhoneContact => i.phone != "" && r.phone == i.phone
    case EmailContact => i.email != "" && r.email == i.email
  }

  ghost predicate Finds(s: Tables, contactType: ContactType, i: Instruction) {
    exists r | r in s.receivers :: IsContactOf(i, s.receivers[r], contactType)
  }

  ghost predicate ReceiversClear(s: Tables, contactType: ContactType, instructions: seq<Instruction>) {
    && (forall k | 0 <= k < |instructions| :: HasOneContact(instructions[k]))
    && (forall j, k | 0 <= j < k < |instructions| :: !SameContact(instructions[j], instructions[k]))
    && (forall k | 0 <= k < |instructions| ::
          || Finds(s, contactType, instructions[k])
          || !InUse(s.receivers, None, Receiver(instructions[k].phone, instructions[k].email, instructions[k].name)))
  }

  /** The stored wallet that the instruction will use. */
  predicate IsWalletOf(s: Tables, row: Disbursement, i: Instruction, w: Id) {
    && w in s.wallets && s.wallets[w].provider == row.provider && s.wallets[w].receiver in s.receivers
    && IsContactOf(i, s.receivers[s.wallets[w].receiver], row.contactType)
  }

  predicate IsSettled(w: Wallet) {
    w.status == RegisteredWallet || w.status == FlaggedWallet
  }

  /** Memo and address are readable, and a wallet that ends with a contract address gets no memo. */
  predicate Readable(i: Instruction, address: Address) {
    && !i.memo.UnparsableMemo? && !i.walletAddress.Malformed?
    && !(i.memo.ParsedMemo? && i.memo.text != "" && address.Contract?)
  }

  /** A stored address is the supplied one, and what is new can be stored. */
  predicate CanTake(i: Instruction, w: Wallet) {
    && (w.address == NoAddress || w.address == i.walletAddress)
    && (IsSettled(w) || Readable(i, if i.walletAddress != NoAddress then i.walletAddress else w.address))
  }

  /** After the upload the instruction's wallet has the address. */
  ghost predicate EndsAt(s: Tables, row: Disbursement, i: Instruction, a: Address) {
    || (exists w | w in s.wallets :: IsWalletOf(s, row, i, w)
          && a == if IsSettled(s.wallets[w]) || i.walletAddress == NoAddress then s.wallets[w].address
             else i.walletAddress)
    || ((forall w | w in s.wallets :: !IsWalletOf(s, row, i, w)) && a == i.walletAddress)
  }

  ghost predicate WalletsTake(s: Tables, row: Disbursement, i: Instruction) {
    && (forall w | w in s.wallets && IsWalletOf(s, row, i, w) :: CanTake(i, s.wallets[w]))
    && ((forall w | w in s.wallets :: !IsWalletOf(s, row, i, w)) ==> Readable(i, i.walletAddress))
  }

  /** No wallet of another receiver has the address. */
  ghost predicate AddressFree(s: Tables, row: Disbursement, i: Instruction, a: Address) {
    forall w | w in s.wallets && s.wallets[w].address == a ::
      s.wallets[w].receiver in s.receivers && IsContactOf(i, s.receivers[s.wallets[w].receiver], row.contactType)
  }

  ghost predicate WalletsClear(s: Tables, row: Disbursement, instructions: seq<Instruction>) {
    && (forall k | 0 <= k < |instructions| :: WalletsTake(s, row, instructions[k]))
    && (forall k, a | 0 <= k < |instructions| && a != NoAddress && EndsAt(s, row, instructions[k], a) ::
          AddressFree(s, row, instructions[k], a))
    && (forall j, k, a | 0 <= j < k < |instructions| && a != NoAddress ::
          !(EndsAt(s, row, instructions[j], a) && EndsAt(s, row, instructions[k], a)))
  }

  predicate HasText(text: string) {
    exists k | 0 <= k < |text| :: text[k] !in {' ', '\t', '\n', '\r'}
  }

  /** A stored value agrees or is unconfirmed; a missing one has a text to store, and its contact is of the type. */
  ghost predicate ValueClear(s: Tables, contactType: ContactType, field: Field, i: Instruction) {
    && (forall r | r in s.receivers && IsContactOf(i, s.receivers[r], contactType) ::
          if (r, field) in s.verifications
          then s.verifications[(r, field)].hash == Hashed(i.idNo) || s.verifications[(r, field)].confirmedAt == None
          else HasText(i.idNo))
    && (!Finds(s, contactType, i) ==>
          HasText(i.idNo) && match contactType case PhoneContact => i.phone != "" case EmailContact => i.email != "")
  }

  /** The request is within its limits, its amounts are valid, and the disbursement is not started. */
  ghost predicate RequestClear(s: Tables, u: Upload) {
    && |u.instructions| <= u.maxInstructions && u.file.name != "" && u.file.content != ""
    && (forall k | 0 <= k < |u.instructions| :: 0 < u.instructions[k].amount <= 9223372036854775807)
    && u.disbursement in s.disbursements
    && s.disbursements[u.disbursement].status in {DraftDisbursement, ReadyDisbursement}
  }

  /** What the disbursement asks for, addresses or values, can be stored. */
  ghost predicate SuppliedClear(s: Tables, row: Disbursement, instructions: seq<Instruction>) {
    && (row.includesWalletAddress ==> WalletsClear(s, row, instructions))
    && (!row.includesWalletAddress && row.verificationField != None ==>
          forall k | 0 <= k < |instructions| ::
            ValueClear(s, row.contactType, row.verificationField.value, instructions[k]))
  }

  ghost predicate UploadIsClear(s: Tables, u: Upload) {
    && RequestClear(s, u)
    && var row := s.disbursements[u.disbursement];
       ReceiversClear(s, row.contactType, u.instructions) && SuppliedClear(s, row, u.instructions)
  }

  // ---------- receivers ----------

  lemma HoldsIff(receivers: map<Id, Receiver>, contactType: ContactType, i: Instruction, r: Id)
    requires ReceiversConsistent(receivers) && WellFormedContacts(i.phone, i.email) && HasOneContact(i)
    ensures Holds(receivers, contactType, i, r) <==> r in receivers && IsContactOf(i, receivers[r], contactType)
  {
  }

  lemma FindsIff(s: Tables, contactType: ContactType, i: Instruction)
    requires ReceiversConsistent(s.receivers) && WellFormedContacts(i.phone, i.email) && HasOneContact(i)
    ensures Finds(s, contactType, i) <==> HolderOf(s.receivers, contactType, i).Some?
  {
    var holder := HolderOf(s.receivers, contactType, i);
    if holder.Some? { HoldsIff(s.receivers, contactType, i, holder.value); }
    if r :| r in s.receivers && IsContactOf(i, s.receivers[r], contactType) {
      HoldsIff(s.receivers, contactType, i, r);
    }
  }

  lemma SameContactIff(i: Instruction, j: Instruction)
    requires HasOneContact(i) && HasOneContact(j)
    requires WellFormedContacts(i.phone, i.email) && WellFormedContacts(j.phone, j.email)
    ensures SameContact(i, j) <==> Lower(Contact(i).value) == Lower(Contact(j).value)
  {
    LowerEqualIff(i.phone, j.phone);
    LowerEqualIff(i.email, j.email);
    LowerKeepsAt(Contact(i).value);
    LowerKeepsAt(Contact(j).value);
  }

  lemma ReceiversIff(s: Tables, contactType: ContactType, u: Upload)
    requires ReceiversConsistent(s.receivers) && WellFormedFile(u)
    ensures ReceiversClear(s, contactType, u.instructions) <==>
            ReceiversResolve(s.receivers, contactType, u.instructions)
  {
    forall k | 0 <= k < |u.instructions|
      ensures HasOneContact(u.instructions[k]) <==> Contact(u.instructions[k]).Some?
    {
    }
    if forall k | 0 <= k < |u.instructions| :: HasOneContact(u.instructions[k]) {
      forall j, k | 0 <= j < k < |u.instructions|
        ensures SameContact(u.instructions[j], u.instructions[k]) <==>
                Lower(Contact(u.instructions[j]).value) == Lower(Contact(u.instructions[k]).value)
      {
        SameContactIff(u.instructions[j], u.instructions[k]);
      }
      forall k | 0 <= k < |u.instructions|
        ensures Finds(s, contactType, u.instructions[k]) <==>
                HolderOf(s.receivers, contactType, u.instructions[k]).Some?
        ensures ContactTaken(s.receivers, ReceiverFor(u.instructions[k])) <==>
                InUse(s.receivers, None, Receiver(u.instructions[k].phone, u.instructions[k].email,
                                                  u.instructions[k].name))
      {
        FindsIff(s, contactType, u.instructions[k]);
        TakenIff(s.receivers, None, ReceiverFor(u.instructions[k]), s.receivers);
      }
    }
  }

  // ---------- wallets ----------

  lemma UsesIff(s: Tables, row: Disbursement, i: Instruction, w: Id)
    requires ReceiversConsistent(s.receivers) && WellFormedContacts(i.phone, i.email) && HasOneContact(i)
    ensures Uses(s, row, i, w) <==> IsWalletOf(s, row, i, w)
  {
    if w in s.wallets { HoldsIff(s.receivers, row.contactType, i, s.wallets[w].receiver); }
  }

  lemma OneWalletUsed(s: Tables, row: Disbursement, i: Instruction, v: Id, w: Id)
    requires Consistent(s) && Uses(s, row, i, v) && Uses(s, row, i, w)
    ensures v == w
  {
    MatchIsUnique(s.receivers, Contact(i).value, s.wallets[v].receiver, s.wallets[w].receiver);
  }

  lemma WalletForIs(s: Tables, row: Disbursement, i: Instruction, w: Id)
    requires Consistent(s) && Uses(s, row, i, w)
    ensures WalletFor(s, row, i) == s.wallets[w]
  {
    var v :| Uses(s, row, i, v) && WalletFor(s, row, i) == s.wallets[v];
    OneWalletUsed(s, row, i, v, w);
  }

  lemma EndAddressIff(s: Tables, row: Disbursement, i: Instruction, a: Address)
    requires Consistent(s) && WellFormedContacts(i.phone, i.email) && HasOneContact(i)
    ensures EndsAt(s, row, i, a) <==> EndAddress(s, row, i) == a
    ensures WalletsTake(s, row, i) <==> Registrable(WalletFor(s, row, i), i)
  {
    forall w ensures Uses(s, row, i, w) <==> IsWalletOf(s, row, i, w) { UsesIff(s, row, i, w); }
    if w :| Uses(s, row, i, w) {
      forall v | Uses(s, row, i, v) ensures v == w { OneWalletUsed(s, row, i, v, w); }
      WalletForIs(s, row, i, w);
      assert IsWalletOf(s, row, i, w);
    }
  }

  lemma WalletsIff(s: Tables, row: Disbursement, u: Upload)
    requires Consistent(s) && WellFormedFile(u) && forall k | 0 <= k < |u.instructions| ::
             HasOneContact(u.instructions[k])
    requires forall w | w in s.wallets :: s.wallets[w].receiver in s.receivers
    ensures WalletsClear(s, row, u.instructions) <==> WalletsRegister(s, row, u.instructions)
  {
    forall k, a | 0 <= k < |u.instructions|
      ensures EndsAt(s, row, u.instructions[k], a) <==> EndAddress(s, row, u.instructions[k]) == a
    {
      EndAddressIff(s, row, u.instructions[k], a);
    }
    forall k | 0 <= k < |u.instructions|
      ensures WalletsTake(s, row, u.instructions[k]) <==>
              Registrable(WalletFor(s, row, u.instructions[k]), u.instructions[k])
    {
      EndAddressIff(s, row, u.instructions[k], NoAddress);
    }
    forall k, w | 0 <= k < |u.instructions| && w in s.wallets
      ensures Holds(s.receivers, row.contactType, u.instructions[k], s.wallets[w].receiver) <==>
              IsContactOf(u.instructions[k], s.receivers[s.wallets[w].receiver], row.contactType)
    {
      HoldsIff(s.receivers, row.contactType, u.instructions[k], s.wallets[w].receiver);
    }
    ClearIff(s, row, u.instructions);
  }

  lemma ClearIff(s: Tables, row: Disbursement, instructions: seq<Instruction>)
    requires forall w | w in s.wallets :: s.wallets[w].receiver in s.receivers
    requires forall k, a | 0 <= k < |instructions| ::
               EndsAt(s, row, instructions[k], a) <==> EndAddress(s, row, instructions[k]) == a
    requires forall k | 0 <= k < |instructions| ::
               WalletsTake(s, row, instructions[k]) <==>
                 Registrable(WalletFor(s, row, instructions[k]), instructions[k])
    requires forall k, w | 0 <= k < |instructions| && w in s.wallets ::
               Holds(s.receivers, row.contactType, instructions[k], s.wallets[w].receiver) <==>
               IsContactOf(instructions[k], s.receivers[s.wallets[w].receiver], row.contactType)
    ensures WalletsClear(s, row, instructions) <==> WalletsRegister(s, row, instructions)
  {
    if WalletsClear(s, row, instructions) {
      forall k | 0 <= k < |instructions| ensures EndsAt(s, row, instructions[k], EndAddress(s, row, instructions[k])) {
      }
    }
  }

  // ---------- verifications ----------

  lemma ValueIff(s: Tables, row: Disbursement, i: Instruction)
    requires Verifies(row) && ReceiversConsistent(s.receivers) && WellFormedContacts(i.phone, i.email)
             && HasOneContact(i)
    ensures ValueClear(s, row.contactType, row.verificationField.value, i) <==> Verifiable(s, row, i)
  {
    FindsIff(s, row.contactType, i);
    forall r ensures Holds(s.receivers, row.contactType, i, r) <==>
                     r in s.receivers && IsContactOf(i, s.receivers[r], row.contactType) {
      HoldsIff(s.receivers, row.contactType, i, r);
    }
    var holder := HolderOf(s.receivers, row.contactType, i);
    if holder.Some? {
      forall r | Holds(s.receivers, row.contactType, i, r) ensures r == holder.value {
        MatchIsUnique(s.receivers, Contact(i).value, r, holder.value);
      }
    }
  }

  lemma ValuesIff(s: Tables, row: Disbursement, u: Upload)
    requires Verifies(row) && ReceiversConsistent(s.receivers) && WellFormedFile(u)
    requires forall k | 0 <= k < |u.instructions| :: HasOneContact(u.instructions[k])
    ensures forall k | 0 <= k < |u.instructions| ::
              ValueClear(s, row.contactType, row.verificationField.value, u.instructions[k]) <==>
              Verifiable(s, row, u.instructions[k])
  {
    forall k | 0 <= k < |u.instructions|
      ensures ValueClear(s, row.contactType, row.verificationField.value, u.instructions[k]) <==>
              Verifiable(s, row, u.instructions[k])
    {
      ValueIff(s, row, u.instructions[k]);
    }
  }

  // ---------- the whole upload ----------

  /** In a reachable state an upload succeeds exactly when the columns say so. */
  lemma UploadSucceedsIff(states: seq<Tables>, events: seq<Event>, n: nat, u: Upload)
    requires IsRun(states, events) && n < |states| && WellFormedFile(u)
    ensures GoesThrough(states[n], u) <==> UploadIsClear(states[n], u)
  {
    ReachableIsInPlace(states, events, n);
    ConditionsIff(states[n], u);
  }

  lemma RequestIff(s: Tables, u: Upload)
    ensures RequestClear(s, u) <==> PaymentsPossible(s, u)
  {
  }

  lemma SuppliedIff(s: Tables, row: Disbursement, u: Upload)
    requires Consistent(s) && KeysInPlace(s) && WellFormedFile(u)
    requires forall k | 0 <= k < |u.instructions| :: HasOneContact(u.instructions[k])
    ensures SuppliedClear(s, row, u.instructions) <==> ThirdStep(s, row, u.instructions)
  {
    WalletsIff(s, row, u);
    if Verifies(row) { ValuesIff(s, row, u); }
  }

  lemma ConditionsIff(s: Tables, u: Upload)
    requires Consistent(s) && KeysInPlace(s) && WellFormedFile(u)
    ensures GoesThrough(s, u) <==> UploadIsClear(s, u)
  {
    RequestIff(s, u);
    if u.disbursement in s.disbursements {
      var row := s.disbursements[u.disbursement];
      ReceiversIff(s, row.contactType, u);
      if ReceiversClear(s, row.contactType, u.instructions) { SuppliedIff(s, row, u); }
    }
  }
}
