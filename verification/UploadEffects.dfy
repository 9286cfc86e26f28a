/**
 What a successful upload leaves in each table, and when an upload succeeds, told by the columns of the file and of the
 tables alone.
 */
module UploadEffects {
  import opened Statuses
  import opened Tables
  import opened Lifecycle
  import opened Invariants
  import opened Runs
  import opened Matching
  import opened Feasibility
  import opened Criteria
  import opened Payouts
  import opened WalletEffects

  /** The phone number or the e-mail address of the instruction is the receiver's. */
  predicate Names(i: Instruction, r: Receiver) {
    (i.phone != "" && r.phone == i.phone) || (i.email != "" && r.email == i.email)
  }

  ghost predicate WellFormedFile(u: Upload) {
    forall k | 0 <= k < |u.instructions| :: WellFormedContacts(u.instructions[k].phone, u.instructions[k].email)
  }

  lemma NamesIffMatches(i: Instruction, r: Receiver)
    requires WellFormedContacts(i.phone, i.email) && WellFormedContacts(r.phone, r.email)
    ensures Contact(i).Some? ==> (Names(i, r) <==> Matches(Contact(i).value, r))
    ensures Contact(i).Some? <==> (i.phone != "" && i.email == "") || (i.phone == "" && i.email != "")
  {
  }

  /** In the receivers that the upload leaves, instruction k names its owner and nobody else. */
  lemma OwnerIsNamed(s: Tables, u: Upload, t: Tables, owners: seq<Id>, first: Id, k: nat, r: Id)
    requires ReceiversUploaded(s, u, t, owners, first) && ReceiversConsistent(t.receivers) && WellFormedFile(u)
    requires k < |u.instructions| && r in t.receivers
    ensures Names(u.instructions[k], t.receivers[r]) <==> r == owners[k]
  {
    NamesIffMatches(u.instructions[k], t.receivers[r]);
    if Names(u.instructions[k], t.receivers[r]) {
      MatchIsUnique(t.receivers, Contact(u.instructions[k]).value, r, owners[k]);
    }
  }

  lemma OwnersAreNamed(s: Tables, u: Upload, t: Tables, owners: seq<Id>, first: Id)
    requires ReceiversUploaded(s, u, t, owners, first) && ReceiversConsistent(t.receivers) && WellFormedFile(u)
    ensures forall k, r | 0 <= k < |u.instructions| && r in t.receivers ::
              Names(u.instructions[k], t.receivers[r]) <==> r == owners[k]
    ensures forall k | 0 <= k < |owners| :: IsNamed(u, t, owners[k])
  {
    forall k, r | 0 <= k < |u.instructions| && r in t.receivers
      ensures Names(u.instructions[k], t.receivers[r]) <==> r == owners[k]
    {
      OwnerIsNamed(s, u, t, owners, first, k, r);
    }
    forall k | 0 <= k < |owners| ensures IsNamed(u, t, owners[k]) {
      assert Names(u.instructions[k], t.receivers[owners[k]]);
    }
  }

  // ---------- receivers ----------

  ghost predicate NamesSomeone(i: Instruction, t: Tables) {
    exists r | r in t.receivers :: Names(i, t.receivers[r])
  }

  /** Every instruction names one receiver, no two name the same, and the missing ones are the file's. */
  ghost predicate ReceiversMatchFile(s: Tables, u: Upload, t: Tables) {
    && (forall r | r in s.receivers :: r in t.receivers && t.receivers[r] == s.receivers[r])
    && (forall k | 0 <= k < |u.instructions| :: NamesSomeone(u.instructions[k], t))
    && (forall j, k, r | 0 <= j < k < |u.instructions| && r in t.receivers ::
          !(Names(u.instructions[j], t.receivers[r]) && Names(u.instructions[k], t.receivers[r])))
    && (forall k, q, r | 0 <= k < |u.instructions| && q in t.receivers && r in t.receivers ::
          Names(u.instructions[k], t.receivers[q]) && Names(u.instructions[k], t.receivers[r]) ==> q == r)
    && (forall r | r in t.receivers && r !in s.receivers :: exists k | 0 <= k < |u.instructions| ::
          t.receivers[r] == Receiver(u.instructions[k].phone, u.instructions[k].email, u.instructions[k].name))
  }

  lemma ReceiversAsInFile(s: Tables, u: Upload, t: Tables, owners: seq<Id>, first: Id)
    requires ReceiversUploaded(s, u, t, owners, first) && ReceiversConsistent(t.receivers) && WellFormedFile(u)
    ensures ReceiversMatchFile(s, u, t)
  {
    OwnersAreNamed(s, u, t, owners, first);
    forall k | 0 <= k < |u.instructions| ensures NamesSomeone(u.instructions[k], t) {
      assert Names(u.instructions[k], t.receivers[owners[k]]);
    }
    forall r | r in t.receivers && r !in s.receivers
      ensures exists k | 0 <= k < |u.instructions| ::
                t.receivers[r] == Receiver(u.instructions[k].phone, u.instructions[k].email, u.instructions[k].name)
    {
      var k :| 0 <= k < |owners| && owners[k] == r;
    }
  }

  lemma UploadReceiversEffect(states: seq<Tables>, events: seq<Event>, i: nat, u: Upload, t: Tables)
    requires IsRun(states, events) && i < |states| && Uploaded(states[i], u, t) && WellFormedFile(u)
    ensures ReceiversMatchFile(states[i], u, t)
  {
    InvAlways(states, events, i);
    var owners, walletIds, first :| UploadedTo(states[i], u, t, owners, walletIds, first);
    ReceiversAsInFile(states[i], u, t, owners, first);
  }

  // ---------- verifications ----------

  /**
   The value that the file gives is what is stored, and a confirmation stays; other verifications are as they were.
   */
  ghost predicate VerificationsMatchFile(s: Tables, u: Upload, t: Tables, field: Field) {
    && (forall k, r | 0 <= k < |u.instructions| && r in t.receivers && Names(u.instructions[k], t.receivers[r]) ::
          && (r, field) in t.verifications
          && t.verifications[(r, field)].hash == Hashed(u.instructions[k].idNo)
          && t.verifications[(r, field)].confirmedAt == ConfirmedAt(s, r, field))
    && (forall r, f | (r, f) in s.verifications && (f != field || !IsNamed(u, t, r)) ::
          (r, f) in t.verifications && t.verifications[(r, f)] == s.verifications[(r, f)])
    && (forall r, f | (r, f) in t.verifications && (f != field || !IsNamed(u, t, r)) :: (r, f) in s.verifications)
  }

  /** Some instruction of the file is for the receiver. */
  ghost predicate IsNamed(u: Upload, t: Tables, r: Id) {
    r in t.receivers && exists k | 0 <= k < |u.instructions| :: Names(u.instructions[k], t.receivers[r])
  }

  lemma VerificationsAsInFile(s: Tables, u: Upload, row: Disbursement, t: Tables, owners: seq<Id>, first: Id)
    requires ReceiversUploaded(s, u, t, owners, first) && ReceiversConsistent(t.receivers) && WellFormedFile(u)
    requires VerificationsUploaded(s, u, row, t, owners) && Verifies(row)
    ensures VerificationsMatchFile(s, u, t, row.verificationField.value)
  {
    var field := row.verificationField.value;
    OwnersAreNamed(s, u, t, owners, first);
    forall k | 0 <= k < |owners|
      ensures (owners[k], field) in t.verifications
      ensures t.verifications[(owners[k], field)].hash == Hashed(u.instructions[k].idNo)
      ensures t.verifications[(owners[k], field)].confirmedAt == ConfirmedAt(s, owners[k], field)
    {
      assert VerificationAt(t.verifications, owners[k], field)
          == UploadedVerification(VerificationAt(s.verifications, owners[k], field), u.instructions[k].idNo);
    }
  }

  /** After an upload that verifies, each receiver's stored hash is that of its instruction, in every run. */
  lemma UploadVerificationsEffect(states: seq<Tables>, events: seq<Event>, i: nat, u: Upload, t: Tables)
    requires IsRun(states, events) && i < |states| && Uploaded(states[i], u, t) && WellFormedFile(u)
    ensures u.disbursement in states[i].disbursements
    ensures var row := states[i].disbursements[u.disbursement];
      if row.includesWalletAddress || row.verificationField == None then t.verifications == states[i].verifications
      else VerificationsMatchFile(states[i], u, t, row.verificationField.value)
  {
    InvAlways(states, events, i);
    var owners, walletIds, first :| UploadedTo(states[i], u, t, owners, walletIds, first);
    var row := states[i].disbursements[u.disbursement];
    if Verifies(row) { VerificationsAsInFile(states[i], u, row, t, owners, first); }
  }

  // ---------- wallets ----------

  /** The upload registers the wallet: the file has addresses, and it is neither REGISTERED nor FLAGGED yet. */
  predicate IsRegistering(row: Disbursement, w: Wallet) {
    row.includesWalletAddress && (w.status == DraftWallet || w.status == ReadyWallet)
  }

  /** What an upload makes of the wallet that the instruction uses. */
  ghost predicate Supplies(row: Disbursement, i: Instruction, w: Wallet, w': Wallet, now: int) {
    && w'.receiver == w.receiver && w'.provider == w.provider
    && w'.invitationSentAt == (if w.status == ReadyWallet then None else w.invitationSentAt)
    && if IsRegistering(row, w)
       then && w'.status == RegisteredWallet && w'.history == [Entry(RegisteredWallet, now)] + w.history
            && w'.address == (if i.walletAddress != NoAddress then i.walletAddress else w.address)
            && (i.memo.ParsedMemo? ==> w'.memo == i.memo.text) && (i.memo == NoMemo ==> w'.memo == w.memo)
       else w'.status == w.status && w'.history == w.history && w'.address == w.address && w'.memo == w.memo
  }

  /** The stored wallet, or the blank DRAFT one that is inserted. */
  ghost function StoredOrNew(s: Tables, w: Id, receiver: Id, provider: Id): Wallet {
    if w in s.wallets then s.wallets[w]
    else Wallet(receiver, provider, NoAddress, "", DraftWallet, [Entry(DraftWallet, s.now)], None)
  }

  ghost predicate WalletsMatchFile(s: Tables, u: Upload, row: Disbursement, t: Tables) {
    && (forall k, r | 0 <= k < |u.instructions| && r in t.receivers && Names(u.instructions[k], t.receivers[r]) ::
          exists w | w in t.wallets :: HasOneWallet(t, row, r, w)
            && Supplies(row, u.instructions[k], StoredOrNew(s, w, r, row.provider), t.wallets[w], s.now))
    && (forall w | w in s.wallets ::
          && w in t.wallets && t.wallets[w].receiver == s.wallets[w].receiver
             && t.wallets[w].provider == s.wallets[w].provider
          && (s.wallets[w].provider != row.provider || !IsNamed(u, t, s.wallets[w].receiver) ==>
              t.wallets[w] == s.wallets[w]))
    && (forall w | w in t.wallets && w !in s.wallets ::
          t.wallets[w].provider == row.provider && IsNamed(u, t, t.wallets[w].receiver))
  }

  /** `w` is the receiver's wallet for the provider, and the only one. */
  ghost predicate HasOneWallet(t: Tables, row: Disbursement, r: Id, w: Id) {
    forall v | v in t.wallets :: t.wallets[v].receiver == r && t.wallets[v].provider == row.provider <==> v == w
  }

  lemma SuppliedRow(s: Tables, u: Upload, row: Disbursement, t: Tables, owners: seq<Id>, walletIds: seq<Id>, first: Id,
                    k: nat)
    requires WalletsUploaded(s, u, row, t, owners, walletIds, first) && k < |owners| && WalletsConsistent(t.wallets)
    ensures walletIds[k] in t.wallets && HasOneWallet(t, row, owners[k], walletIds[k])
    ensures Supplies(row, u.instructions[k], StoredOrNew(s, walletIds[k], owners[k], row.provider),
                     t.wallets[walletIds[k]], s.now)
  {
    UploadedSameOwners(s, u, row, t, owners, walletIds, first);
    var before := WalletBefore(s, walletIds[k], owners[k], row.provider);
    assert t.wallets[walletIds[k]] == UploadedWallet(before, row.includesWalletAddress, u.instructions[k], s.now);
  }

  lemma WalletsAsInFile(s: Tables, u: Upload, row: Disbursement, t: Tables, owners: seq<Id>, walletIds: seq<Id>,
                        first: Id)
    requires ReceiversUploaded(s, u, t, owners, first) && Consistent(t) && WellFormedFile(u)
    requires WalletsUploaded(s, u, row, t, owners, walletIds, first)
    ensures WalletsMatchFile(s, u, row, t)
  {
    OwnersAreNamed(s, u, t, owners, first);
    UploadedSameOwners(s, u, row, t, owners, walletIds, first);
    forall k | 0 <= k < |owners|
      ensures walletIds[k] in t.wallets && HasOneWallet(t, row, owners[k], walletIds[k])
      ensures Supplies(row, u.instructions[k], StoredOrNew(s, walletIds[k], owners[k], row.provider),
                       t.wallets[walletIds[k]], s.now)
    {
      SuppliedRow(s, u, row, t, owners, walletIds, first, k);
    }
    forall w | w in t.wallets && w in walletIds
      ensures t.wallets[w].provider == row.provider && IsNamed(u, t, t.wallets[w].receiver)
    {
      var k :| 0 <= k < |walletIds| && walletIds[k] == w;
    }
  }

  /** Each receiver of the file ends with one wallet of the provider, registered as the file says; no other changes. */
  lemma UploadWalletsEffect(states: seq<Tables>, events: seq<Event>, i: nat, u: Upload, t: Tables)
    requires IsRun(states, events) && i < |states| && Uploaded(states[i], u, t) && WellFormedFile(u)
    ensures u.disbursement in states[i].disbursements
    ensures WalletsMatchFile(states[i], u, states[i].disbursements[u.disbursement], t)
  {
    InvAlways(states, events, i);
    var owners, walletIds, first :| UploadedTo(states[i], u, t, owners, walletIds, first);
    WalletsAsInFile(states[i], u, states[i].disbursements[u.disbursement], t, owners, walletIds, first);
  }

  // ---------- payments and the disbursement ----------

  /** The whole payment row that an instruction becomes. */
  ghost predicate IsDraftOf(t: Tables, d: Id, row: Disbursement, i: Instruction, now: int, p: Payment) {
    && p.receiver in t.receivers && Names(i, t.receivers[p.receiver])
    && p.wallet in t.wallets && t.wallets[p.wallet].receiver == p.receiver
       && t.wallets[p.wallet].provider == row.provider
    && p == Payment(Some(d), p.receiver, p.wallet, row.asset, i.amount, DraftPayment, [Entry(DraftPayment, now)], "",
                    now)
  }

  ghost predicate HasDraft(t: Tables, d: Id, row: Disbursement, i: Instruction, now: int) {
    exists p | p in t.payments :: IsDraftOf(t, d, row, i, now, t.payments[p])
  }

  ghost predicate HasInstruction(t: Tables, u: Upload, row: Disbursement, now: int, p: Payment) {
    exists k | 0 <= k < |u.instructions| :: IsDraftOf(t, u.disbursement, row, u.instructions[k], now, p)
  }

  /** One payment for each instruction, each for another receiver, and none without an instruction. */
  ghost predicate PaymentsMatchFile(u: Upload, row: Disbursement, now: int, t: Tables) {
    && (forall k | 0 <= k < |u.instructions| :: HasDraft(t, u.disbursement, row, u.instructions[k], now))
    && (forall p | p in t.payments && t.payments[p].disbursement == Some(u.disbursement) ::
          HasInstruction(t, u, row, now, t.payments[p]))
    && (forall p, q | p in t.payments && q in t.payments && p != q
          && t.payments[p].disbursement == t.payments[q].disbursement == Some(u.disbursement) ::
          t.payments[p].receiver != t.payments[q].receiver)
  }

  /** The payments outside the disbursement are exactly those that were there, row by row. */
  ghost predicate OtherPaymentsStay(s: Tables, d: Id, t: Tables) {
    && (forall p | p in s.payments && s.payments[p].disbursement != Some(d) ::
          p in t.payments && t.payments[p] == s.payments[p])
    && (forall p | p in t.payments && t.payments[p].disbursement != Some(d) :: p in s.payments)
  }

  lemma DraftRow(s: Tables, u: Upload, row: Disbursement, t: Tables, owners: seq<Id>, walletIds: seq<Id>, first: Id,
                 k: nat)
    requires ReceiversUploaded(s, u, t, owners, first) && WalletsUploaded(s, u, row, t, owners, walletIds, first)
    requires RowsOf(t.payments, u.disbursement) == Numbered(first, DraftsFor(u, row, owners, walletIds, s.now))
    requires ReceiversConsistent(t.receivers) && WellFormedFile(u) && k < |u.instructions|
    ensures first + k in t.payments && t.payments[first + k].receiver == owners[k]
    ensures IsDraftOf(t, u.disbursement, row, u.instructions[k], s.now, t.payments[first + k])
  {
    DraftOfOwner(u, row, owners, walletIds, s.now, first, k);
    UploadedSameOwners(s, u, row, t, owners, walletIds, first);
    assert RowsOf(t.payments, u.disbursement)[first + k] == t.payments[first + k];
    OwnerIsNamed(s, u, t, owners, first, k, owners[k]);
  }

  lemma DraftsInFile(u: Upload, row: Disbursement, now: int, t: Tables, owners: seq<Id>, first: Id)
    requires |owners| == |u.instructions| && Distinct(owners)
    requires forall p | p in t.payments && t.payments[p].disbursement == Some(u.disbursement) ::
               first <= p < first + |owners|
    requires forall k | 0 <= k < |owners| :: first + k in t.payments && t.payments[first + k].receiver == owners[k]
               && IsDraftOf(t, u.disbursement, row, u.instructions[k], now, t.payments[first + k])
    ensures PaymentsMatchFile(u, row, now, t)
  {
    forall p | p in t.payments && t.payments[p].disbursement == Some(u.disbursement)
      ensures t.payments[p].receiver == owners[p - first] && HasInstruction(t, u, row, now, t.payments[p])
    {
      var k := p - first;
      assert first + k == p && owners[k] == t.payments[p].receiver;
    }
  }

  lemma RowsInRange(ps: map<Id, Payment>, d: Id, first: Id, rows: seq<Payment>)
    requires RowsOf(ps, d) == Numbered(first, rows)
    ensures forall p | p in ps && ps[p].disbursement == Some(d) :: first <= p < first + |rows|
  {
    forall p | p in ps && ps[p].disbursement == Some(d) ensures first <= p < first + |rows| {
      assert p in RowsOf(ps, d);
    }
  }

  lemma PaymentsAsInFile(s: Tables, u: Upload, row: Disbursement, t: Tables, owners: seq<Id>, walletIds: seq<Id>,
                         first: Id)
    requires ReceiversUploaded(s, u, t, owners, first) && WalletsUploaded(s, u, row, t, owners, walletIds, first)
    requires RowsOf(t.payments, u.disbursement) == Numbered(first, DraftsFor(u, row, owners, walletIds, s.now))
    requires ReceiversConsistent(t.receivers) && WellFormedFile(u)
    ensures PaymentsMatchFile(u, row, s.now, t)
  {
    RowsInRange(t.payments, u.disbursement, first, DraftsFor(u, row, owners, walletIds, s.now));
    forall k | 0 <= k < |owners|
      ensures first + k in t.payments && t.payments[first + k].receiver == owners[k]
      ensures IsDraftOf(t, u.disbursement, row, u.instructions[k], s.now, t.payments[first + k])
    {
      DraftRow(s, u, row, t, owners, walletIds, first, k);
    }
    DraftsInFile(u, row, s.now, t, owners, first);
  }

  lemma OthersStay(s: Tables, u: Upload, row: Disbursement, t: Tables, owners: seq<Id>, walletIds: seq<Id>, first: Id)
    requires PaymentsUploaded(s, u, row, t, owners, walletIds, first) && forall p | p in s.payments :: p < s.nextId
    requires PaymentsOf(WithoutDrafts(s.payments, u.disbursement), u.disbursement) == {}
    ensures OtherPaymentsStay(s, u.disbursement, t)
  {
  }

  /** The disbursement's payments become one draft per instruction, with every column as the file and the row say. */
  lemma UploadPaymentsEffect(states: seq<Tables>, events: seq<Event>, i: nat, u: Upload, t: Tables)
    requires IsRun(states, events) && i < |states| && Uploaded(states[i], u, t) && WellFormedFile(u)
    ensures u.disbursement in states[i].disbursements
    ensures PaymentsMatchFile(u, states[i].disbursements[u.disbursement], states[i].now, t)
    ensures OtherPaymentsStay(states[i], u.disbursement, t)
  {
    var s := states[i];
    InvAlways(states, events, i);
    var owners, walletIds, first :| UploadedTo(s, u, t, owners, walletIds, first);
    var row := s.disbursements[u.disbursement];
    UploadReplacesRows(s, u, row, t, owners, walletIds, first);
    NothingSurvivesReupload(s, u.disbursement);
    OthersStay(s, u, row, t, owners, walletIds, first);
    PaymentsAsInFile(s, u, row, t, owners, walletIds, first);
  }

  /** The disbursement was not started; it becomes READY with the file, and no other disbursement changes. */
  lemma UploadDisbursementEffect(s: Tables, u: Upload, t: Tables)
    requires Uploaded(s, u, t)
    ensures u.disbursement in s.disbursements && t.now == s.now
    ensures var row := s.disbursements[u.disbursement];
      && row.status in {DraftDisbursement, ReadyDisbursement}
      && t.disbursements == s.disbursements[u.disbursement :=
           row.(status := ReadyDisbursement, history := row.history + [Entry(ReadyDisbursement, s.now)],
                file := Some(u.file))]
  {
  }
}
