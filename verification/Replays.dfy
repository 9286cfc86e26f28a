/**
 Uploading the same file twice. Right after a successful upload the same upload goes through again exactly when every
 contact of the file is of the disbursement's type, and then it changes nothing but the ids of the payments and the
 disbursement's history.
 */
module Replays {
  import opened Statuses
  import opened Tables
  import opened Lifecycle
  import opened Invariants
  import opened Steps
  import opened Runs
  import opened Matching
  import opened Feasibility
  import opened Criteria

  /** The instruction's one contact is in the column that the type names. */
  predicate OfType(i: Instruction, contactType: ContactType) {
    Contact(i) == Some(ContactByType(ReceiverFor(i), contactType))
  }

  // ---------- receivers ----------

  /** The receiver an upload leaves for an instruction has its contact as contact of the type exactly when it is one. */
  lemma HeldIffOfType(s: Tables, u: Upload, row: Disbursement, s': Tables, owners: seq<Id>, first: Id, i: nat)
    requires ReceiversUploaded(s, u, s', owners, first) && FoundByType(s, u, row, s', owners)
    requires ReceiversConsistent(s'.receivers)
    requires i < |owners| && WellFormedContacts(u.instructions[i].phone, u.instructions[i].email)
    ensures Holds(s'.receivers, row.contactType, u.instructions[i], owners[i]) <==>
            OfType(u.instructions[i], row.contactType)
  {
  }

  lemma ResolvedAgainIff(receivers: map<Id, Receiver>, contactType: ContactType, instructions: seq<Instruction>,
                         owners: seq<Id>)
    requires ReceiversConsistent(receivers) && |owners| == |instructions| && Distinct(owners)
    requires forall i | 0 <= i < |owners| ::
               owners[i] in receivers && Contact(instructions[i]).Some?
               && Matches(Contact(instructions[i]).value, receivers[owners[i]])
               && WellFormedContacts(instructions[i].phone, instructions[i].email)
    ensures ReceiversResolve(receivers, contactType, instructions) <==>
            forall i | 0 <= i < |owners| :: Holds(receivers, contactType, instructions[i], owners[i])
  {
    if ReceiversResolve(receivers, contactType, instructions) {
      forall i | 0 <= i < |owners| ensures Holds(receivers, contactType, instructions[i], owners[i]) {
        HeldByOwner(receivers, contactType, instructions[i], owners[i]);
      }
    }
    if forall i | 0 <= i < |owners| :: Holds(receivers, contactType, instructions[i], owners[i]) {
      forall i | 0 <= i < |owners| ensures PlannedOwner(receivers, instructions[i], contactType, receivers, owners[i]) {
        assert Holds(receivers, contactType, instructions[i], owners[i]);
      }
      PlannedResolves(receivers, instructions, contactType, receivers, owners);
    }
  }

  lemma HeldByOwner(receivers: map<Id, Receiver>, contactType: ContactType, i: Instruction, owner: Id)
    requires ReceiversConsistent(receivers) && owner in receivers && Contact(i).Some?
    requires Matches(Contact(i).value, receivers[owner])
    requires HolderOf(receivers, contactType, i).Some? || !ContactTaken(receivers, ReceiverFor(i))
    requires WellFormedContacts(i.phone, i.email)
    ensures Holds(receivers, contactType, i, owner)
  {
  }

  // ---------- wallets and verifications ----------

  /** The wallet an instruction finds again is the one it was given. */
  lemma SameWalletAgain(s: Tables, u: Upload, row: Disbursement, s': Tables, owners: seq<Id>, walletIds: seq<Id>,
                        first: Id, i: nat)
    requires WalletsUploaded(s, u, row, s', owners, walletIds, first) && i < |owners| && Consistent(s')
    requires owners[i] in s'.receivers && Contact(u.instructions[i]).Some?
    requires Matches(Contact(u.instructions[i]).value, s'.receivers[owners[i]])
    requires Holds(s'.receivers, row.contactType, u.instructions[i], owners[i])
    ensures walletIds[i] in s'.wallets && WalletFor(s', row, u.instructions[i]) == s'.wallets[walletIds[i]]
  {
    UploadedSameOwners(s, u, row, s', owners, walletIds, first);
    assert Uses(s', row, u.instructions[i], walletIds[i]);
    forall w | Uses(s', row, u.instructions[i], w) ensures w == walletIds[i] {
      MatchIsUnique(s'.receivers, Contact(u.instructions[i]).value, s'.wallets[w].receiver, owners[i]);
    }
  }

  lemma RegisteredAgain(before: Wallet, i: Instruction, now: int)
    requires Registrable(before, i)
    ensures var w := UploadedWallet(before, true, i, now);
            && Registrable(w, i) && Supplied(w, i, now) == w && UploadedWallet(w, true, i, now) == w
  {
  }

  lemma RegistersAgain(s: Tables, u: Upload, row: Disbursement, s': Tables, owners: seq<Id>, walletIds: seq<Id>,
                       first: Id)
    requires WalletsUploaded(s, u, row, s', owners, walletIds, first) && Consistent(s') && Distinct(owners)
    requires row.includesWalletAddress && s'.now == s.now
    requires forall i | 0 <= i < |owners| ::
               && owners[i] in s'.receivers && Contact(u.instructions[i]).Some?
               && Matches(Contact(u.instructions[i]).value, s'.receivers[owners[i]])
               && Holds(s'.receivers, row.contactType, u.instructions[i], owners[i])
    ensures WalletsRegister(s', row, u.instructions)
  {
    UploadedSameOwners(s, u, row, s', owners, walletIds, first);
    forall i | 0 <= i < |owners|
      ensures walletIds[i] in s'.wallets && Registrable(WalletFor(s', row, u.instructions[i]), u.instructions[i])
      ensures EndAddress(s', row, u.instructions[i]) == s'.wallets[walletIds[i]].address
    {
      SameWalletAgain(s, u, row, s', owners, walletIds, first, i);
      var before := WalletBefore(s, walletIds[i], owners[i], row.provider);
      assert s'.wallets[walletIds[i]] == UploadedWallet(before, true, u.instructions[i], s.now);
      RegisteredAgain(before, u.instructions[i], s.now);
    }
    AddressesStayApart(s', row, u.instructions, owners, walletIds);
  }

  lemma AddressesStayApart(t: Tables, row: Disbursement, instructions: seq<Instruction>, owners: seq<Id>,
                           walletIds: seq<Id>)
    requires WalletsConsistent(t.wallets) && Distinct(owners) && |owners| == |walletIds| == |instructions|
    requires forall i | 0 <= i < |owners| ::
               && walletIds[i] in t.wallets && t.wallets[walletIds[i]].receiver == owners[i]
               && Holds(t.receivers, row.contactType, instructions[i], owners[i])
               && EndAddress(t, row, instructions[i]) == t.wallets[walletIds[i]].address
    requires forall i | 0 <= i < |owners| :: Registrable(WalletFor(t, row, instructions[i]), instructions[i])
    ensures WalletsRegister(t, row, instructions)
  {
    forall i, w | 0 <= i < |instructions| && w in t.wallets
      && t.wallets[w].address == EndAddress(t, row, instructions[i]) != NoAddress
      ensures t.wallets[w].receiver == owners[i]
    {
      assert t.wallets[w].address == t.wallets[walletIds[i]].address;
    }
    forall i, j | 0 <= i < j < |instructions|
      && EndAddress(t, row, instructions[i]) == EndAddress(t, row, instructions[j])
      ensures EndAddress(t, row, instructions[i]) == NoAddress
    {
      assert owners[i] != owners[j];
    }
  }

  lemma VerifiableAgain(s: Tables, u: Upload, row: Disbursement, s': Tables, owners: seq<Id>, i: nat)
    requires Verifies(row) && VerificationsUploaded(s, u, row, s', owners) && i < |owners|
    requires ReceiversConsistent(s'.receivers) && owners[i] in s'.receivers
    requires Holds(s'.receivers, row.contactType, u.instructions[i], owners[i])
    ensures Verifiable(s', row, u.instructions[i])
  {
    var holder := HolderOf(s'.receivers, row.contactType, u.instructions[i]);
    MatchIsUnique(s'.receivers, Contact(u.instructions[i]).value, holder.value, owners[i]);
    var field := row.verificationField.value;
    assert VerificationAt(s'.verifications, owners[i], field)
        == UploadedVerification(VerificationAt(s.verifications, owners[i], field), u.instructions[i].idNo);
  }

  // ---------- the second upload ----------

  lemma ThirdStepAgain(s: Tables, u: Upload, row: Disbursement, s': Tables, owners: seq<Id>, walletIds: seq<Id>,
                       first: Id, row': Disbursement)
    requires ReceiversUploaded(s, u, s', owners, first) && WalletsUploaded(s, u, row, s', owners, walletIds, first)
    requires VerificationsUploaded(s, u, row, s', owners) && Consistent(s') && s'.now == s.now
    requires row' == row.(status := row'.status, history := row'.history, file := row'.file)
    requires forall i | 0 <= i < |owners| :: Holds(s'.receivers, row.contactType, u.instructions[i], owners[i])
    ensures ThirdStep(s', row', u.instructions)
  {
    if row.includesWalletAddress {
      assert WalletsUploaded(s, u, row', s', owners, walletIds, first);
      RegistersAgain(s, u, row', s', owners, walletIds, first);
    }
    if Verifies(row) {
      forall i | 0 <= i < |u.instructions| ensures Verifiable(s', row', u.instructions[i]) {
        VerifiableAgain(s, u, row, s', owners, i);
      }
    }
  }

  lemma PossibleAgain(s: Tables, u: Upload, row: Disbursement, s': Tables, owners: seq<Id>, walletIds: seq<Id>,
                      first: Id)
    requires Accepted(u) && PaymentsUploaded(s, u, row, s', owners, walletIds, first)
    ensures PaymentsPossible(s', u)
    ensures var row' := s'.disbursements[u.disbursement];
            row' == row.(status := row'.status, history := row'.history, file := row'.file)
  {
  }

  /** Both parts of the criterion, on the tables that the first upload has left. */
  lemma CriterionAgainIff(s: Tables, u: Upload, row: Disbursement, s': Tables, owners: seq<Id>, walletIds: seq<Id>,
                          first: Id, row': Disbursement)
    requires ReceiversUploaded(s, u, s', owners, first) && FoundByType(s, u, row, s', owners)
    requires WalletsUploaded(s, u, row, s', owners, walletIds, first) && VerificationsUploaded(s, u, row, s', owners)
    requires Consistent(s') && s'.now == s.now
    requires row' == row.(status := row'.status, history := row'.history, file := row'.file)
    requires forall i | 0 <= i < |u.instructions| ::
               WellFormedContacts(u.instructions[i].phone, u.instructions[i].email)
    ensures && ReceiversResolve(s'.receivers, row'.contactType, u.instructions)
            && ThirdStep(s', row', u.instructions)
       <==> forall i | 0 <= i < |u.instructions| :: OfType(u.instructions[i], row.contactType)
  {
    forall i | 0 <= i < |owners|
      ensures Holds(s'.receivers, row.contactType, u.instructions[i], owners[i]) <==>
              OfType(u.instructions[i], row.contactType)
    {
      HeldIffOfType(s, u, row, s', owners, first, i);
    }
    ResolvedAgainIff(s'.receivers, row.contactType, u.instructions, owners);
    if forall i | 0 <= i < |owners| :: Holds(s'.receivers, row.contactType, u.instructions[i], owners[i]) {
      ThirdStepAgain(s, u, row, s', owners, walletIds, first, row');
    }
  }

  /** After a successful upload the same upload goes through again exactly when the file's contacts are of the type. */
  lemma SameFileAgainIff(s: Tables, u: Upload, s': Tables)
    requires Consistent(s) && Uploaded(s, u, s')
    requires forall i | 0 <= i < |u.instructions| ::
               WellFormedContacts(u.instructions[i].phone, u.instructions[i].email)
    ensures u.disbursement in s.disbursements
    ensures GoesThrough(s', u) <==>
            forall i | 0 <= i < |u.instructions| ::
              OfType(u.instructions[i], s.disbursements[u.disbursement].contactType)
  {
    var owners, walletIds, first :| UploadedTo(s, u, s', owners, walletIds, first);
    var row := s.disbursements[u.disbursement];
    PossibleAgain(s, u, row, s', owners, walletIds, first);
    CriterionAgainIff(s, u, row, s', owners, walletIds, first, s'.disbursements[u.disbursement]);
  }

  // ---------- what the second upload leaves ----------

  lemma SameOwnerAgain(s: Tables, u: Upload, s': Tables, owners: seq<Id>, first: Id, s'': Tables, owners': seq<Id>,
                       first': Id, i: nat)
    requires ReceiversUploaded(s, u, s', owners, first) && ReceiversUploaded(s', u, s'', owners', first')
    requires ReceiversConsistent(s''.receivers) && i < |owners|
    ensures owners'[i] == owners[i] && owners[i] in s'.receivers
  {
  }

  lemma SameOwnersAgain(s: Tables, u: Upload, s': Tables, owners: seq<Id>, first: Id, s'': Tables, owners': seq<Id>,
                        first': Id)
    requires ReceiversUploaded(s, u, s', owners, first) && ReceiversUploaded(s', u, s'', owners', first')
    requires ReceiversConsistent(s''.receivers)
    ensures owners' == owners && s''.receivers == s'.receivers
  {
    forall i | 0 <= i < |owners| ensures owners'[i] == owners[i] {
      SameOwnerAgain(s, u, s', owners, first, s'', owners', first', i);
    }
    assert owners' == owners;
    assert s''.receivers.Keys == s'.receivers.Keys;
  }

  lemma SameWalletsAgain(s: Tables, u: Upload, row: Disbursement, s': Tables, owners: seq<Id>, walletIds: seq<Id>,
                         first: Id, s'': Tables, walletIds': seq<Id>, first': Id)
    requires WalletsUploaded(s, u, row, s', owners, walletIds, first)
    requires WalletsUploaded(s', u, row, s'', owners, walletIds', first')
    requires WalletsConsistent(s''.wallets) && s'.now == s.now
    ensures walletIds' == walletIds && s''.wallets == s'.wallets
  {
    UploadedSameOwners(s, u, row, s', owners, walletIds, first);
    UploadedSameOwners(s', u, row, s'', owners, walletIds', first');
    forall i | 0 <= i < |owners| ensures walletIds'[i] == walletIds[i] {
      assert s''.wallets[walletIds[i]].receiver == s''.wallets[walletIds'[i]].receiver;
    }
    assert walletIds' == walletIds;
    forall w | w in s'.wallets ensures s''.wallets[w] == s'.wallets[w] {
      if w in walletIds {
        var i :| 0 <= i < |walletIds| && walletIds[i] == w;
        WalletKeptAgain(s, u, row, s', owners, walletIds, first, s'', first', i);
      }
    }
  }

  lemma WalletKeptAgain(s: Tables, u: Upload, row: Disbursement, s': Tables, owners: seq<Id>, walletIds: seq<Id>,
                        first: Id, s'': Tables, first': Id, i: nat)
    requires WalletsUploaded(s, u, row, s', owners, walletIds, first) && i < |walletIds| && s'.now == s.now
    requires WalletsUploaded(s', u, row, s'', owners, walletIds, first')
    ensures s''.wallets[walletIds[i]] == s'.wallets[walletIds[i]]
  {
  }

  lemma SameVerificationsAgain(s: Tables, u: Upload, row: Disbursement, s': Tables, owners: seq<Id>, s'': Tables)
    requires VerificationsUploaded(s, u, row, s', owners) && VerificationsUploaded(s', u, row, s'', owners)
    ensures s''.verifications == s'.verifications
  {
    if Verifies(row) {
      var field := row.verificationField.value;
      forall i | 0 <= i < |owners|
        ensures VerificationAt(s''.verifications, owners[i], field)
                == VerificationAt(s'.verifications, owners[i], field)
        ensures (owners[i], field) in s'.verifications
      {
        assert VerificationAt(s'.verifications, owners[i], field)
            == UploadedVerification(VerificationAt(s.verifications, owners[i], field), u.instructions[i].idNo);
      }
      forall k | k in s''.verifications ensures k in s'.verifications && s''.verifications[k] == s'.verifications[k] {
        if k.0 in owners && k.1 == field {
          var i :| 0 <= i < |owners| && owners[i] == k.0;
          assert VerificationAt(s''.verifications, owners[i], field)
                 == VerificationAt(s'.verifications, owners[i], field);
        }
      }
      assert s''.verifications == s'.verifications;
    }
  }

  /** The same payments, numbered from one id on and then from another. */
  ghost predicate Renumbered(ps: map<Id, Payment>, ps': map<Id, Payment>, d: Id) {
    exists rows: seq<Payment>, first: Id, first': Id ::
      RowsOf(ps, d) == Numbered(first, rows) && RowsOf(ps', d) == Numbered(first', rows)
  }

  lemma PaymentsRenumbered(s: Tables, u: Upload, row: Disbursement, s': Tables, owners: seq<Id>, walletIds: seq<Id>,
                           first: Id, row': Disbursement, s'': Tables, first': Id)
    requires PayInv(s) && u.disbursement in s.disbursements && row == s.disbursements[u.disbursement]
    requires PayInv(s') && u.disbursement in s'.disbursements && row' == s'.disbursements[u.disbursement]
    requires PaymentsUploaded(s, u, row, s', owners, walletIds, first)
    requires PaymentsUploaded(s', u, row', s'', owners, walletIds, first')
    ensures Renumbered(s'.payments, s''.payments, u.disbursement)
  {
    UploadReplacesRows(s, u, row, s', owners, walletIds, first);
    UploadReplacesRows(s', u, row', s'', owners, walletIds, first');
    assert DraftsFor(u, row', owners, walletIds, s'.now) == DraftsFor(u, row, owners, walletIds, s.now);
  }

  lemma OnlyRenumbered(s: Tables, u: Upload, row: Disbursement, s': Tables, owners: seq<Id>, walletIds: seq<Id>,
                       first: Id, row': Disbursement, s'': Tables, owners': seq<Id>, walletIds': seq<Id>, first': Id)
    requires PayInv(s) && u.disbursement in s.disbursements && row == s.disbursements[u.disbursement]
    requires PayInv(s') && u.disbursement in s'.disbursements && row' == s'.disbursements[u.disbursement]
    requires ReceiversUploaded(s, u, s', owners, first) && ReceiversUploaded(s', u, s'', owners', first')
    requires WalletsUploaded(s, u, row, s', owners, walletIds, first)
    requires WalletsUploaded(s', u, row', s'', owners', walletIds', first')
    requires VerificationsUploaded(s, u, row, s', owners) && VerificationsUploaded(s', u, row', s'', owners')
    requires PaymentsUploaded(s, u, row, s', owners, walletIds, first)
    requires PaymentsUploaded(s', u, row', s'', owners', walletIds', first')
    requires Consistent(s'')
    ensures s''.receivers == s'.receivers && s''.wallets == s'.wallets && s''.verifications == s'.verifications
    ensures Renumbered(s'.payments, s''.payments, u.disbursement)
  {
    assert row' == row.(status := row'.status, history := row'.history, file := row'.file);
    SameOwnersAgain(s, u, s', owners, first, s'', owners', first');
    assert WalletsUploaded(s, u, row', s', owners, walletIds, first);
    SameWalletsAgain(s, u, row', s', owners, walletIds, first, s'', walletIds', first');
    assert VerificationsUploaded(s, u, row', s', owners);
    SameVerificationsAgain(s, u, row', s', owners, s'');
    PaymentsRenumbered(s, u, row, s', owners, walletIds, first, row', s'', first');
  }

  /**
   Uploading the same file again right away leaves receivers, wallets and verifications and only renumbers payments.
   */
  lemma SameFileAgainRenumbers(states: seq<Tables>, events: seq<Event>, i: nat, u: Upload, s': Tables, s'': Tables)
    requires IsRun(states, events) && i < |states|
    requires Uploaded(states[i], u, s') && Uploaded(s', u, s'')
    ensures s''.receivers == s'.receivers && s''.wallets == s'.wallets && s''.verifications == s'.verifications
    ensures Renumbered(s'.payments, s''.payments, u.disbursement)
  {
    var s := states[i];
    InvAlways(states, events, i);
    StepKeepsInv(s, UploadInstructions(u), s');
    var owners, walletIds, first :| UploadedTo(s, u, s', owners, walletIds, first);
    var owners', walletIds', first' :| UploadedTo(s', u, s'', owners', walletIds', first');
    OnlyRenumbered(s, u, s.disbursements[u.disbursement], s', owners, walletIds, first,
                   s'.disbursements[u.disbursement], s'', owners', walletIds', first');
  }
}
