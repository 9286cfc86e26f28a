/** The bulk upload: the loops of ProcessAll over the database, and the transaction around them. */
module Uploads {
  import opened Statuses
  import opened Tables
  import opened Lifecycle
  import opened Steps
  import opened Matching
  import opened Feasibility
  import opened Criteria
  import opened Databases

  // ---------- receivers ----------

  method ResolveContacts(instructions: seq<Instruction>) returns (outcome: Outcome, contacts: seq<string>)
    ensures outcome.Done? <==> forall i | 0 <= i < |instructions| :: Contact(instructions[i]).Some?
    ensures outcome.Done? ==> HaveContacts(instructions, contacts)
  {
    contacts := [];
    for i := 0 to |instructions|
      invariant HaveContacts(instructions[..i], contacts)
    {
      assert forall j | 0 <= j < i :: instructions[..i + 1][j] == instructions[..i][j];
      match Contact(instructions[i]) {
        case None => return Failed(InvalidInput), [];
        case Some(contact) => contacts := contacts + [contact];
      }
    }
    assert instructions[..|instructions|] == instructions;
    outcome := Done;
  }

  /** The lookup map of the receivers found, which must all have a contact of the registration's type. */
  method IndexByContact(existing: map<Id, Receiver>, contactType: ContactType)
    returns (outcome: Outcome, byContact: map<string, Id>)
    ensures outcome.Done? <==> forall r | r in existing :: ContactByType(existing[r], contactType) != ""
    ensures outcome.Done? ==> forall contact | contact in byContact ::
              byContact[contact] in existing && ContactByType(existing[byContact[contact]], contactType) == contact
    ensures outcome.Done? ==> forall r | r in existing :: ContactByType(existing[r], contactType) in byContact
  {
    byContact := map[];
    var todo := existing.Keys;
    while todo != {}
      invariant todo <= existing.Keys
      invariant forall r | r in existing && r !in todo ::
                  ContactByType(existing[r], contactType) != "" && ContactByType(existing[r], contactType) in byContact
      invariant forall contact | contact in byContact ::
                  byContact[contact] in existing && ContactByType(existing[byContact[contact]], contactType) == contact
    {
      var r :| r in todo;
      var contact := ContactByType(existing[r], contactType);
      if contact == "" {
        return Failed(InvalidInput), byContact;
      }
      byContact := byContact[contact := r];
      todo := todo - {r};
    }
    outcome := Done;
  }

  method CreateReceiverFromInstructionIfNeeded(db: Database, instruction: Instruction, byContact: map<string, Id>)
    returns (outcome: Outcome)
    modifies db`receivers, db`nextId
    ensures outcome.Done? <==> (&& Contact(instruction).Some?
                                && (|| Contact(instruction).value in byContact
                                    || !ContactTaken(old(db.receivers), ReceiverFor(instruction))))
    ensures outcome.Failed? || Contact(instruction).value in byContact ==>
              db.receivers == old(db.receivers) && db.nextId == old(db.nextId)
    ensures outcome.Done? && Contact(instruction).value !in byContact ==>
              && db.receivers == old(db.receivers)[old(db.nextId) := ReceiverFor(instruction)]
              && db.nextId == old(db.nextId) + 1
  {
    var contact := Contact(instruction);
    if contact.None? {
      return Failed(InvalidInput);
    }
    if contact.value in byContact {
      return Done;
    }
    outcome := db.InsertReceiver(ReceiverFor(instruction));
  }

  method CreateMissingReceivers(db: Database, instructions: seq<Instruction>, ghost contacts: seq<string>,
                                byContact: map<string, Id>, ghost contactType: ContactType)
    returns (outcome: Outcome)
    requires HaveContacts(instructions, contacts) && Knows(db.receivers, contacts, contactType, byContact.Keys)
    requires ReceiversConsistent(db.receivers) && forall r | r in db.receivers :: r < db.nextId
    requires forall i | 0 <= i < |instructions| :: WellFormedContacts(instructions[i].phone, instructions[i].email)
    requires forall contact | contact in byContact ::
               byContact[contact] in db.receivers && Matches(contact, db.receivers[byContact[contact]])
    modifies db`receivers, db`nextId
    ensures outcome.Done? ==>
              && ReceiversConsistent(db.receivers) && AllMatched(db.receivers, contacts)
              && Created(old(db.receivers), old(db.nextId), db.receivers, db.nextId, instructions, contacts,
                         byContact.Keys, |instructions|)
    ensures outcome.Failed? ==> !Plannable(old(db.receivers), instructions, contactType)
  {
    for i := 0 to |instructions|
      invariant ReceiversConsistent(db.receivers)
      invariant Created(old(db.receivers), old(db.nextId), db.receivers, db.nextId, instructions, contacts,
                        byContact.Keys, i)
      invariant AllMatched(db.receivers, contacts[..i])
    {
      ghost var before, next := db.receivers, db.nextId;
      outcome := CreateReceiverFromInstructionIfNeeded(db, instructions[i], byContact);
      if outcome.Failed? {
        NoPlanWhenTaken(old(db.receivers), old(db.nextId), before, next, instructions, contacts, contactType,
                        byContact.Keys, i);
        return;
      }
      NextMatched(instructions[i], contacts[i], before, next, byContact, old(db.receivers), db.receivers);
      StillMatched(before, db.receivers, contacts, i);
      CreatedStep(old(db.receivers), old(db.nextId), before, next, instructions, contacts, byContact.Keys, i,
                  db.receivers, db.nextId);
    }
    assert contacts[..|contacts|] == contacts;
    outcome := Done;
  }

  /** Finds the receivers of all instructions, creating the missing ones. */
  method ReconcileExistingReceiversWithInstructions(db: Database, u: Upload, contactType: ContactType)
    returns (outcome: Outcome, receivers: map<Id, Receiver>, ghost owners: seq<Id>)
    requires ReceiversConsistent(db.receivers) && forall r | r in db.receivers :: r < db.nextId
    requires forall i | 0 <= i < |u.instructions| ::
               WellFormedContacts(u.instructions[i].phone, u.instructions[i].email)
    modifies db`receivers, db`nextId
    ensures outcome.Done? <==> Plannable(old(db.receivers), u.instructions, contactType)
    ensures outcome.Done? ==> ReceiversConsistent(db.receivers) && old(db.nextId) <= db.nextId
    ensures outcome.Done? ==> forall r | r in receivers :: r in db.receivers && receivers[r] == db.receivers[r]
    ensures outcome.Done? ==> Bijection(receivers, u.instructions, owners)
    ensures outcome.Done? ==> ReceiversUploaded(old(db.Snapshot()), u, db.Snapshot(), owners, db.nextId)
    ensures outcome.Done? ==> ExistingByType(old(db.receivers), contactType, u.instructions, owners)
  {
    receivers, owners := map[], [];
    var contacts;
    outcome, contacts := ResolveContacts(u.instructions);
    if outcome.Failed? {
      ghost var i: nat :| i < |u.instructions| && Contact(u.instructions[i]).None?;
      NoPlanWithoutContact(db.receivers, u.instructions, contactType, i);
      return;
    }
    var existing := GetByContacts(db.receivers, contacts);
    var byContact;
    outcome, byContact := IndexByContact(existing, contactType);
    if outcome.Failed? {
      ghost var r :| r in existing && ContactByType(existing[r], contactType) == "";
      NoPlanForUntyped(db.receivers, u.instructions, contacts, contactType, r);
      return;
    }
    outcome := CreateMissingReceivers(db, u.instructions, contacts, byContact, contactType);
    if outcome.Failed? {
      return;
    }
    owners := Owners(db.receivers, contacts);
    OwnersOwn(db.receivers, u.instructions, contacts);
    receivers := GetByContacts(db.receivers, contacts);
    if |receivers| != |u.instructions| {
      OwnersAreFound(db.receivers, contacts, owners);
      NoPlanForClash(old(db.receivers), old(db.nextId), db.receivers, db.nextId, u.instructions, contacts, contactType,
                     byContact.Keys, owners);
      outcome := Failed(ReceiverCountMismatch);
      return;
    }
    CountForcesBijection(db.receivers, u.instructions, contacts, owners);
    ReconciledIsUploaded(old(db.Snapshot()), u, db.Snapshot(), contacts, owners, byContact.Keys);
    ExistingOwnersByType(old(db.Snapshot()), u, db.Snapshot(), contacts, owners, byContact, contactType);
    UploadedIsPlanned(old(db.Snapshot()), u, db.Snapshot(), owners, db.nextId, contactType);
    outcome := Done;
  }

  /** Walks the receivers in any order; with a bijection it can only find the instruction's own receiver. */
  method FindReceiverByInstruction(receivers: map<Id, Receiver>, instruction: Instruction) returns (found: Option<Id>)
    ensures found.Some? ==> && found.value in receivers && Contact(instruction).Some?
                            && Matches(Contact(instruction).value, receivers[found.value])
    ensures found.None? && Contact(instruction).Some? ==>
              forall r | r in receivers :: !Matches(Contact(instruction).value, receivers[r])
  {
    var contact := Contact(instruction);
    if contact.None? {
      return None;
    }
    var todo := receivers.Keys;
    while todo != {}
      invariant todo <= receivers.Keys
      invariant forall r | r in receivers && r !in todo :: !Matches(contact.value, receivers[r])
    {
      var r :| r in todo;
      if Matches(contact.value, receivers[r]) {
        return Some(r);
      }
      todo := todo - {r};
    }
    return None;
  }

  // ---------- receiver wallets ----------

  method IndexWallets(db: Database, receivers: set<Id>, provider: Id) returns (walletOf: map<Id, Id>)
    requires WalletsConsistent(db.wallets)
    ensures forall r | r in walletOf :: r in receivers && walletOf[r] in db.wallets
              && db.wallets[walletOf[r]].receiver == r && db.wallets[walletOf[r]].provider == provider
    ensures forall w | w in db.wallets && db.wallets[w].receiver in receivers && db.wallets[w].provider == provider ::
              db.wallets[w].receiver in walletOf && walletOf[db.wallets[w].receiver] == w
  {
    walletOf := map[];
    var all := set w | w in db.wallets && db.wallets[w].receiver in receivers && db.wallets[w].provider == provider;
    var todo := all;
    while todo != {}
      invariant todo <= all
      invariant forall r | r in walletOf :: walletOf[r] in all - todo && db.wallets[walletOf[r]].receiver == r
      invariant forall w | w in all - todo ::
                  db.wallets[w].receiver in walletOf && walletOf[db.wallets[w].receiver] == w
    {
      var w :| w in todo;
      walletOf := walletOf[db.wallets[w].receiver := w];
      todo := todo - {w};
    }
  }

  method ProcessReceiverWallets(db: Database, receivers: set<Id>, provider: Id) returns (outcome: Outcome,
                                walletOf: map<Id, Id>)
    requires receivers <= db.receivers.Keys
    requires WalletsConsistent(db.wallets) && forall w | w in db.wallets :: w < db.nextId
    modifies db`wallets, db`nextId
    ensures db.receivers == old(db.receivers) && db.payments == old(db.payments)
            && db.disbursements == old(db.disbursements)
    ensures db.verifications == old(db.verifications) && db.now == old(db.now)
    ensures outcome.Done?
    ensures walletOf.Keys == receivers && old(db.nextId) <= db.nextId
    ensures forall r | r in receivers :: WalletOf(old(db.Snapshot()), provider, db.wallets, db.nextId, r, walletOf[r])
    ensures OthersKept(old(db.Snapshot()), db.wallets, walletOf)
    ensures WalletsConsistent(db.wallets)
  {
    ghost var s := db.Snapshot();
    walletOf := IndexWallets(db, receivers, provider);
    var todo := receivers;
    while todo != {}
      invariant todo <= receivers
      invariant WalletProgress(s, provider, receivers, todo, db.wallets, db.nextId, walletOf)
      invariant OthersKept(s, db.wallets, walletOf)
      invariant WalletsConsistent(db.wallets)
    {
      var r :| r in todo;
      outcome, walletOf := AssureWallet(db, provider, r, walletOf, s, receivers, todo);
      todo := todo - {r};
    }
    outcome := Done;
  }

  /** One receiver's wallet: a missing one is inserted, an existing one is invited again. */
  method AssureWallet(db: Database, provider: Id, r: Id, known: map<Id, Id>, ghost s: Tables,
                      ghost receivers: set<Id>, ghost todo: set<Id>)
    returns (outcome: Outcome, walletOf: map<Id, Id>)
    requires r in todo && todo <= receivers <= db.receivers.Keys && s.now == db.now
             && forall w | w in s.wallets :: w < s.nextId
    requires WalletProgress(s, provider, receivers, todo, db.wallets, db.nextId, known)
    requires OthersKept(s, db.wallets, known) && WalletsConsistent(db.wallets)
    modifies db`wallets, db`nextId
    ensures outcome.Done? && old(db.nextId) <= db.nextId
    ensures WalletProgress(s, provider, receivers, todo - {r}, db.wallets, db.nextId, walletOf)
    ensures OthersKept(s, db.wallets, walletOf) && WalletsConsistent(db.wallets)
  {
    walletOf := known;
    if r !in known {
      InsertedWalletProgress(s, provider, receivers, todo, db.wallets, db.nextId, known, r);
      InsertedOthersKept(s, db.wallets, known, db.nextId, NewWallet(r, provider, db.now));
      InsertedWalletConsistent(db.wallets, db.nextId, NewWallet(r, provider, db.now));
      var id := db.nextId;
      outcome := db.GetOrInsertReceiverWallet(r, provider);
      if outcome.Failed? {
        return;
      }
      walletOf := known[r := id];
    } else {
      assert Untouched(s, provider, db.wallets, r, known[r]);
      ReinvitedWalletProgress(s, provider, receivers, todo, db.wallets, db.nextId, known, r);
      ReinvitedOthersKept(s, db.wallets, known, r);
      RetryInvitationMessage(db, known[r]);
      outcome := Done;
    }
  }

  method RetryInvitationMessage(db: Database, w: Id)
    requires w in db.wallets && WalletsConsistent(db.wallets)
    modifies db`wallets
    ensures db.wallets == old(db.wallets)[w := Reinvited(old(db.wallets)[w])] && WalletsConsistent(db.wallets)
  {
    SameKeysConsistent(db.wallets, db.wallets[w := Reinvited(db.wallets[w])]);
    if db.wallets[w].status == ReadyWallet {
      db.wallets := db.wallets[w := db.wallets[w].(invitationSentAt := None)];
    }
    assert db.wallets == old(db.wallets)[w := Reinvited(old(db.wallets)[w])];
  }

  // ---------- supplied wallets ----------

  /** With a bijection the search returns the instruction's own receiver. */
  method OwnReceiver(receivers: map<Id, Receiver>, instructions: seq<Instruction>, ghost owners: seq<Id>, i: nat)
    returns (found: Option<Id>)
    requires Bijection(receivers, instructions, owners) && i < |instructions|
    ensures found == Some(owners[i]) && owners[i] in receivers
  {
    OwnerHasWallet(receivers, instructions, owners, i);
    found := FindReceiverByInstruction(receivers, instructions[i]);
    assert Matches(Contact(instructions[i]).value, receivers[owners[i]]);
  }

  method RegisterSuppliedWallet(db: Database, instruction: Instruction, id: Id,
                                loaded: Wallet) returns (outcome: Outcome)
    requires id in db.wallets && db.wallets[id] == loaded && WalletsConsistent(db.wallets)
    modifies db`wallets
    ensures outcome.Done? ==> db.wallets == old(db.wallets)[id := Supplied(loaded, instruction, db.now)]
    ensures outcome.Done? ==> WalletsConsistent(db.wallets)
    ensures outcome.Done? <==> (&& Registrable(loaded, instruction)
                                && (|| loaded.status in {RegisteredWallet, FlaggedWallet}
                                    || !Collides(old(db.wallets), loaded, instruction)))
    ensures !AddressAgrees(loaded, instruction) ==> outcome == Failed(WalletAddressMismatch)
  {
    if loaded.address != NoAddress && loaded.address != instruction.walletAddress {
      return Failed(WalletAddressMismatch);
    }
    if loaded.status in {RegisteredWallet, FlaggedWallet} {
      assert db.wallets == db.wallets[id := loaded];
      return Done;
    }
    var memo: Option<string> := None;
    match instruction.memo {
      case NoMemo =>
      case UnparsableMemo(_) => return Failed(InvalidInput);
      case ParsedMemo(text) => memo := Some(text);
    }
    var update := WalletUpdate(Some(RegisteredWallet), instruction.walletAddress, memo);
    outcome := db.UpdateWallet(id, update);
    if outcome.Done? {
      UpdatedWalletsConsistent(old(db.wallets), id, UpdatedWallet(loaded, update, db.now));
    }
  }

  method RegisterSuppliedWallets(db: Database, instructions: seq<Instruction>, receivers: map<Id, Receiver>,
                                 walletOf: map<Id, Id>, ghost owners: seq<Id>, ghost walletIds: seq<Id>)
    returns (outcome: Outcome)
    requires Bijection(receivers, instructions, owners) && walletOf.Keys == receivers.Keys
    requires WalletsConsistent(db.wallets) && Distinct(walletIds)
    requires OwnersWallets(walletOf, owners, walletIds) && forall i | 0 <= i < |walletIds| :: walletIds[i] in db.wallets
    modifies db`wallets
    ensures outcome.Done? <==> Registers(old(db.wallets), instructions, walletIds, db.now)
    ensures outcome.Done? ==> Registering(old(db.wallets), db.wallets, instructions, walletIds, db.now, |instructions|)
    ensures outcome.Done? ==> WalletsConsistent(db.wallets)
  {
    var loaded := db.wallets;
    for i := 0 to |instructions|
      invariant Registering(loaded, db.wallets, instructions, walletIds, db.now, i)
      invariant WalletsConsistent(db.wallets)
    {
      var found := OwnReceiver(receivers, instructions, owners, i);
      if found.None? || found.value !in walletOf {
        return Failed(RecordNotFound);
      }
      var id := walletOf[found.value];
      ghost var before := db.wallets;
      outcome := RegisterSuppliedWallet(db, instructions[i], id, loaded[id]);
      if outcome.Failed? {
        if Registers(loaded, instructions, walletIds, db.now) {
          NextRegisters(loaded, before, instructions, walletIds, db.now, i);
        }
        return;
      }
      RegisteringStep(loaded, before, instructions, walletIds, db.now, i);
    }
    outcome := Done;
  }

  // ---------- verifications ----------

  method IndexInstructions(instructions: seq<Instruction>) returns (outcome: Outcome,
                           byContact: map<string, Instruction>)
    ensures outcome.Done? <==> forall i | 0 <= i < |instructions| :: Contact(instructions[i]).Some?
    ensures outcome.Done? ==> IndexOf(byContact, instructions)
  {
    byContact := map[];
    for i := 0 to |instructions|
      invariant forall j | 0 <= j < i :: Contact(instructions[j]).Some?
      invariant forall contact | contact in byContact ::
                  exists j | 0 <= j < i :: byContact[contact] == instructions[j]
                    && Contact(instructions[j]) == Some(contact)
      invariant forall j | 0 <= j < i :: Contact(instructions[j]).value in byContact
    {
      match Contact(instructions[i]) {
        case None => return Failed(InvalidInput), map[];
        case Some(contact) => byContact := byContact[contact := instructions[i]];
      }
    }
    outcome := Done;
  }

  /** One receiver's verification: inserted when missing, kept when it matches, replaced unless it is confirmed. */
  method ProcessReceiverVerification(db: Database, r: Id, field: Field, value: string) returns (outcome: Outcome)
    modifies db`verifications
    ensures outcome.Done? <==> UploadedVerification(VerificationAt(old(db.verifications), r, field), value).Some?
    ensures outcome.Done? ==> db.verifications == old(db.verifications)[
              (r, field) := UploadedVerification(VerificationAt(old(db.verifications), r, field), value).value]
    ensures outcome.Done? ==>
              && (r, field) in db.verifications && db.verifications[(r, field)].hash == Hashed(value)
              && db.verifications[(r, field)].confirmedAt
                 == if (r, field) in old(db.verifications) then old(db.verifications)[(r, field)].confirmedAt else None
    ensures outcome.Failed? ==> db.verifications == old(db.verifications)
    ensures (r, field) in old(db.verifications) && outcome.Failed? ==> outcome == Failed(VerificationMismatch)
  {
    if (r, field) !in db.verifications {
      if Blank(value) {
        return Failed(InvalidInput);
      }
      db.verifications := db.verifications[(r, field) := Verification(Hashed(value), None)];
    } else if db.verifications[(r, field)].hash != Hashed(value) {
      if db.verifications[(r, field)].confirmedAt.Some? {
        return Failed(VerificationMismatch);
      }
      db.verifications := db.verifications[(r, field) := db.verifications[(r, field)].(hash := Hashed(value))];
    }
    assert (r, field) in old(db.verifications) && old(db.verifications)[(r, field)].hash == Hashed(value) ==>
        db.verifications == db.verifications[(r, field) := old(db.verifications)[(r, field)]];
    return Done;
  }

  /** The instruction that carries the receiver's contact of the type; with a bijection it is the receiver's own. */
  method OwnInstruction(byContact: map<string, Instruction>, receivers: map<Id, Receiver>, r: Id,
                        contactType: ContactType,
                        ghost instructions: seq<Instruction>, ghost owners: seq<Id>)
    returns (outcome: Outcome, instruction: Instruction, ghost j: nat)
    requires Bijection(receivers, instructions, owners) && r in receivers
    requires IndexOf(byContact, instructions)
    ensures j < |owners| && owners[j] == r
    ensures outcome.Done? <==> Contact(instructions[j]) == Some(ContactByType(receivers[r], contactType))
    ensures outcome.Done? ==> instruction == instructions[j]
  {
    j := IndexOfOwner(receivers, instructions, owners, r);
    instruction := Instruction("", "", 0, "", "", NoAddress, NoMemo);
    var contact := ContactByType(receivers[r], contactType);
    if contact == "" || contact !in byContact {
      return Failed(InvalidInput), instruction, j;
    }
    instruction := byContact[contact];
    ContactLeadsToOwn(byContact, receivers, instructions, owners, j, contact);
    outcome := Done;
  }

  method ProcessReceiverVerifications(db: Database, instructions: seq<Instruction>, receivers: map<Id, Receiver>,
                                      field: Field, contactType: ContactType, ghost owners: seq<Id>)
    returns (outcome: Outcome)
    requires Bijection(receivers, instructions, owners)
    modifies db`verifications
    ensures outcome.Done? <==> AllByType(receivers, contactType, instructions, owners)
                               && VerificationsPossible(old(db.verifications), instructions, owners, field)
    ensures outcome.Done? ==> Verifying(old(db.verifications), db.verifications, instructions, owners, field, {})
  {
    ghost var before := db.verifications;
    var byContact;
    outcome, byContact := IndexInstructions(instructions);
    if outcome.Failed? {
      return;
    }
    var todo := receivers.Keys;
    while todo != {}
      invariant todo <= receivers.Keys
      invariant Verifying(before, db.verifications, instructions, owners, field, todo)
      invariant ByTypeOutside(receivers, contactType, instructions, owners, todo)
    {
      var r :| r in todo;
      var instruction;
      ghost var j;
      outcome, instruction, j := OwnInstruction(byContact, receivers, r, contactType, instructions, owners);
      if outcome.Failed? {
        return;
      }
      ghost var after := db.verifications;
      outcome := ProcessReceiverVerification(db, r, field, instruction.idNo);
      if outcome.Failed? {
        return;
      }
      VerifyingStep(before, after, instructions, owners, field, todo, j,
                    UploadedVerification(VerificationAt(after, r, field), instructions[j].idNo).value);
      OutsideStep(receivers, contactType, instructions, owners, todo, j);
      todo := todo - {r};
    }
    AllVerified(before, db.verifications, instructions, owners, field);
    outcome := Done;
  }

  // ---------- payments ----------

  /** One payment per instruction, for the receiver that its contact finds. */
  method BuildPayments(u: Upload, row: Disbursement, receivers: map<Id, Receiver>, walletOf: map<Id, Id>, now: int,
                       ghost owners: seq<Id>, ghost walletIds: seq<Id>)
    returns (outcome: Outcome, rows: seq<Payment>)
    requires Bijection(receivers, u.instructions, owners) && walletOf.Keys == receivers.Keys
    requires OwnersWallets(walletOf, owners, walletIds)
    ensures outcome.Done? && rows == DraftsFor(u, row, owners, walletIds, now)
  {
    rows := [];
    for i := 0 to |u.instructions|
      invariant rows == DraftsFor(u, row, owners, walletIds, now)[..i]
    {
      var found := OwnReceiver(receivers, u.instructions, owners, i);
      if found.None? || found.value !in walletOf {
        return Failed(RecordNotFound), [];
      }
      rows := rows + [Payment(Some(u.disbursement), found.value, walletOf[found.value], row.asset,
                              u.instructions[i].amount,
                              DraftPayment, [Entry(DraftPayment, now)], "", now)];
    }
    outcome := Done;
  }

  method CreatePayments(db: Database, u: Upload, row: Disbursement, receivers: map<Id, Receiver>, walletOf: map<Id, Id>,
                        ghost owners: seq<Id>, ghost walletIds: seq<Id>)
    returns (outcome: Outcome)
    requires Bijection(receivers, u.instructions, owners) && walletOf.Keys == receivers.Keys
    requires OwnersWallets(walletOf, owners, walletIds)
    requires forall id | id in db.payments :: id < db.nextId
    modifies db`payments, db`nextId
    ensures outcome.Done? <==> forall i | 0 <= i < |u.instructions| :: ValidAmount(u.instructions[i].amount)
    ensures outcome.Done? ==>
              && db.payments == old(db.payments)
                                + Numbered(old(db.nextId), DraftsFor(u, row, owners, walletIds, db.now))
              && db.nextId == old(db.nextId) + |u.instructions|
  {
    var rows;
    outcome, rows := BuildPayments(u, row, receivers, walletOf, db.now, owners, walletIds);
    if outcome.Failed? {
      return;
    }
    assert forall i | 0 <= i < |rows| :: rows[i].amount == u.instructions[i].amount;
    outcome := db.InsertAllPayments(rows);
  }

  // ---------- the whole upload ----------

  /** Step 2 for the receivers of a bijection. */
  method ProcessOwnersWallets(db: Database, receivers: map<Id, Receiver>, provider: Id, ghost owners: seq<Id>)
    returns (outcome: Outcome, walletOf: map<Id, Id>, ghost walletIds: seq<Id>)
    requires receivers.Keys <= db.receivers.Keys
    requires WalletsConsistent(db.wallets) && forall w | w in db.wallets :: w < db.nextId
    requires Elements(owners) == receivers.Keys
    modifies db`wallets, db`nextId
    ensures db.receivers == old(db.receivers) && db.payments == old(db.payments)
            && db.disbursements == old(db.disbursements)
    ensures db.verifications == old(db.verifications) && db.now == old(db.now)
    ensures outcome.Done? && WalletsConsistent(db.wallets) && old(db.nextId) <= db.nextId
    ensures walletOf.Keys == receivers.Keys
    ensures OwnWallets(old(db.Snapshot()), provider, db.wallets, db.nextId, owners, walletIds)
    ensures OnlyThese(old(db.Snapshot()), db.wallets, walletIds)
    ensures OwnersWallets(walletOf, owners, walletIds)
  {
    ghost var s := db.Snapshot();
    outcome, walletOf := ProcessReceiverWallets(db, receivers.Keys, provider);
    OwnersHaveWallets(s, provider, db.wallets, db.nextId, receivers, walletOf, owners);
    walletIds := WalletIds(owners, walletOf);
    OthersAreKept(s, db.wallets, walletOf, owners);
  }

  /** Steps 1 and 2: receivers and their wallets. */
  method ProcessReceivers(db: Database, u: Upload, row: Disbursement)
    returns (outcome: Outcome, receivers: map<Id, Receiver>, walletOf: map<Id, Id>,
             ghost owners: seq<Id>, ghost walletIds: seq<Id>, ghost s1: Tables)
    requires Consistent(db.Snapshot()) && KeysInPlace(db.Snapshot())
    requires forall i | 0 <= i < |u.instructions| ::
               WellFormedContacts(u.instructions[i].phone, u.instructions[i].email)
    modifies db`receivers, db`wallets, db`nextId
    ensures db.payments == old(db.payments) && db.disbursements == old(db.disbursements)
    ensures db.verifications == old(db.verifications) && db.now == old(db.now)
    ensures outcome.Done? <==> Plannable(old(db.receivers), u.instructions, row.contactType)
    ensures outcome.Done? ==> Consistent(db.Snapshot()) && old(db.nextId) <= s1.nextId <= db.nextId
    ensures outcome.Done? ==> forall r | r in receivers :: r in s1.receivers && receivers[r] == s1.receivers[r]
    ensures outcome.Done? ==> Planned(old(db.receivers), u.instructions, row.contactType, s1.receivers, owners)
    ensures outcome.Done? ==> ExistingByType(old(db.receivers), row.contactType, u.instructions, owners)
    ensures outcome.Done? ==> Bijection(receivers, u.instructions, owners) && walletOf.Keys == receivers.Keys
    ensures outcome.Done? ==> ReceiversUploaded(old(db.Snapshot()), u, s1, owners, s1.nextId)
    ensures outcome.Done? ==> s1 == old(db.Snapshot()).(receivers := db.receivers, nextId := s1.nextId)
    ensures outcome.Done? ==> OwnWallets(s1, row.provider, db.wallets, db.nextId, owners, walletIds)
    ensures outcome.Done? ==> OnlyThese(s1, db.wallets, walletIds)
    ensures outcome.Done? ==> OwnersWallets(walletOf, owners, walletIds)
  {
    walletOf, walletIds, s1 := map[], [], db.Snapshot();
    ghost var s := db.Snapshot();
    outcome, receivers, owners := ReconcileExistingReceiversWithInstructions(db, u, row.contactType);
    if outcome.Failed? {
      return;
    }
    s1 := db.Snapshot();
    UploadedIsPlanned(s, u, s1, owners, s1.nextId, row.contactType);
    outcome, walletOf, walletIds := ProcessOwnersWallets(db, receivers, row.provider, owners);
  }

  /** Step 3 for a disbursement whose file supplies the addresses. */
  method RegisterStep(db: Database, u: Upload, row: Disbursement, receivers: map<Id, Receiver>,
                      walletOf: map<Id, Id>, ghost owners: seq<Id>, ghost walletIds: seq<Id>)
    returns (outcome: Outcome)
    requires row.includesWalletAddress
    requires Bijection(receivers, u.instructions, owners) && walletOf.Keys == receivers.Keys
    requires WalletsConsistent(db.wallets) && Distinct(walletIds)
    requires OwnersWallets(walletOf, owners, walletIds) && forall i | 0 <= i < |walletIds| :: walletIds[i] in db.wallets
    modifies db`wallets
    ensures outcome.Done? ==> WalletsConsistent(db.wallets)
    ensures outcome.Done? ==> WalletsAfterStep3(row, old(db.wallets), db.wallets, u.instructions, walletIds, db.now)
    ensures outcome.Done? <==> Registers(old(db.wallets), u.instructions, walletIds, db.now)
    ensures VerificationsUploaded(old(db.Snapshot()), u, row, db.Snapshot(), owners)
  {
    outcome := RegisterSuppliedWallets(db, u.instructions, receivers, walletOf, owners, walletIds);
  }

  /** Step 3 for a disbursement with a verification field. */
  method VerifyStep(db: Database, u: Upload, row: Disbursement, receivers: map<Id, Receiver>, ghost owners: seq<Id>)
    returns (outcome: Outcome)
    requires Verifies(row) && Bijection(receivers, u.instructions, owners)
    modifies db`verifications
    ensures outcome.Done? ==> VerificationsUploaded(old(db.Snapshot()), u, row, db.Snapshot(), owners)
    ensures outcome.Done? <==>
      && AllByType(receivers, row.contactType, u.instructions, owners)
      && VerificationsPossible(old(db.verifications), u.instructions, owners, row.verificationField.value)
  {
    ghost var s := db.Snapshot();
    outcome := ProcessReceiverVerifications(db, u.instructions, receivers, row.verificationField.value,
                                            row.contactType, owners);
    if outcome.Done? {
      VerifiedIsUploaded(s, u, row, db.Snapshot(), owners);
    }
  }

  /** Step 3: supplied addresses, or verifications, or neither. */
  method RegisterOrVerify(db: Database, u: Upload, row: Disbursement, receivers: map<Id, Receiver>,
                          walletOf: map<Id, Id>, ghost owners: seq<Id>, ghost walletIds: seq<Id>)
    returns (outcome: Outcome)
    requires Bijection(receivers, u.instructions, owners) && walletOf.Keys == receivers.Keys
    requires WalletsConsistent(db.wallets) && Distinct(walletIds)
    requires OwnersWallets(walletOf, owners, walletIds) && forall i | 0 <= i < |walletIds| :: walletIds[i] in db.wallets
    modifies db`wallets, db`verifications
    ensures db.payments == old(db.payments) && db.disbursements == old(db.disbursements)
            && db.receivers == old(db.receivers)
    ensures db.nextId == old(db.nextId) && db.now == old(db.now)
    ensures outcome.Done? ==> WalletsConsistent(db.wallets)
    ensures outcome.Done? ==> WalletsAfterStep3(row, old(db.wallets), db.wallets, u.instructions, walletIds, db.now)
    ensures outcome.Done? ==> VerificationsUploaded(old(db.Snapshot()), u, row, db.Snapshot(), owners)
    ensures outcome.Done? <==>
      && (row.includesWalletAddress ==> Registers(old(db.wallets), u.instructions, walletIds, db.now))
      && (Verifies(row) ==>
            && AllByType(receivers, row.contactType, u.instructions, owners)
            && VerificationsPossible(old(db.verifications), u.instructions, owners, row.verificationField.value))
  {
    if row.includesWalletAddress {
      outcome := RegisterStep(db, u, row, receivers, walletOf, owners, walletIds);
    } else if row.verificationField.Some? {
      outcome := VerifyStep(db, u, row, receivers, owners);
    } else {
      outcome := Done;
    }
  }

  /** Steps 4 to 7: the old drafts go, the new ones come, and the file and the status are written last. */
  method ReplacePayments(db: Database, u: Upload, row: Disbursement, receivers: map<Id, Receiver>,
                         walletOf: map<Id, Id>,
                         ghost s: Tables, ghost owners: seq<Id>, ghost walletIds: seq<Id>)
    returns (outcome: Outcome)
    requires Bijection(receivers, u.instructions, owners) && walletOf.Keys == receivers.Keys
    requires OwnersWallets(walletOf, owners, walletIds)
    requires forall id | id in db.payments :: id < db.nextId
    requires s.payments == db.payments && s.disbursements == db.disbursements && s.now == db.now
             && s.nextId <= db.nextId
    requires u.disbursement in db.disbursements && db.disbursements[u.disbursement] == row
    modifies db`payments, db`disbursements, db`nextId
    ensures db.receivers == old(db.receivers) && db.wallets == old(db.wallets)
            && db.verifications == old(db.verifications)
    ensures outcome.Done? ==> PaymentsUploaded(s, u, row, db.Snapshot(), owners, walletIds, old(db.nextId))
    ensures outcome.Done? <==> (&& (forall i | 0 <= i < |u.instructions| :: ValidAmount(u.instructions[i].amount))
                                && u.file.name != "" && u.file.content != "" && NotStarted(row.status))
  {
    db.DeleteAllDraftForDisbursement(u.disbursement);
    outcome := CreatePayments(db, u, row, receivers, walletOf, owners, walletIds);
    if outcome.Failed? {
      return;
    }
    outcome := db.UpdateDisbursementFile(u.disbursement, u.file);
    if outcome.Failed? {
      return;
    }
    outcome := db.UpdateDisbursementStatus(u.disbursement, ReadyDisbursement);
    FileThenStatus(s.disbursements, u.disbursement, u.file, s.now);
  }

  lemma ByTypeIn(receivers: map<Id, Receiver>, all: map<Id, Receiver>, contactType: ContactType,
                 instructions: seq<Instruction>, owners: seq<Id>)
    requires Bijection(receivers, instructions, owners)
    requires forall r | r in receivers :: r in all && receivers[r] == all[r]
    ensures AllByType(receivers, contactType, instructions, owners) <==>
            AllByType(all, contactType, instructions, owners)
  {
  }

  /** Steps 1 to 3. */
  method Prepare(db: Database, u: Upload, row: Disbursement)
    returns (outcome: Outcome, receivers: map<Id, Receiver>, walletOf: map<Id, Id>, ghost owners: seq<Id>,
             ghost walletIds: seq<Id>)
    requires Consistent(db.Snapshot()) && KeysInPlace(db.Snapshot())
    requires u.disbursement in db.disbursements && row == db.disbursements[u.disbursement]
    requires forall i | 0 <= i < |u.instructions| ::
               WellFormedContacts(u.instructions[i].phone, u.instructions[i].email)
    modifies db`receivers, db`wallets, db`verifications, db`nextId
    ensures outcome.Done? ==> Prepared(old(db.Snapshot()), u, row, db.Snapshot(), owners, walletIds)
    ensures outcome.Done? ==> Bijection(receivers, u.instructions, owners) && walletOf.Keys == receivers.Keys
    ensures outcome.Done? ==> OwnersWallets(walletOf, owners, walletIds)
    ensures outcome.Failed? ==> !Possible(old(db.Snapshot()), u)
    ensures outcome.Done? <==> ReceiversResolve(old(db.receivers), row.contactType, u.instructions)
                               && ThirdStep(old(db.Snapshot()), row, u.instructions)
    ensures db.payments == old(db.payments) && db.disbursements == old(db.disbursements) && db.now == old(db.now)
    ensures outcome.Done? ==> old(db.nextId) <= db.nextId && forall id | id in db.payments :: id < db.nextId
  {
    ghost var s := db.Snapshot();
    ghost var s1;
    PlannableIffResolves(s.receivers, u.instructions, row.contactType, s.nextId);
    outcome, receivers, walletOf, owners, walletIds, s1 := ProcessReceivers(db, u, row);
    if outcome.Failed? {
      PossibleBefore(s, u);
      return;
    }
    ghost var s2 := db.Snapshot();
    WalletIdsDistinct(s1, row.provider, s2.wallets, s2.nextId, owners, walletIds);
    ByTypeIn(receivers, s1.receivers, row.contactType, u.instructions, owners);
    ThirdStepIff(s, u, row, s1, s2.wallets, s2.nextId, owners, walletIds);
    outcome := RegisterOrVerify(db, u, row, receivers, walletOf, owners, walletIds);
    if outcome.Failed? {
      if Possible(s, u) { PossibleMidway(s, u, row, s1, s2.wallets, s2.nextId, owners, walletIds); }
      return;
    }
    WalletsAreUploaded(s, u, row, s1, s2.wallets, s2.nextId, db.Snapshot(), owners, walletIds, s2.nextId);
    StepsPrepare(s, u, row, s1, db.Snapshot(), owners, walletIds);
  }

  /** Goes through exactly when some successful outcome is possible at all, and ends in one. */
  method ProcessAll(db: Database, u: Upload) returns (outcome: Outcome)
    requires Consistent(db.Snapshot()) && KeysInPlace(db.Snapshot()) && u.disbursement in db.disbursements
    requires forall i | 0 <= i < |u.instructions| ::
               WellFormedContacts(u.instructions[i].phone, u.instructions[i].email)
    modifies db
    ensures |u.instructions| > u.maxInstructions ==> outcome == Failed(MaxInstructionsExceeded)
    ensures outcome.Done? ==> Uploaded(old(db.Snapshot()), u, db.Snapshot())
    ensures outcome.Done? <==> Possible(old(db.Snapshot()), u)
    ensures outcome.Done? <==> GoesThrough(old(db.Snapshot()), u)
  {
    ghost var s := db.Snapshot();
    PossibleBefore(s, u);
    if |u.instructions| > u.maxInstructions {
      return Failed(MaxInstructionsExceeded);
    }
    var row := db.disbursements[u.disbursement];
    var receivers, walletOf;
    ghost var owners, walletIds;
    outcome, receivers, walletOf, owners, walletIds := Prepare(db, u, row);
    if outcome.Failed? {
      return;
    }
    ghost var s3 := db.Snapshot();
    outcome := ReplacePayments(db, u, row, receivers, walletOf, s, owners, walletIds);
    if outcome.Done? {
      UploadAssembled(s, u, row, s3, db.Snapshot(), owners, walletIds);
    }
  }

  /**
   The handler's transaction: an upload either goes through completely or leaves every table as it was,
     and it fails only
   when no outcome would satisfy its rules.
   */
  method PostDisbursementInstructions(db: Database, u: Upload) returns (outcome: Outcome)
    requires Consistent(db.Snapshot()) && KeysInPlace(db.Snapshot())
    requires forall i | 0 <= i < |u.instructions| ::
               WellFormedContacts(u.instructions[i].phone, u.instructions[i].email)
    modifies db
    ensures outcome.Done? ==> Uploaded(old(db.Snapshot()), u, db.Snapshot())
    ensures outcome.Failed? ==> db.Snapshot() == old(db.Snapshot())
    ensures outcome.Done? <==> Possible(old(db.Snapshot()), u)
    ensures outcome.Done? <==> GoesThrough(old(db.Snapshot()), u)
  {
    var begun := db.Snapshot();
    PossibleBefore(begun, u);
    if u.disbursement !in db.disbursements {
      return Failed(RecordNotFound);
    }
    if !NotStarted(db.disbursements[u.disbursement].status) {
      return Failed(InvalidTransition);
    }
    outcome := ProcessAll(db, u);
    if outcome.Failed? {
      db.Restore(begun);
    }
  }
}
