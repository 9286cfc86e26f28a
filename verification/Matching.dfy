/** How an upload matches instructions with receivers, wallets and verifications: the facts behind its loops. */
module Matching {
  import opened Statuses
  import opened Tables
  import opened Lifecycle
  import opened Runs
  import opened Steps

  /** SELECT ... WHERE phone_number = ANY(contacts) OR email = ANY(contacts), by id. */
  function GetByContacts(receivers: map<Id, Receiver>, contacts: seq<string>): map<Id, Receiver> {
    map r | r in receivers && (receivers[r].phone in contacts || receivers[r].email in contacts) :: receivers[r]
  }

  ghost predicate HaveContacts(instructions: seq<Instruction>, contacts: seq<string>) {
    && |contacts| == |instructions|
    && forall i | 0 <= i < |contacts| :: Contact(instructions[i]) == Some(contacts[i])
  }

  /** Instruction i is for receiver owners[i] and for no other; every receiver has its instruction, and only one. */
  ghost predicate Bijection(receivers: map<Id, Receiver>, instructions: seq<Instruction>, owners: seq<Id>) {
    && |owners| == |instructions|
    && Distinct(owners)
    && Elements(owners) == receivers.Keys
    && (forall i | 0 <= i < |instructions| :: Contact(instructions[i]).Some?)
    && forall i, r | 0 <= i < |instructions| && r in receivers ::
         Matches(Contact(instructions[i]).value, receivers[r]) <==> r == owners[i]
  }

  // ---------- receivers ----------

  /**
   After i instructions: old receivers are kept, and the new ones are those of the instructions with an unknown
   contact.
   */
  ghost predicate Created(
    before: map<Id, Receiver>, first: Id, after: map<Id, Receiver>, next: Id,
    instructions: seq<Instruction>, contacts: seq<string>, known: set<string>, i: nat)
    requires i <= |instructions| == |contacts|
  {
    && first <= next
    && (forall r | r in before :: r in after && after[r] == before[r])
    && (forall r | r in after :: r < next)
    && (forall r | r in after && r !in before ::
          first <= r && CreatedFromSome(after[r], instructions, contacts, known, i))
    && (forall k | 0 <= k < i && contacts[k] !in known :: HasNew(before, after, instructions[k]))
  }

  ghost predicate CreatedFromSome(r: Receiver, instructions: seq<Instruction>, contacts: seq<string>,
                                  known: set<string>, i: nat)
    requires i <= |instructions| == |contacts|
  {
    exists k | 0 <= k < i :: contacts[k] !in known && r == ReceiverFor(instructions[k])
  }

  ghost predicate HasNew(before: map<Id, Receiver>, after: map<Id, Receiver>, instruction: Instruction) {
    exists r | r in after :: r !in before && after[r] == ReceiverFor(instruction)
  }

  lemma CreatedStep(
    before: map<Id, Receiver>, first: Id, mid: map<Id, Receiver>, next: Id,
    instructions: seq<Instruction>, contacts: seq<string>, known: set<string>, i: nat, after: map<Id, Receiver>,
    next': Id)
    requires i < |instructions| == |contacts|
    requires Created(before, first, mid, next, instructions, contacts, known, i)
    requires if contacts[i] in known then after == mid && next' == next
             else after == mid[next := ReceiverFor(instructions[i])] && next' == next + 1
    ensures Created(before, first, after, next', instructions, contacts, known, i + 1)
  {
    CreatedRowsStep(before, first, mid, next, instructions, contacts, known, i, after);
    HasNewStep(before, first, mid, next, instructions, contacts, known, i, after);
  }

  lemma CreatedRowsStep(
    before: map<Id, Receiver>, first: Id, mid: map<Id, Receiver>, next: Id,
    instructions: seq<Instruction>, contacts: seq<string>, known: set<string>, i: nat, after: map<Id, Receiver>)
    requires i < |instructions| == |contacts|
    requires Created(before, first, mid, next, instructions, contacts, known, i)
    requires after == if contacts[i] in known then mid else mid[next := ReceiverFor(instructions[i])]
    ensures forall r | r in after && r !in before ::
              first <= r && CreatedFromSome(after[r], instructions, contacts, known, i + 1)
  {
  }

  lemma HasNewStep(
    before: map<Id, Receiver>, first: Id, mid: map<Id, Receiver>, next: Id,
    instructions: seq<Instruction>, contacts: seq<string>, known: set<string>, i: nat, after: map<Id, Receiver>)
    requires i < |instructions| == |contacts|
    requires Created(before, first, mid, next, instructions, contacts, known, i)
    requires after == if contacts[i] in known then mid else mid[next := ReceiverFor(instructions[i])]
    ensures forall k | 0 <= k < i + 1 && contacts[k] !in known :: HasNew(before, after, instructions[k])
  {
    forall k | 0 <= k < i + 1 && contacts[k] !in known ensures HasNew(before, after, instructions[k]) {
      if k < i {
        HasNewKept(before, mid, after, instructions[k]);
      } else {
        assert next in after && next !in before && after[next] == ReceiverFor(instructions[i]);
      }
    }
  }

  lemma HasNewKept(before: map<Id, Receiver>, mid: map<Id, Receiver>, after: map<Id, Receiver>,
                   instruction: Instruction)
    requires HasNew(before, mid, instruction) && forall r | r in mid :: r in after && after[r] == mid[r]
    ensures HasNew(before, after, instruction)
  {
  }

  ghost predicate HasMatch(receivers: map<Id, Receiver>, contact: string) {
    exists r | r in receivers :: Matches(contact, receivers[r])
  }

  ghost predicate AllMatched(receivers: map<Id, Receiver>, contacts: seq<string>) {
    forall k | 0 <= k < |contacts| :: HasMatch(receivers, contacts[k])
  }

  lemma StillMatched(before: map<Id, Receiver>, after: map<Id, Receiver>, contacts: seq<string>, i: nat)
    requires i < |contacts| && AllMatched(before, contacts[..i]) && HasMatch(after, contacts[i])
    requires forall r | r in before :: r in after && after[r] == before[r]
    ensures AllMatched(after, contacts[..i + 1])
  {
  }

  /** Unique indexes and the formats of phones and e-mails leave at most one receiver per contact. */
  lemma MatchIsUnique(receivers: map<Id, Receiver>, contact: string, q: Id, r: Id)
    requires ReceiversConsistent(receivers) && contact != "" && q in receivers && r in receivers
    requires Matches(contact, receivers[q]) && Matches(contact, receivers[r])
    ensures q == r
  {
  }

  ghost function Owner(receivers: map<Id, Receiver>, contact: string): (r: Id)
    requires HasMatch(receivers, contact)
    ensures r in receivers && Matches(contact, receivers[r])
  {
    var r :| r in receivers && Matches(contact, receivers[r]);
    r
  }

  ghost function Owners(receivers: map<Id, Receiver>, contacts: seq<string>): (owners: seq<Id>)
    requires AllMatched(receivers, contacts)
  {
    seq(|contacts|, k requires 0 <= k < |contacts| => Owner(receivers, contacts[k]))
  }

  /** owners[k] is the one receiver that contact k reaches. */
  ghost predicate OwnedBy(receivers: map<Id, Receiver>, contacts: seq<string>, owners: seq<Id>) {
    && |owners| == |contacts|
    && (forall k | 0 <= k < |owners| :: owners[k] in receivers)
    && forall k, r | 0 <= k < |contacts| && r in receivers :: Matches(contacts[k], receivers[r]) <==> r == owners[k]
  }

  lemma OwnersOwn(receivers: map<Id, Receiver>, instructions: seq<Instruction>, contacts: seq<string>)
    requires ReceiversConsistent(receivers) && AllMatched(receivers, contacts) && HaveContacts(instructions, contacts)
    ensures OwnedBy(receivers, contacts, Owners(receivers, contacts))
  {
  }

  lemma OwnersAreFound(receivers: map<Id, Receiver>, contacts: seq<string>, owners: seq<Id>)
    requires OwnedBy(receivers, contacts, owners)
    ensures Elements(owners) == GetByContacts(receivers, contacts).Keys
    ensures |GetByContacts(receivers, contacts)| == |contacts| <==> Distinct(owners)
  {
    var found := GetByContacts(receivers, contacts);
    forall r | r in found ensures r in owners {
      var k :| 0 <= k < |contacts| && (receivers[r].phone == contacts[k] || receivers[r].email == contacts[k]);
      assert Matches(contacts[k], receivers[r]);
    }
    forall k | 0 <= k < |owners| ensures owners[k] in found {
      assert Matches(contacts[k], receivers[owners[k]]);
    }
    assert Elements(owners) == found.Keys;
    assert |found.Keys| == |found|;
    ElementsCount(owners);
  }

  /** The pigeonhole step: as many receivers found as instructions given makes the matching a bijection. */
  lemma CountForcesBijection(receivers: map<Id, Receiver>, instructions: seq<Instruction>, contacts: seq<string>,
                             owners: seq<Id>)
    requires HaveContacts(instructions, contacts) && OwnedBy(receivers, contacts, owners)
    requires |GetByContacts(receivers, contacts)| == |instructions|
    ensures Bijection(GetByContacts(receivers, contacts), instructions, owners)
  {
    OwnersAreFound(receivers, contacts, owners);
  }

  /** One receiver is reached by both contacts. */
  ghost predicate Clash(receivers: map<Id, Receiver>, c: string, d: string) {
    exists r | r in receivers :: Matches(c, receivers[r]) && Matches(d, receivers[r])
  }

  lemma ClashIffSameOwner(receivers: map<Id, Receiver>, contacts: seq<string>, owners: seq<Id>, i: nat, j: nat)
    requires OwnedBy(receivers, contacts, owners) && i < |contacts| && j < |contacts|
    ensures Clash(receivers, contacts[i], contacts[j]) <==> owners[i] == owners[j]
  {
  }

  /** The count differs exactly when two instructions are for the same receiver. */
  lemma CountMismatchMeansClash(receivers: map<Id, Receiver>, contacts: seq<string>, owners: seq<Id>)
    requires OwnedBy(receivers, contacts, owners)
    ensures |GetByContacts(receivers, contacts)| != |contacts| <==>
            exists i, j | 0 <= i < j < |contacts| :: Clash(receivers, contacts[i], contacts[j])
  {
    OwnersAreFound(receivers, contacts, owners);
    if !Distinct(owners) {
      var i, j :| 0 <= i < j < |owners| && owners[i] == owners[j];
      ClashIffSameOwner(receivers, contacts, owners, i, j);
    }
    if exists i, j | 0 <= i < j < |contacts| :: Clash(receivers, contacts[i], contacts[j]) {
      var i, j :| 0 <= i < j < |contacts| && Clash(receivers, contacts[i], contacts[j]);
      ClashIffSameOwner(receivers, contacts, owners, i, j);
    }
  }

  lemma CreatedOwner(s: Tables, u: Upload, s': Tables, contacts: seq<string>, owners: seq<Id>, r: Id, k: nat)
    requires HaveContacts(u.instructions, contacts) && OwnedBy(s'.receivers, contacts, owners)
    requires r in s'.receivers && k < |u.instructions| && s'.receivers[r] == ReceiverFor(u.instructions[k])
    ensures r == owners[k]
  {
  }

  lemma OwnerOldOrCreated(s: Tables, u: Upload, s': Tables, contacts: seq<string>, owners: seq<Id>,
                          known: set<string>, i: nat)
    requires HaveContacts(u.instructions, contacts) && OwnedBy(s'.receivers, contacts, owners) && i < |owners|
             && Distinct(owners)
    requires Created(s.receivers, s.nextId, s'.receivers, s'.nextId, u.instructions, contacts, known, |u.instructions|)
    ensures owners[i] in s.receivers
         || (s.nextId <= owners[i] < s'.nextId && s'.receivers[owners[i]] == ReceiverFor(u.instructions[i]))
  {
  }

  /**
   Every instruction has its receiver, missing ones were created from their own instruction, and no other appeared.
   */
  lemma ReconciledIsUploaded(s: Tables, u: Upload, s': Tables, contacts: seq<string>, owners: seq<Id>,
                             known: set<string>)
    requires HaveContacts(u.instructions, contacts)
    requires Created(s.receivers, s.nextId, s'.receivers, s'.nextId, u.instructions, contacts, known, |u.instructions|)
    requires OwnedBy(s'.receivers, contacts, owners) && Distinct(owners)
    ensures ReceiversUploaded(s, u, s', owners, s'.nextId)
  {
    forall i | 0 <= i < |owners|
      ensures Contact(u.instructions[i]) == Some(contacts[i]) && Matches(contacts[i], s'.receivers[owners[i]])
      ensures owners[i] in s.receivers
           || (s.nextId <= owners[i] < s'.nextId && s'.receivers[owners[i]] == ReceiverFor(u.instructions[i]))
    {
      OwnerOldOrCreated(s, u, s', contacts, owners, known, i);
    }
    forall r | r in s'.receivers ensures r in s.receivers || r in owners {
      if r !in s.receivers {
        assert CreatedFromSome(s'.receivers[r], u.instructions, contacts, known, |u.instructions|);
        var k :| 0 <= k < |u.instructions| && s'.receivers[r] == ReceiverFor(u.instructions[k]);
        CreatedOwner(s, u, s', contacts, owners, r, k);
      }
    }
  }

  /** The owners that existed before are the ones the lookup map listed under their contact of the type. */
  ghost predicate ExistingByType(before: map<Id, Receiver>, contactType: ContactType, instructions: seq<Instruction>,
                                 owners: seq<Id>) {
    && |owners| == |instructions|
    && forall i | 0 <= i < |owners| && owners[i] in before ::
         Contact(instructions[i]) == Some(ContactByType(before[owners[i]], contactType))
  }

  lemma ExistingOwnersByType(s: Tables, u: Upload, s': Tables, contacts: seq<string>, owners: seq<Id>,
                             byContact: map<string, Id>, contactType: ContactType)
    requires HaveContacts(u.instructions, contacts) && OwnedBy(s'.receivers, contacts, owners)
    requires Created(s.receivers, s.nextId, s'.receivers, s'.nextId, u.instructions, contacts, byContact.Keys,
                     |u.instructions|)
    requires forall c | c in byContact ::
               byContact[c] in s.receivers && ContactByType(s.receivers[byContact[c]], contactType) == c
    ensures ExistingByType(s.receivers, contactType, u.instructions, owners)
  {
  }

  lemma NextMatched(instruction: Instruction, contact: string, before: map<Id, Receiver>, next: Id,
                    byContact: map<string, Id>,
                    existing: map<Id, Receiver>, after: map<Id, Receiver>)
    requires ReceiversConsistent(before) && next !in before && WellFormedContacts(instruction.phone, instruction.email)
    requires Contact(instruction) == Some(contact)
    requires forall r | r in existing :: r in before && before[r] == existing[r]
    requires contact in byContact ==> byContact[contact] in existing && Matches(contact, existing[byContact[contact]])
    requires after == if contact in byContact then before else before[next := ReceiverFor(instruction)]
    requires contact !in byContact ==> !ContactTaken(before, ReceiverFor(instruction))
    ensures ReceiversConsistent(after) && HasMatch(after, contact)
  {
    if contact in byContact {
      assert Matches(contact, after[byContact[contact]]);
    } else {
      InsertedReceiverConsistent(before, next, ReceiverFor(instruction));
      assert Matches(contact, after[next]);
    }
  }

  // ---------- receiver wallets ----------

  /** The wallet of receiver `r` for the provider after step 2: the one that was there, invited again, or a new one. */
  ghost predicate WalletOf(s: Tables, provider: Id, wallets: map<Id, Wallet>, next: Id, r: Id, w: Id) {
    && w in wallets && (w in s.wallets || s.nextId <= w < next)
    && WalletBefore(s, w, r, provider).receiver == r && WalletBefore(s, w, r, provider).provider == provider
    && wallets[w] == Reinvited(WalletBefore(s, w, r, provider))
  }

  /** Wallets that do not belong to the upload's receivers stay, and none appears but theirs. */
  ghost predicate OthersKept(s: Tables, wallets: map<Id, Wallet>, walletOf: map<Id, Id>) {
    && (forall w | w in s.wallets :: w in wallets
          && ((s.wallets[w].receiver in walletOf && walletOf[s.wallets[w].receiver] == w)
              || wallets[w] == s.wallets[w]))
    && (forall w | w in wallets ::
          w in s.wallets || (wallets[w].receiver in walletOf && walletOf[wallets[w].receiver] == w))
  }

  ghost predicate Untouched(s: Tables, provider: Id, wallets: map<Id, Wallet>, r: Id, w: Id) {
    && w in s.wallets && w in wallets && wallets[w] == s.wallets[w]
    && wallets[w].receiver == r && wallets[w].provider == provider
  }

  /** Step 2 half done: the receivers in `todo` are still to be handled. */
  ghost predicate WalletProgress(s: Tables, provider: Id, receivers: set<Id>, todo: set<Id>,
                                 wallets: map<Id, Wallet>, next: Id, walletOf: map<Id, Id>)
  {
    && s.nextId <= next && (forall w | w in wallets :: w < next)
    && (forall r | r in walletOf :: r in receivers)
    && (forall r | r in receivers && r !in todo ::
          r in walletOf && WalletOf(s, provider, wallets, next, r, walletOf[r]))
    && (forall r | r in walletOf && r in todo :: Untouched(s, provider, wallets, r, walletOf[r]))
    && (forall w | w in wallets && wallets[w].receiver in receivers && wallets[w].provider == provider ::
          wallets[w].receiver in walletOf && walletOf[wallets[w].receiver] == w)
  }

  lemma InsertedOthersKept(s: Tables, wallets: map<Id, Wallet>, walletOf: map<Id, Id>, next: Id, w: Wallet)
    requires OthersKept(s, wallets, walletOf) && w.receiver !in walletOf && next !in wallets
    ensures OthersKept(s, wallets[next := w], walletOf[w.receiver := next])
  {
  }

  lemma ReinvitedOthersKept(s: Tables, wallets: map<Id, Wallet>, walletOf: map<Id, Id>, r: Id)
    requires OthersKept(s, wallets, walletOf) && r in walletOf && walletOf[r] in wallets && walletOf[r] in s.wallets
    requires s.wallets[walletOf[r]].receiver == r && wallets[walletOf[r]].receiver == r
    ensures OthersKept(s, wallets[walletOf[r] := Reinvited(wallets[walletOf[r]])], walletOf)
  {
  }

  lemma InsertedWalletProgress(s: Tables, provider: Id, receivers: set<Id>, todo: set<Id>,
                               wallets: map<Id, Wallet>, next: Id, walletOf: map<Id, Id>, r: Id)
    requires WalletProgress(s, provider, receivers, todo, wallets, next, walletOf)
    requires r in todo && r in receivers && r !in walletOf && next !in s.wallets
    ensures WalletProgress(s, provider, receivers, todo - {r}, wallets[next := NewWallet(r, provider, s.now)], next + 1,
                           walletOf[r := next])
  {
    var wallets', walletOf' := wallets[next := NewWallet(r, provider, s.now)], walletOf[r := next];
    forall q | q in receivers && q !in todo - {r}
      ensures q in walletOf' && WalletOf(s, provider, wallets', next + 1, q, walletOf'[q])
    {
      if q != r { assert WalletOf(s, provider, wallets, next, q, walletOf[q]); }
    }
  }

  lemma ReinvitedWalletProgress(s: Tables, provider: Id, receivers: set<Id>, todo: set<Id>,
                                wallets: map<Id, Wallet>, next: Id, walletOf: map<Id, Id>, r: Id)
    requires WalletProgress(s, provider, receivers, todo, wallets, next, walletOf)
    requires r in todo && r in walletOf
    ensures walletOf[r] in wallets
    ensures WalletProgress(s, provider, receivers, todo - {r},
                           wallets[walletOf[r] := Reinvited(wallets[walletOf[r]])], next, walletOf)
  {
    assert Untouched(s, provider, wallets, r, walletOf[r]);
    var wallets' := wallets[walletOf[r] := Reinvited(wallets[walletOf[r]])];
    forall q | q in receivers && q !in todo - {r}
      ensures q in walletOf && WalletOf(s, provider, wallets', next, q, walletOf[q])
    {
      if q != r { assert WalletOf(s, provider, wallets, next, q, walletOf[q]); }
    }
  }

  // ---------- supplied wallets ----------

  lemma OwnerHasWallet(receivers: map<Id, Receiver>, instructions: seq<Instruction>, owners: seq<Id>, i: nat)
    requires Bijection(receivers, instructions, owners) && i < |owners|
    ensures owners[i] in receivers
  {
  }

  /** What step 3 makes of a loaded wallet: nothing when it is REGISTERED or FLAGGED, otherwise a registration. */
  function Supplied(w: Wallet, i: Instruction, now: int): Wallet {
    if w.status in {RegisteredWallet, FlaggedWallet} then w else UpdatedWallet(w, SuppliedUpdate(i), now)
  }

  /** The address the registration would store belongs to another receiver's wallet. */
  predicate Collides(wallets: map<Id, Wallet>, w: Wallet, i: Instruction) {
    && !StoredAddress(w, SuppliedUpdate(i)).NoAddress?
    && AddressTaken(wallets, w.receiver, StoredAddress(w, SuppliedUpdate(i)))
  }

  /** The wallets of the first i instructions are registered, the others are as loaded. */
  ghost predicate Registering(loaded: map<Id, Wallet>, wallets: map<Id, Wallet>, instructions: seq<Instruction>,
                              walletIds: seq<Id>, now: int, i: nat)
    requires |walletIds| == |instructions|
  {
    && wallets.Keys == loaded.Keys
    && (forall j | 0 <= j < |walletIds| :: walletIds[j] in loaded
          && (j < i ==> Registrable(loaded[walletIds[j]], instructions[j]))
          && wallets[walletIds[j]] == if j < i then Supplied(loaded[walletIds[j]], instructions[j], now)
             else loaded[walletIds[j]])
    && (forall w | w in loaded :: w in walletIds || wallets[w] == loaded[w])
  }

  lemma RegisteringStep(loaded: map<Id, Wallet>, wallets: map<Id, Wallet>, instructions: seq<Instruction>,
                        walletIds: seq<Id>, now: int, i: nat)
    requires |walletIds| == |instructions| && i < |instructions| && Distinct(walletIds)
    requires Registering(loaded, wallets, instructions, walletIds, now, i)
    requires Registrable(loaded[walletIds[i]], instructions[i])
    ensures Registering(loaded, wallets[walletIds[i] := Supplied(loaded[walletIds[i]], instructions[i], now)],
                        instructions, walletIds, now, i + 1)
  {
  }

  // ---------- verifications ----------

  /** The receivers outside `todo` have the verification their instruction asks for; every other key is as before. */
  ghost predicate Verifying(before: map<(Id, Field), Verification>, after: map<(Id, Field), Verification>,
                            instructions: seq<Instruction>, owners: seq<Id>, field: Field, todo: set<Id>)
    requires |owners| == |instructions|
  {
    && (forall i | 0 <= i < |owners| && owners[i] !in todo ::
          var expected := UploadedVerification(VerificationAt(before, owners[i], field), instructions[i].idNo);
          expected.Some? && VerificationAt(after, owners[i], field) == expected)
    && (forall r | r in todo :: VerificationAt(after, r, field) == VerificationAt(before, r, field))
    && (forall k | k in before :: k in after && ((k.0 in owners && k.1 == field) || after[k] == before[k]))
    && (forall k | k in after :: k in before || (k.0 in owners && k.1 == field))
  }

  /** Instructions by contact: each contact leads to an instruction that has it, and none is missing. */
  ghost predicate IndexOf(byContact: map<string, Instruction>, instructions: seq<Instruction>) {
    && (forall contact | contact in byContact ::
          exists i | 0 <= i < |instructions| :: byContact[contact] == instructions[i]
            && Contact(instructions[i]) == Some(contact))
    && (forall i | 0 <= i < |instructions| ::
          Contact(instructions[i]).Some? && Contact(instructions[i]).value in byContact)
  }

  lemma IndexOfOwner(receivers: map<Id, Receiver>, instructions: seq<Instruction>, owners: seq<Id>,
                     r: Id) returns (j: nat)
    requires Bijection(receivers, instructions, owners) && r in receivers
    ensures j < |owners| && owners[j] == r
  {
    assert r in Elements(owners);
    j :| 0 <= j < |owners| && owners[j] == r;
  }

  lemma ContactLeadsToOwn(byContact: map<string, Instruction>, receivers: map<Id, Receiver>,
                          instructions: seq<Instruction>,
                          owners: seq<Id>, j: nat, contact: string)
    requires Bijection(receivers, instructions, owners) && IndexOf(byContact, instructions)
    requires j < |owners| && owners[j] in receivers && Matches(contact, receivers[owners[j]]) && contact in byContact
    ensures byContact[contact] == instructions[j] && Contact(instructions[j]) == Some(contact)
  {
    var k :| 0 <= k < |instructions| && byContact[contact] == instructions[k]
      && Contact(instructions[k]) == Some(contact);
    assert owners[j] == owners[k];
  }

  ghost predicate ByTypeOutside(receivers: map<Id, Receiver>, contactType: ContactType, instructions: seq<Instruction>,
                                owners: seq<Id>, todo: set<Id>)
  {
    && |owners| == |instructions|
    && forall i | 0 <= i < |owners| && owners[i] in receivers && owners[i] !in todo ::
         Contact(instructions[i]) == Some(ContactByType(receivers[owners[i]], contactType))
  }

  lemma OutsideStep(receivers: map<Id, Receiver>, contactType: ContactType, instructions: seq<Instruction>,
                    owners: seq<Id>, todo: set<Id>, j: nat)
    requires ByTypeOutside(receivers, contactType, instructions, owners, todo) && j < |owners| && Distinct(owners)
    requires owners[j] in receivers ==>
               Contact(instructions[j]) == Some(ContactByType(receivers[owners[j]], contactType))
    ensures ByTypeOutside(receivers, contactType, instructions, owners, todo - {owners[j]})
  {
  }

  /** No verification has to be inserted blank, and no confirmed one contradicts its instruction. */
  ghost predicate VerificationsPossible(before: map<(Id, Field), Verification>, instructions: seq<Instruction>,
                                        owners: seq<Id>, field: Field)
  {
    && |owners| == |instructions|
    && forall i | 0 <= i < |owners| ::
         UploadedVerification(VerificationAt(before, owners[i], field), instructions[i].idNo).Some?
  }

  lemma AllVerified(before: map<(Id, Field), Verification>, after: map<(Id, Field), Verification>,
                    instructions: seq<Instruction>, owners: seq<Id>, field: Field)
    requires |owners| == |instructions| && Verifying(before, after, instructions, owners, field, {})
    ensures VerificationsPossible(before, instructions, owners, field)
  {
  }

  lemma VerifyingStep(before: map<(Id, Field), Verification>, after: map<(Id, Field), Verification>,
                      instructions: seq<Instruction>, owners: seq<Id>, field: Field, todo: set<Id>, j: nat,
                      v: Verification)
    requires |owners| == |instructions| && j < |owners| && Distinct(owners) && owners[j] in todo
    requires Verifying(before, after, instructions, owners, field, todo)
    requires UploadedVerification(VerificationAt(after, owners[j], field), instructions[j].idNo) == Some(v)
    ensures Verifying(before, after[(owners[j], field) := v], instructions, owners, field, todo - {owners[j]})
  {
    var after' := after[(owners[j], field) := v];
    forall i | 0 <= i < |owners| && owners[i] !in todo - {owners[j]}
      ensures UploadedVerification(VerificationAt(before, owners[i], field), instructions[i].idNo).Some?
      ensures VerificationAt(after', owners[i], field)
           == UploadedVerification(VerificationAt(before, owners[i], field), instructions[i].idNo)
    {
      if i != j { assert owners[i] != owners[j]; }
    }
  }

  // ---------- the whole upload ----------

  ghost function WalletIds(owners: seq<Id>, walletOf: map<Id, Id>): (ids: seq<Id>)
    requires forall i | 0 <= i < |owners| :: owners[i] in walletOf
  {
    seq(|owners|, i requires 0 <= i < |owners| => walletOf[owners[i]])
  }

  /** Step 2 gave each owner its wallet; different owners have different ones. */
  ghost predicate OwnWallets(s: Tables, provider: Id, wallets: map<Id, Wallet>, next: Id, owners: seq<Id>,
                             walletIds: seq<Id>) {
    && |walletIds| == |owners|
    && forall i | 0 <= i < |owners| :: WalletOf(s, provider, wallets, next, owners[i], walletIds[i])
  }

  lemma WalletIdsDistinct(s: Tables, provider: Id, wallets: map<Id, Wallet>, next: Id, owners: seq<Id>,
                          walletIds: seq<Id>)
    requires OwnWallets(s, provider, wallets, next, owners, walletIds) && Distinct(owners)
    ensures Distinct(walletIds)
    ensures forall i | 0 <= i < |walletIds| :: walletIds[i] in wallets
  {
  }

  lemma OwnersHaveWallets(s: Tables, provider: Id, wallets: map<Id, Wallet>, next: Id, receivers: map<Id, Receiver>,
                          walletOf: map<Id, Id>, owners: seq<Id>)
    requires walletOf.Keys == receivers.Keys == Elements(owners)
    requires forall r | r in receivers.Keys :: WalletOf(s, provider, wallets, next, r, walletOf[r])
    ensures forall i | 0 <= i < |owners| :: owners[i] in walletOf
    ensures OwnWallets(s, provider, wallets, next, owners, WalletIds(owners, walletOf))
    ensures OwnersWallets(walletOf, owners, WalletIds(owners, walletOf))
  {
  }

  /** Only the wallets of the upload differ between `s` and `wallets`. */
  ghost predicate OnlyThese(s: Tables, wallets: map<Id, Wallet>, walletIds: seq<Id>) {
    && (forall w | w in s.wallets :: w in wallets && (w in walletIds || wallets[w] == s.wallets[w]))
    && (forall w | w in wallets :: w in s.wallets || w in walletIds)
  }

  lemma OthersAreKept(s: Tables, wallets: map<Id, Wallet>, walletOf: map<Id, Id>, owners: seq<Id>)
    requires OthersKept(s, wallets, walletOf) && Elements(owners) == walletOf.Keys
    requires forall i | 0 <= i < |owners| :: owners[i] in walletOf
    ensures OnlyThese(s, wallets, WalletIds(owners, walletOf))
  {
    var walletIds := WalletIds(owners, walletOf);
    forall r | r in walletOf ensures walletOf[r] in walletIds {
      assert r in Elements(owners);
      var i :| 0 <= i < |owners| && owners[i] == r;
      assert walletIds[i] == walletOf[r];
    }
  }

  /** Step 3 on the wallets, whichever branch it takes. */
  ghost predicate WalletsAfterStep3(row: Disbursement, loaded: map<Id, Wallet>, wallets: map<Id, Wallet>,
                                    instructions: seq<Instruction>, walletIds: seq<Id>, now: int)
    requires |walletIds| == |instructions|
  {
    if row.includesWalletAddress then Registering(loaded, wallets, instructions, walletIds, now, |instructions|)
    else wallets == loaded
  }

  lemma WalletsAreUploaded(s: Tables, u: Upload, row: Disbursement, s1: Tables, loaded: map<Id, Wallet>, next: Id,
                           s': Tables,
                           owners: seq<Id>, walletIds: seq<Id>, first: Id)
    requires s1.wallets == s.wallets && s1.now == s.now && s.nextId <= s1.nextId && next <= first
    requires |owners| == |u.instructions| && OwnWallets(s1, row.provider, loaded, next, owners, walletIds)
    requires OnlyThese(s1, loaded, walletIds)
    requires WalletsAfterStep3(row, loaded, s'.wallets, u.instructions, walletIds, s.now)
    ensures WalletsUploaded(s, u, row, s', owners, walletIds, first)
  {
    forall i | 0 <= i < |walletIds|
      ensures var before := WalletBefore(s, walletIds[i], owners[i], row.provider);
        && (walletIds[i] in s.wallets || s.nextId <= walletIds[i] < first)
        && before.receiver == owners[i] && before.provider == row.provider
        && (row.includesWalletAddress ==> Registrable(before, u.instructions[i]))
        && walletIds[i] in s'.wallets
        && s'.wallets[walletIds[i]] == UploadedWallet(before, row.includesWalletAddress, u.instructions[i], s.now)
    {
      assert WalletOf(s1, row.provider, loaded, next, owners[i], walletIds[i]);
      assert WalletBefore(s1, walletIds[i], owners[i], row.provider)
             == WalletBefore(s, walletIds[i], owners[i], row.provider);
    }
  }

  /** Ids of stored rows come from the counter, and wallets and verifications belong to receivers. */
  ghost predicate KeysInPlace(s: Tables) {
    && (forall id | id in s.payments :: id < s.nextId)
    && (forall w | w in s.wallets :: w < s.nextId && s.wallets[w].receiver in s.receivers)
    && (forall r | r in s.receivers :: r < s.nextId)
    && (forall k | k in s.verifications :: k.0 in s.receivers)
  }

  lemma VerifiedIsUploaded(s: Tables, u: Upload, row: Disbursement, s': Tables, owners: seq<Id>)
    requires !row.includesWalletAddress && row.verificationField.Some? && |owners| == |u.instructions|
    requires Verifying(s.verifications, s'.verifications, u.instructions, owners, row.verificationField.value, {})
    ensures VerificationsUploaded(s, u, row, s', owners)
  {
  }

  /** Every receiver's contact of the type is the contact of its instruction. */
  ghost predicate AllByType(receivers: map<Id, Receiver>, contactType: ContactType, instructions: seq<Instruction>,
                            owners: seq<Id>) {
    && |owners| == |instructions|
    && forall i | 0 <= i < |owners| && owners[i] in receivers ::
         Contact(instructions[i]) == Some(ContactByType(receivers[owners[i]], contactType))
  }

  ghost predicate OwnersWallets(walletOf: map<Id, Id>, owners: seq<Id>, walletIds: seq<Id>) {
    && |walletIds| == |owners|
    && forall i | 0 <= i < |owners| :: owners[i] in walletOf && walletIds[i] == walletOf[owners[i]]
  }

  /** The file and the status are written one after the other. */
  lemma FileThenStatus(ds: map<Id, Disbursement>, d: Id, file: File, now: int)
    requires d in ds
    ensures MoveDisbursements(ds[d := ds[d].(file := Some(file))], {d}, ReadyDisbursement, now)
         == ds[d := ds[d].(status := ReadyDisbursement, history := ds[d].history + [Entry(ReadyDisbursement, now)],
                           file := Some(file))]
  {
  }

  /** Steps 1 to 3 done: receivers, wallets and verifications are as the upload leaves them. */
  ghost predicate Prepared(s: Tables, u: Upload, row: Disbursement, s': Tables, owners: seq<Id>, walletIds: seq<Id>) {
    && s.nextId <= s'.nextId
    && ReceiversUploaded(s, u, s', owners, s'.nextId)
    && FoundByType(s, u, row, s', owners)
    && WalletsUploaded(s, u, row, s', owners, walletIds, s'.nextId)
    && VerificationsUploaded(s, u, row, s', owners)
    && Consistent(s')
  }

  /** The pieces of the first three steps; each depends on its own tables only. */
  lemma StepsPrepare(s: Tables, u: Upload, row: Disbursement, s1: Tables, s3: Tables, owners: seq<Id>,
                     walletIds: seq<Id>)
    requires ReceiversUploaded(s, u, s1, owners, s1.nextId)
    requires ExistingByType(s.receivers, row.contactType, u.instructions, owners)
    requires Verifies(row) ==> AllByType(s1.receivers, row.contactType, u.instructions, owners)
    requires WalletsUploaded(s, u, row, s3, owners, walletIds, s3.nextId)
    requires VerificationsUploaded(s, u, row, s3, owners)
    requires s.nextId <= s1.nextId <= s3.nextId && s3.receivers == s1.receivers && Consistent(s3)
    ensures Prepared(s, u, row, s3, owners, walletIds)
  {
    assert ReceiversUploaded(s, u, s3, owners, s3.nextId);
    assert FoundByType(s, u, row, s3, owners);
  }

  lemma UploadAssembled(s: Tables, u: Upload, row: Disbursement, s3: Tables, s': Tables, owners: seq<Id>,
                        walletIds: seq<Id>)
    requires u.disbursement in s.disbursements && row == s.disbursements[u.disbursement]
    requires Accepted(u) && Prepared(s, u, row, s3, owners, walletIds)
    requires PaymentsUploaded(s, u, row, s', owners, walletIds, s3.nextId)
    requires s'.receivers == s3.receivers && s'.wallets == s3.wallets && s'.verifications == s3.verifications
    ensures Uploaded(s, u, s')
  {
    assert UploadedTo(s, u, s', owners, walletIds, s3.nextId);
  }
}
