/**
 When an upload goes through, told from the tables and the file before anything is written: which receivers are found,
 which contacts are free, which wallets can be registered and which values can be verified.
 */
module Criteria {
  import opened Statuses
  import opened Tables
  import opened Lifecycle
  import opened Matching
  import opened Feasibility

  // ---------- the criterion ----------

  /** The stored receiver whose contact of the type is the instruction's contact. */
  ghost function HolderOf(receivers: map<Id, Receiver>, contactType: ContactType, i: Instruction): (holder: Option<Id>)
    ensures holder.Some? ==> Holds(receivers, contactType, i, holder.value)
    ensures holder.None? ==> forall r | r in receivers :: !Holds(receivers, contactType, i, r)
  {
    if r :| Holds(receivers, contactType, i, r) then Some(r) else None
  }

  predicate Holds(receivers: map<Id, Receiver>, contactType: ContactType, i: Instruction, r: Id) {
    r in receivers && Contact(i) == Some(ContactByType(receivers[r], contactType))
  }

  /** Each instruction has one contact, no two share it up to letter case, and it leads to a receiver or is free. */
  ghost predicate ReceiversResolve(receivers: map<Id, Receiver>, contactType: ContactType,
                                   instructions: seq<Instruction>) {
    && (forall i | 0 <= i < |instructions| :: Contact(instructions[i]).Some?)
    && (forall i, j | 0 <= i < j < |instructions| ::
          Lower(Contact(instructions[i]).value) != Lower(Contact(instructions[j]).value))
    && (forall i | 0 <= i < |instructions| ::
          HolderOf(receivers, contactType, instructions[i]).Some?
            || !ContactTaken(receivers, ReceiverFor(instructions[i])))
  }

  predicate Uses(s: Tables, row: Disbursement, i: Instruction, w: Id) {
    w in s.wallets && s.wallets[w].provider == row.provider
      && Holds(s.receivers, row.contactType, i, s.wallets[w].receiver)
  }

  /** The wallet that the instruction's receiver has for the provider, or the one that it will be given. */
  ghost function WalletFor(s: Tables, row: Disbursement, i: Instruction): Wallet {
    if w :| Uses(s, row, i, w) then s.wallets[w] else NewWallet(s.nextId, row.provider, s.now)
  }

  /** The address the instruction's wallet ends with. */
  ghost function EndAddress(s: Tables, row: Disbursement, i: Instruction): Address {
    Supplied(WalletFor(s, row, i), i, s.now).address
  }

  /** Each wallet can take what its instruction supplies, and the addresses end up with one receiver each. */
  ghost predicate WalletsRegister(s: Tables, row: Disbursement, instructions: seq<Instruction>) {
    && (forall i | 0 <= i < |instructions| :: Registrable(WalletFor(s, row, instructions[i]), instructions[i]))
    && (forall i, w | 0 <= i < |instructions| && w in s.wallets ::
          s.wallets[w].address == EndAddress(s, row, instructions[i]) != NoAddress ==>
            Holds(s.receivers, row.contactType, instructions[i], s.wallets[w].receiver))
    && (forall i, j | 0 <= i < j < |instructions| ::
          EndAddress(s, row, instructions[i]) == EndAddress(s, row, instructions[j]) ==>
            EndAddress(s, row, instructions[i]) == NoAddress)
  }

  /**
   A stored value agrees or is not confirmed; a missing one is not blank and its receiver has a contact of the type.
   */
  ghost predicate Verifiable(s: Tables, row: Disbursement, i: Instruction)
    requires Verifies(row)
  {
    match HolderOf(s.receivers, row.contactType, i)
    case Some(r) => UploadedVerification(VerificationAt(s.verifications, r, row.verificationField.value), i.idNo).Some?
    case None => !Blank(i.idNo) && Contact(i) == Some(ContactByType(ReceiverFor(i), row.contactType))
  }

  /** The third step can be done. */
  ghost predicate ThirdStep(s: Tables, row: Disbursement, instructions: seq<Instruction>) {
    && (row.includesWalletAddress ==> WalletsRegister(s, row, instructions))
    && (Verifies(row) ==> forall i | 0 <= i < |instructions| :: Verifiable(s, row, instructions[i]))
  }

  ghost predicate GoesThrough(s: Tables, u: Upload) {
    && PaymentsPossible(s, u)
    && var row := s.disbursements[u.disbursement];
       ReceiversResolve(s.receivers, row.contactType, u.instructions) && ThirdStep(s, row, u.instructions)
  }

  // ---------- receivers ----------

  lemma LowerKeepsAt(s: string)
    ensures '@' in s <==> '@' in Lower(s)
  {
    if '@' in s {
      var k :| 0 <= k < |s| && s[k] == '@';
      assert Lower(s)[k] == '@';
    }
    if '@' in Lower(s) {
      var k :| 0 <= k < |s| && Lower(s)[k] == '@';
      assert s[k] == '@';
    }
  }

  /** Different receivers are reached by contacts that differ in more than letter case. */
  lemma ContactsApart(receivers: map<Id, Receiver>, q: Id, r: Id, c: string, d: string)
    requires ReceiversConsistent(receivers) && q in receivers && r in receivers && q != r && c != "" && d != ""
    requires Matches(c, receivers[q]) && Matches(d, receivers[r])
    ensures Lower(c) != Lower(d)
  {
    LowerKeepsAt(c);
    LowerKeepsAt(d);
  }

  lemma PlannedResolves(before: map<Id, Receiver>, instructions: seq<Instruction>, contactType: ContactType,
                        after: map<Id, Receiver>, owners: seq<Id>)
    requires Planned(before, instructions, contactType, after, owners)
    ensures ReceiversResolve(before, contactType, instructions)
  {
    forall i | 0 <= i < |instructions|
      ensures Contact(instructions[i]).Some? && Matches(Contact(instructions[i]).value, after[owners[i]])
      ensures HolderOf(before, contactType, instructions[i]).Some?
              || !ContactTaken(before, ReceiverFor(instructions[i]))
    {
      assert PlannedOwner(before, instructions[i], contactType, after, owners[i]);
      if owners[i] in before {
        assert Holds(before, contactType, instructions[i], owners[i]);
      } else {
        NotTaken(after, owners[i], ReceiverFor(instructions[i]), before);
      }
    }
    forall i, j | 0 <= i < j < |instructions|
      ensures Lower(Contact(instructions[i]).value) != Lower(Contact(instructions[j]).value)
    {
      assert PlannedOwner(before, instructions[i], contactType, after, owners[i]);
      assert PlannedOwner(before, instructions[j], contactType, after, owners[j]);
      ContactsApart(after, owners[i], owners[j], Contact(instructions[i]).value, Contact(instructions[j]).value);
    }
  }

  /** The stored receivers with those of the unknown contacts, numbered like their instructions from `first` on. */
  ghost function WithMissing(before: map<Id, Receiver>, instructions: seq<Instruction>, contactType: ContactType,
                             first: Id): map<Id, Receiver> {
    var made := Numbered(first,
                         seq(|instructions|, i requires 0 <= i < |instructions| => ReceiverFor(instructions[i])));
    before + map id | id in made && HolderOf(before, contactType, instructions[id - first]).None? :: made[id]
  }

  ghost function Chosen(before: map<Id, Receiver>, instructions: seq<Instruction>, contactType: ContactType,
                        first: Id): seq<Id> {
    seq(|instructions|, i requires 0 <= i < |instructions| =>
      var holder := HolderOf(before, contactType, instructions[i]);
      if holder.Some? then holder.value else first + i)
  }

  /** The contacts of receivers made from two instructions, or from an instruction and a stored one, stay apart. */
  lemma MadeApart(i: Instruction, j: Instruction)
    requires Contact(i).Some? && Contact(j).Some? && Lower(Contact(i).value) != Lower(Contact(j).value)
    ensures i.phone != "" ==> Lower(i.phone) != Lower(j.phone)
    ensures i.email != "" ==> Lower(i.email) != Lower(j.email)
  {
  }

  /** A row of the extended table: a stored receiver, or the one made for an instruction that found none. */
  ghost predicate OldOrMade(before: map<Id, Receiver>, instructions: seq<Instruction>, contactType: ContactType,
                            first: Id, id: Id, r: Receiver) {
    if id in before then r == before[id]
    else
      && first <= id < first + |instructions| && r == ReceiverFor(instructions[id - first])
      && HolderOf(before, contactType, instructions[id - first]).None?
  }

  lemma MissingRow(before: map<Id, Receiver>, instructions: seq<Instruction>, contactType: ContactType, first: Id,
                   id: Id)
    requires forall r | r in before :: r < first
    requires id in WithMissing(before, instructions, contactType, first)
    ensures OldOrMade(before, instructions, contactType, first, id,
                      WithMissing(before, instructions, contactType, first)[id])
  {
  }

  /** Equal up to letter case, and not both empty. */
  predicate SharesContact(q: Receiver, r: Receiver) {
    || ((q.phone != "" || r.phone != "") && Lower(q.phone) == Lower(r.phone))
    || ((q.email != "" || r.email != "") && Lower(q.email) == Lower(r.email))
  }

  lemma MissingApart(before: map<Id, Receiver>, instructions: seq<Instruction>, contactType: ContactType, first: Id,
                     id: Id, q: Receiver, id': Id, r: Receiver)
    requires ReceiversConsistent(before) && ReceiversResolve(before, contactType, instructions)
    requires (forall p | p in before :: p < first) && id < id'
    requires OldOrMade(before, instructions, contactType, first, id, q)
    requires OldOrMade(before, instructions, contactType, first, id', r)
    ensures !SharesContact(q, r)
  {
    if id in before && id' !in before {
      assert !ContactTaken(before, r);
      assert Lower(q.phone) == "" <==> q.phone == "";
    } else if id !in before {
      MadeApart(instructions[id - first], instructions[id' - first]);
      MadeApart(instructions[id' - first], instructions[id - first]);
    }
  }

  lemma MissingConsistent(before: map<Id, Receiver>, instructions: seq<Instruction>, contactType: ContactType,
                          first: Id)
    requires ReceiversConsistent(before) && ReceiversResolve(before, contactType, instructions)
    requires forall r | r in before :: r < first
    requires forall i | 0 <= i < |instructions| :: WellFormedContacts(instructions[i].phone, instructions[i].email)
    ensures ReceiversConsistent(WithMissing(before, instructions, contactType, first))
  {
    var after := WithMissing(before, instructions, contactType, first);
    forall r | r in after
      ensures WellFormedContacts(after[r].phone, after[r].email) && (after[r].phone != "" || after[r].email != "")
    {
      MissingRow(before, instructions, contactType, first, r);
    }
    forall q, r | q in after && r in after && q < r ensures !SharesContact(after[q], after[r]) {
      MissingRow(before, instructions, contactType, first, q);
      MissingRow(before, instructions, contactType, first, r);
      MissingApart(before, instructions, contactType, first, q, after[q], r, after[r]);
    }
    ApartConsistent(after);
  }

  lemma ApartConsistent(receivers: map<Id, Receiver>)
    requires forall r | r in receivers ::
               WellFormedContacts(receivers[r].phone, receivers[r].email)
                 && (receivers[r].phone != "" || receivers[r].email != "")
    requires forall q, r | q in receivers && r in receivers && q < r :: !SharesContact(receivers[q], receivers[r])
    ensures ReceiversConsistent(receivers)
  {
  }

  lemma ChosenOwner(before: map<Id, Receiver>, instructions: seq<Instruction>, contactType: ContactType, first: Id,
                    i: nat)
    requires i < |instructions| && Contact(instructions[i]).Some? && forall r | r in before :: r < first
    ensures PlannedOwner(before, instructions[i], contactType, WithMissing(before, instructions, contactType, first),
                         Chosen(before, instructions, contactType, first)[i])
  {
  }

  lemma ChosenDistinct(before: map<Id, Receiver>, instructions: seq<Instruction>, contactType: ContactType, first: Id)
    requires ReceiversResolve(before, contactType, instructions) && forall r | r in before :: r < first
    ensures Distinct(Chosen(before, instructions, contactType, first))
  {
  }

  lemma ResolvesPlanned(before: map<Id, Receiver>, instructions: seq<Instruction>, contactType: ContactType, first: Id)
    requires ReceiversConsistent(before) && ReceiversResolve(before, contactType, instructions)
    requires forall r | r in before :: r < first
    requires forall i | 0 <= i < |instructions| :: WellFormedContacts(instructions[i].phone, instructions[i].email)
    ensures Planned(before, instructions, contactType, WithMissing(before, instructions, contactType, first),
                    Chosen(before, instructions, contactType, first))
  {
    MissingConsistent(before, instructions, contactType, first);
    var after, owners := WithMissing(before, instructions, contactType, first),
      Chosen(before, instructions, contactType, first);
    forall i | 0 <= i < |owners| ensures PlannedOwner(before, instructions[i], contactType, after, owners[i]) {
      ChosenOwner(before, instructions, contactType, first, i);
    }
    ChosenDistinct(before, instructions, contactType, first);
  }

  /** Some set of receivers can serve the instructions exactly when each contact resolves and no two of them clash. */
  lemma PlannableIffResolves(before: map<Id, Receiver>, instructions: seq<Instruction>, contactType: ContactType,
                             first: Id)
    requires ReceiversConsistent(before) && forall r | r in before :: r < first
    requires forall i | 0 <= i < |instructions| :: WellFormedContacts(instructions[i].phone, instructions[i].email)
    ensures Plannable(before, instructions, contactType) <==> ReceiversResolve(before, contactType, instructions)
  {
    if Plannable(before, instructions, contactType) {
      var after, owners :| Planned(before, instructions, contactType, after, owners);
      PlannedResolves(before, instructions, contactType, after, owners);
    }
    if ReceiversResolve(before, contactType, instructions) {
      ResolvesPlanned(before, instructions, contactType, first);
    }
  }

  /** The owner in any plan is the holder, when there is one. */
  lemma HolderIsOwner(before: map<Id, Receiver>, instructions: seq<Instruction>, contactType: ContactType,
                      after: map<Id, Receiver>, owners: seq<Id>, i: nat, r: Id)
    requires Planned(before, instructions, contactType, after, owners) && i < |instructions|
    ensures Holds(before, contactType, instructions[i], r) <==> r in before && r == owners[i]
  {
    assert PlannedOwner(before, instructions[i], contactType, after, owners[i]);
    if Holds(before, contactType, instructions[i], r) {
      MatchIsUnique(after, Contact(instructions[i]).value, r, owners[i]);
    }
  }

  // ---------- verifications ----------

  lemma VerifiableIff(s: Tables, row: Disbursement, instructions: seq<Instruction>, after: map<Id, Receiver>,
                      owners: seq<Id>)
    requires Verifies(row) && Planned(s.receivers, instructions, row.contactType, after, owners)
    requires forall k | k in s.verifications :: k.0 in s.receivers
    ensures && AllByType(after, row.contactType, instructions, owners)
            && VerificationsPossible(s.verifications, instructions, owners, row.verificationField.value)
       <==> forall i | 0 <= i < |instructions| :: Verifiable(s, row, instructions[i])
  {
    var field := row.verificationField.value;
    forall i | 0 <= i < |instructions|
      ensures Verifiable(s, row, instructions[i]) <==>
              && Contact(instructions[i]) == Some(ContactByType(after[owners[i]], row.contactType))
              && UploadedVerification(VerificationAt(s.verifications, owners[i], field), instructions[i].idNo).Some?
    {
      assert PlannedOwner(s.receivers, instructions[i], row.contactType, after, owners[i]);
      var holder := HolderOf(s.receivers, row.contactType, instructions[i]);
      if holder.Some? {
        HolderIsOwner(s.receivers, instructions, row.contactType, after, owners, i, holder.value);
      } else {
        HolderIsOwner(s.receivers, instructions, row.contactType, after, owners, i, owners[i]);
      }
    }
  }

  // ---------- supplied wallets ----------

  /** The registrations fit together, seen from the wallets after the second step. */
  ghost predicate Fit(loaded: map<Id, Wallet>, instructions: seq<Instruction>, walletIds: seq<Id>, owners: seq<Id>,
                      now: int)
    requires |walletIds| == |owners| == |instructions|
    requires forall i | 0 <= i < |walletIds| :: walletIds[i] in loaded
  {
    && (forall i | 0 <= i < |walletIds| :: Registrable(loaded[walletIds[i]], instructions[i]))
    && (forall i, v | 0 <= i < |walletIds| && v in loaded ::
          loaded[v].address == Supplied(loaded[walletIds[i]], instructions[i], now).address != NoAddress ==>
            loaded[v].receiver == owners[i])
    && (forall i, j | 0 <= i < j < |walletIds| ::
          Supplied(loaded[walletIds[i]], instructions[i], now).address
            == Supplied(loaded[walletIds[j]], instructions[j], now).address ==>
            Supplied(loaded[walletIds[i]], instructions[i], now).address == NoAddress)
  }

  ghost predicate Owned(loaded: map<Id, Wallet>, walletIds: seq<Id>, owners: seq<Id>) {
    && |walletIds| == |owners| && Distinct(walletIds) && Distinct(owners)
    && forall i | 0 <= i < |walletIds| :: walletIds[i] in loaded && loaded[walletIds[i]].receiver == owners[i]
  }

  lemma RegistersFit(loaded: map<Id, Wallet>, final: map<Id, Wallet>, instructions: seq<Instruction>,
                     walletIds: seq<Id>,
                     owners: seq<Id>, now: int)
    requires Owned(loaded, walletIds, owners) && |walletIds| == |instructions| && WalletsConsistent(final)
    requires Registering(loaded, final, instructions, walletIds, now, |instructions|)
    ensures Fit(loaded, instructions, walletIds, owners, now)
  {
    NoneRegistered(loaded, instructions, walletIds, now);
    forall i | 0 <= i < |walletIds|
      ensures Registrable(loaded[walletIds[i]], instructions[i]) && final[walletIds[i]].receiver == owners[i]
      ensures final[walletIds[i]].address == Supplied(loaded[walletIds[i]], instructions[i], now).address
    {
      assert final[walletIds[i]] == Supplied(loaded[walletIds[i]], instructions[i], now);
    }
    forall v | v in loaded
      ensures v in final && final[v].receiver == loaded[v].receiver
      ensures loaded[v].address == NoAddress || loaded[v].address == final[v].address
    {
      AddressKept(loaded, loaded, final, instructions, walletIds, now, 0, v);
    }
  }

  lemma FitRegisters(loaded: map<Id, Wallet>, instructions: seq<Instruction>, walletIds: seq<Id>, owners: seq<Id>,
                     now: int)
    requires Owned(loaded, walletIds, owners) && |walletIds| == |instructions| && WalletsConsistent(loaded)
    requires Fit(loaded, instructions, walletIds, owners, now)
    ensures Registers(loaded, instructions, walletIds, now)
  {
    var final := WithRegistrations(loaded, instructions, walletIds, now, |walletIds|);
    FinalRegisters(loaded, instructions, walletIds, now, |walletIds|);
    FinalSameOwners(loaded, final, instructions, walletIds, now);
    forall v, w | v in final && w in final && v != w && final[v].address == final[w].address != NoAddress
      ensures final[v].receiver == final[w].receiver
    {
      FitPair(loaded, final, instructions, walletIds, owners, now, v, w);
    }
  }

  lemma FitPair(loaded: map<Id, Wallet>, final: map<Id, Wallet>, instructions: seq<Instruction>, walletIds: seq<Id>,
                owners: seq<Id>, now: int, v: Id, w: Id)
    requires Owned(loaded, walletIds, owners) && |walletIds| == |instructions| && WalletsConsistent(loaded)
    requires Fit(loaded, instructions, walletIds, owners, now)
    requires Registering(loaded, final, instructions, walletIds, now, |instructions|)
    requires v in final && w in final && v != w && final[v].address == final[w].address != NoAddress
    ensures final[v].receiver == final[w].receiver
  {
  }

  /** The second step has found or made exactly the wallet that the tables and the instruction determine. */
  lemma LoadedWallet(s: Tables, row: Disbursement, instructions: seq<Instruction>, s1: Tables, loaded: map<Id, Wallet>,
                     next: Id, owners: seq<Id>, walletIds: seq<Id>, i: nat)
    requires s1.wallets == s.wallets && s1.now == s.now && i < |instructions|
    requires Planned(s.receivers, instructions, row.contactType, s1.receivers, owners)
    requires OwnWallets(s1, row.provider, loaded, next, owners, walletIds) && OnlyThese(s1, loaded, walletIds)
    requires WalletsConsistent(loaded) && forall w | w in s.wallets :: s.wallets[w].receiver in s.receivers
    ensures walletIds[i] in loaded
    ensures loaded[walletIds[i]].address == WalletFor(s, row, instructions[i]).address
    ensures loaded[walletIds[i]].status == WalletFor(s, row, instructions[i]).status
  {
    assert WalletOf(s1, row.provider, loaded, next, owners[i], walletIds[i]);
    LoadedSameOwners(s1, row.provider, loaded, next, owners, walletIds);
    forall w | Uses(s, row, instructions[i], w) ensures w == walletIds[i] {
      HolderIsOwner(s.receivers, instructions, row.contactType, s1.receivers, owners, i, s.wallets[w].receiver);
    }
    if walletIds[i] in s.wallets {
      HolderIsOwner(s.receivers, instructions, row.contactType, s1.receivers, owners, i, owners[i]);
      assert Uses(s, row, instructions[i], walletIds[i]);
    }
  }

  lemma LoadedAddresses(s1: Tables, provider: Id, loaded: map<Id, Wallet>, next: Id, owners: seq<Id>,
                        walletIds: seq<Id>)
    requires OwnWallets(s1, provider, loaded, next, owners, walletIds) && OnlyThese(s1, loaded, walletIds)
    ensures forall w | w in s1.wallets :: w in loaded && loaded[w].address == s1.wallets[w].address
    ensures forall w | w in loaded && w !in s1.wallets :: loaded[w].address == NoAddress
  {
  }

  lemma FitClauses(s: Tables, row: Disbursement, instructions: seq<Instruction>, loaded: map<Id, Wallet>,
                   owners: seq<Id>, walletIds: seq<Id>)
    requires |walletIds| == |owners| == |instructions| && forall i | 0 <= i < |walletIds| :: walletIds[i] in loaded
    requires forall w | w in s.wallets :: w in loaded && loaded[w].address == s.wallets[w].address
    requires forall w | w in loaded && w !in s.wallets :: loaded[w].address == NoAddress
    requires forall i | 0 <= i < |instructions| ::
               Registrable(loaded[walletIds[i]], instructions[i]) <==>
                 Registrable(WalletFor(s, row, instructions[i]), instructions[i])
    requires forall i | 0 <= i < |instructions| ::
               Supplied(loaded[walletIds[i]], instructions[i], s.now).address == EndAddress(s, row, instructions[i])
    requires forall i, w | 0 <= i < |instructions| && w in s.wallets ::
               Holds(s.receivers, row.contactType, instructions[i], s.wallets[w].receiver) <==>
                 loaded[w].receiver == owners[i]
    ensures Fit(loaded, instructions, walletIds, owners, s.now) <==> WalletsRegister(s, row, instructions)
  {
  }

  lemma SameTerms(s: Tables, row: Disbursement, i: Instruction, w: Wallet)
    requires w.address == WalletFor(s, row, i).address && w.status == WalletFor(s, row, i).status
    ensures Registrable(w, i) <==> Registrable(WalletFor(s, row, i), i)
    ensures Supplied(w, i, s.now).address == EndAddress(s, row, i)
  {
  }

  lemma FitIff(s: Tables, row: Disbursement, instructions: seq<Instruction>, s1: Tables, loaded: map<Id, Wallet>,
               next: Id, owners: seq<Id>, walletIds: seq<Id>)
    requires s1.wallets == s.wallets && s1.now == s.now && |walletIds| == |instructions|
    requires Planned(s.receivers, instructions, row.contactType, s1.receivers, owners)
    requires OwnWallets(s1, row.provider, loaded, next, owners, walletIds) && OnlyThese(s1, loaded, walletIds)
    requires WalletsConsistent(loaded) && forall w | w in s.wallets :: s.wallets[w].receiver in s.receivers
    requires forall i | 0 <= i < |walletIds| :: walletIds[i] in loaded
    ensures Fit(loaded, instructions, walletIds, owners, s.now) <==> WalletsRegister(s, row, instructions)
  {
    LoadedSameOwners(s1, row.provider, loaded, next, owners, walletIds);
    LoadedAddresses(s1, row.provider, loaded, next, owners, walletIds);
    forall i | 0 <= i < |instructions|
      ensures Registrable(loaded[walletIds[i]], instructions[i]) <==>
              Registrable(WalletFor(s, row, instructions[i]), instructions[i])
      ensures Supplied(loaded[walletIds[i]], instructions[i], s.now).address == EndAddress(s, row, instructions[i])
    {
      LoadedWallet(s, row, instructions, s1, loaded, next, owners, walletIds, i);
      SameTerms(s, row, instructions[i], loaded[walletIds[i]]);
    }
    forall i, w | 0 <= i < |instructions| && w in s.wallets
      ensures Holds(s.receivers, row.contactType, instructions[i], s.wallets[w].receiver) <==>
              loaded[w].receiver == owners[i]
    {
      HolderIsOwner(s.receivers, instructions, row.contactType, s1.receivers, owners, i, s.wallets[w].receiver);
    }
    FitClauses(s, row, instructions, loaded, owners, walletIds);
  }

  /** The registrations of this run are possible exactly when the criterion on tables and file says so. */
  lemma RegistersIff(s: Tables, row: Disbursement, instructions: seq<Instruction>, s1: Tables, loaded: map<Id, Wallet>,
                     next: Id, owners: seq<Id>, walletIds: seq<Id>)
    requires s1.wallets == s.wallets && s1.now == s.now
    requires Planned(s.receivers, instructions, row.contactType, s1.receivers, owners)
    requires OwnWallets(s1, row.provider, loaded, next, owners, walletIds) && OnlyThese(s1, loaded, walletIds)
    requires WalletsConsistent(loaded) && forall w | w in s.wallets :: s.wallets[w].receiver in s.receivers
    ensures Registers(loaded, instructions, walletIds, s.now) <==> WalletsRegister(s, row, instructions)
  {
    WalletIdsDistinct(s1, row.provider, loaded, next, owners, walletIds);
    forall i | 0 <= i < |walletIds| ensures loaded[walletIds[i]].receiver == owners[i] {
      assert WalletOf(s1, row.provider, loaded, next, owners[i], walletIds[i]);
    }
    FitIff(s, row, instructions, s1, loaded, next, owners, walletIds);
    if Fit(loaded, instructions, walletIds, owners, s.now) {
      FitRegisters(loaded, instructions, walletIds, owners, s.now);
    }
    if Registers(loaded, instructions, walletIds, s.now) {
      var final: map<Id, Wallet> :|
        Registering(loaded, final, instructions, walletIds, s.now, |instructions|) && WalletsConsistent(final);
      RegistersFit(loaded, final, instructions, walletIds, owners, s.now);
    }
  }

  /** Both branches of the third step. */
  lemma ThirdStepIff(s: Tables, u: Upload, row: Disbursement, s1: Tables, loaded: map<Id, Wallet>, next: Id,
                     owners: seq<Id>, walletIds: seq<Id>)
    requires s1.wallets == s.wallets && s1.now == s.now && KeysInPlace(s)
    requires Planned(s.receivers, u.instructions, row.contactType, s1.receivers, owners)
    requires OwnWallets(s1, row.provider, loaded, next, owners, walletIds) && OnlyThese(s1, loaded, walletIds)
    requires WalletsConsistent(loaded)
    ensures ThirdStep(s, row, u.instructions) <==>
      && (row.includesWalletAddress ==> Registers(loaded, u.instructions, walletIds, s.now))
      && (Verifies(row) ==>
            && AllByType(s1.receivers, row.contactType, u.instructions, owners)
            && VerificationsPossible(s.verifications, u.instructions, owners, row.verificationField.value))
  {
    RegistersIff(s, row, u.instructions, s1, loaded, next, owners, walletIds);
    if Verifies(row) { VerifiableIff(s, row, u.instructions, s1.receivers, owners); }
  }
}
