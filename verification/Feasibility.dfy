/**
 When an upload can go through. Whatever makes one of its steps fail also rules out every state that a successful upload
 could end in, so the exact upload relation decides success: the steps fail only when they have to.
 */
module Feasibility {
  import opened Statuses
  import opened Tables
  import opened Lifecycle
  import opened Invariants
  import opened Runs
  import opened Steps
  import opened Matching

  // ---------- receivers ----------

  /** Receivers and owners that a successful first step could end with. */
  ghost predicate Planned(before: map<Id, Receiver>, instructions: seq<Instruction>, contactType: ContactType,
                          after: map<Id, Receiver>, owners: seq<Id>)
  {
    && |owners| == |instructions| && Distinct(owners) && ReceiversConsistent(after)
    && (forall r | r in before :: r in after && after[r] == before[r])
    && forall i | 0 <= i < |owners| :: PlannedOwner(before, instructions[i], contactType, after, owners[i])
  }

  ghost predicate PlannedOwner(before: map<Id, Receiver>, i: Instruction, contactType: ContactType,
                               after: map<Id, Receiver>, r: Id) {
    && r in after && Contact(i).Some? && Matches(Contact(i).value, after[r])
    && if r in before then Contact(i) == Some(ContactByType(before[r], contactType)) else after[r] == ReceiverFor(i)
  }

  ghost predicate Plannable(before: map<Id, Receiver>, instructions: seq<Instruction>, contactType: ContactType) {
    exists after, owners :: Planned(before, instructions, contactType, after, owners)
  }

  lemma PlannedOwns(before: map<Id, Receiver>, instructions: seq<Instruction>, contacts: seq<string>,
                    contactType: ContactType,
                    after: map<Id, Receiver>, owners: seq<Id>)
    requires HaveContacts(instructions, contacts) && Planned(before, instructions, contactType, after, owners)
    ensures OwnedBy(after, contacts, owners)
  {
    forall k | 0 <= k < |owners|
      ensures owners[k] in after && forall r | r in after :: Matches(contacts[k], after[r]) <==> r == owners[k]
    {
      assert PlannedOwner(before, instructions[k], contactType, after, owners[k]);
      assert Contact(instructions[k]) == Some(contacts[k]);
      forall r | r in after && Matches(contacts[k], after[r]) ensures r == owners[k] {
        MatchIsUnique(after, contacts[k], r, owners[k]);
      }
    }
  }

  /** An instruction with both contacts or with none rules a plan out. */
  lemma NoPlanWithoutContact(before: map<Id, Receiver>, instructions: seq<Instruction>, contactType: ContactType,
                             i: nat)
    requires i < |instructions| && Contact(instructions[i]).None?
    ensures !Plannable(before, instructions, contactType)
  {
  }

  lemma TypedWhenPlanned(before: map<Id, Receiver>, instructions: seq<Instruction>, contacts: seq<string>,
                         contactType: ContactType,
                         after: map<Id, Receiver>, owners: seq<Id>, r: Id)
    requires HaveContacts(instructions, contacts) && Planned(before, instructions, contactType, after, owners)
    requires r in GetByContacts(before, contacts)
    ensures ContactByType(before[r], contactType) != ""
  {
    PlannedOwns(before, instructions, contacts, contactType, after, owners);
    var k :| 0 <= k < |contacts| && (before[r].phone == contacts[k] || before[r].email == contacts[k]);
    assert Matches(contacts[k], after[r]);
    assert PlannedOwner(before, instructions[k], contactType, after, owners[k]);
  }

  /** A receiver found by a contact that has no contact of the type rules a plan out. */
  lemma NoPlanForUntyped(before: map<Id, Receiver>, instructions: seq<Instruction>, contacts: seq<string>,
                         contactType: ContactType, r: Id)
    requires HaveContacts(instructions, contacts) && r in GetByContacts(before, contacts)
    requires ContactByType(before[r], contactType) == ""
    ensures !Plannable(before, instructions, contactType)
  {
    if Plannable(before, instructions, contactType) {
      var after, owners :| Planned(before, instructions, contactType, after, owners);
      TypedWhenPlanned(before, instructions, contacts, contactType, after, owners, r);
    }
  }

  /** The lookup map knows every receiver it found by its contact of the type. */
  ghost predicate Knows(before: map<Id, Receiver>, contacts: seq<string>, contactType: ContactType,
                        known: set<string>) {
    forall r | r in GetByContacts(before, contacts) :: ContactByType(before[r], contactType) in known
  }

  lemma UnknownOwnerIsNew(before: map<Id, Receiver>, instructions: seq<Instruction>, contacts: seq<string>,
                          contactType: ContactType, known: set<string>, after: map<Id, Receiver>, owners: seq<Id>,
                          i: nat)
    requires HaveContacts(instructions, contacts) && Knows(before, contacts, contactType, known)
    requires i < |contacts| && contacts[i] !in known && |owners| == |instructions|
    requires PlannedOwner(before, instructions[i], contactType, after, owners[i])
    requires forall r | r in before :: r in after && after[r] == before[r]
    ensures owners[i] !in before && after[owners[i]] == ReceiverFor(instructions[i])
  {
  }

  lemma NotTaken(after: map<Id, Receiver>, owner: Id, r: Receiver, others: map<Id, Receiver>)
    requires ReceiversConsistent(after) && owner in after && after[owner] == r
    requires forall q | q in others :: exists p | p in after :: p != owner && after[p] == others[q]
    ensures !ContactTaken(others, r)
  {
  }

  /** A taken contact of a missing receiver rules a plan out. */
  lemma NoPlanWhenTaken(before: map<Id, Receiver>, first: Id, current: map<Id, Receiver>, next: Id,
                        instructions: seq<Instruction>,
                        contacts: seq<string>, contactType: ContactType, known: set<string>, i: nat)
    requires HaveContacts(instructions, contacts) && Knows(before, contacts, contactType, known) && i < |contacts|
    requires Created(before, first, current, next, instructions, contacts, known, i)
    requires contacts[i] !in known && ContactTaken(current, ReceiverFor(instructions[i]))
    ensures !Plannable(before, instructions, contactType)
  {
    if Plannable(before, instructions, contactType) {
      var after, owners :| Planned(before, instructions, contactType, after, owners);
      UnknownOwnerIsNew(before, instructions, contacts, contactType, known, after, owners, i);
      forall q | q in current ensures exists p | p in after :: p != owners[i] && after[p] == current[q] {
        if q in before {
          assert after[q] == current[q];
        } else {
          assert CreatedFromSome(current[q], instructions, contacts, known, i);
          var k :| 0 <= k < i && contacts[k] !in known && current[q] == ReceiverFor(instructions[k]);
          UnknownOwnerIsNew(before, instructions, contacts, contactType, known, after, owners, k);
          assert owners[k] != owners[i] && after[owners[k]] == current[q];
        }
      }
      NotTaken(after, owners[i], ReceiverFor(instructions[i]), current);
    }
  }

  lemma SameReceiverSameOwner(before: map<Id, Receiver>, first: Id, current: map<Id, Receiver>, next: Id,
                              instructions: seq<Instruction>, contacts: seq<string>, known: set<string>,
                              actual: seq<Id>,
                              after: map<Id, Receiver>, owners: seq<Id>, i: nat, j: nat)
    requires HaveContacts(instructions, contacts) && OwnedBy(current, contacts, actual)
             && OwnedBy(after, contacts, owners)
    requires Created(before, first, current, next, instructions, contacts, known, |contacts|)
    requires forall r | r in before :: r in after && after[r] == before[r]
    requires i < |actual| && j < |actual| && actual[i] == actual[j]
    ensures owners[i] == owners[j]
  {
  }

  lemma DistinctWhenPlanned(before: map<Id, Receiver>, first: Id, current: map<Id, Receiver>, next: Id,
                            instructions: seq<Instruction>,
                            contacts: seq<string>, contactType: ContactType, known: set<string>, actual: seq<Id>,
                            after: map<Id, Receiver>, owners: seq<Id>)
    requires HaveContacts(instructions, contacts) && OwnedBy(current, contacts, actual)
    requires Created(before, first, current, next, instructions, contacts, known, |contacts|)
    requires Planned(before, instructions, contactType, after, owners)
    ensures Distinct(actual)
  {
    PlannedOwns(before, instructions, contacts, contactType, after, owners);
    forall i, j | 0 <= i < j < |actual| ensures actual[i] != actual[j] {
      if actual[i] == actual[j] {
        SameReceiverSameOwner(before, first, current, next, instructions, contacts, known, actual, after, owners, i, j);
      }
    }
  }

  /** Two instructions for one receiver rule a plan out. */
  lemma NoPlanForClash(before: map<Id, Receiver>, first: Id, current: map<Id, Receiver>, next: Id,
                       instructions: seq<Instruction>,
                       contacts: seq<string>, contactType: ContactType, known: set<string>, actual: seq<Id>)
    requires HaveContacts(instructions, contacts) && OwnedBy(current, contacts, actual) && !Distinct(actual)
    requires Created(before, first, current, next, instructions, contacts, known, |contacts|)
    ensures !Plannable(before, instructions, contactType)
  {
    if Plannable(before, instructions, contactType) {
      var after, owners :| Planned(before, instructions, contactType, after, owners);
      DistinctWhenPlanned(before, first, current, next, instructions, contacts, contactType, known, actual, after,
                          owners);
    }
  }

  /** A first step that went through is a plan, and so is the first step of any successful upload. */
  lemma UploadedIsPlanned(s: Tables, u: Upload, s': Tables, owners: seq<Id>, first: Id, contactType: ContactType)
    requires ReceiversUploaded(s, u, s', owners, first) && ReceiversConsistent(s'.receivers)
    requires ExistingByType(s.receivers, contactType, u.instructions, owners)
    ensures Planned(s.receivers, u.instructions, contactType, s'.receivers, owners)
    ensures Plannable(s.receivers, u.instructions, contactType)
  {
    forall i | 0 <= i < |owners|
      ensures PlannedOwner(s.receivers, u.instructions[i], contactType, s'.receivers, owners[i])
    {
    }
    assert Planned(s.receivers, u.instructions, contactType, s'.receivers, owners);
  }

  // ---------- supplied wallets ----------

  /** Wallets that the registrations could end with. */
  ghost predicate Registers(loaded: map<Id, Wallet>, instructions: seq<Instruction>, walletIds: seq<Id>, now: int) {
    && |walletIds| == |instructions|
    && exists final: map<Id, Wallet> ::
         Registering(loaded, final, instructions, walletIds, now, |instructions|) && WalletsConsistent(final)
  }

  lemma AddressKept(loaded: map<Id, Wallet>, current: map<Id, Wallet>, final: map<Id, Wallet>,
                    instructions: seq<Instruction>,
                    walletIds: seq<Id>, now: int, i: nat, v: Id)
    requires |walletIds| == |instructions| && i <= |instructions| && v in current
    requires Registering(loaded, current, instructions, walletIds, now, i)
    requires Registering(loaded, final, instructions, walletIds, now, |instructions|)
    ensures v in final && final[v].receiver == current[v].receiver
    ensures current[v].address == NoAddress || current[v].address == final[v].address
  {
  }

  /** As long as the registrations can all be made, the next one does not collide. */
  lemma NextRegisters(loaded: map<Id, Wallet>, current: map<Id, Wallet>, instructions: seq<Instruction>,
                      walletIds: seq<Id>, now: int, i: nat)
    requires Registers(loaded, instructions, walletIds, now) && i < |instructions|
    requires Registering(loaded, current, instructions, walletIds, now, i)
    ensures Registrable(loaded[walletIds[i]], instructions[i])
    ensures loaded[walletIds[i]].status !in {RegisteredWallet, FlaggedWallet} ==>
              !Collides(current, loaded[walletIds[i]], instructions[i])
  {
    var final: map<Id, Wallet> :| Registering(loaded, final, instructions, walletIds, now, |instructions|)
      && WalletsConsistent(final);
    var w := walletIds[i];
    assert Registrable(loaded[w], instructions[i]);
    assert final[w] == Supplied(loaded[w], instructions[i], now);
    forall v | v in current
      ensures v in final && final[v].receiver == current[v].receiver
      ensures current[v].address == NoAddress || current[v].address == final[v].address
    {
      AddressKept(loaded, current, final, instructions, walletIds, now, i, v);
    }
  }

  // ---------- two ways to do the same upload ----------

  /** Owners that existed before are the same ones. */
  ghost predicate Corresponds(before: map<Id, Receiver>, owners: seq<Id>, others: seq<Id>) {
    && |owners| == |others|
    && forall i | 0 <= i < |owners| ::
         && (owners[i] in before <==> others[i] in before)
         && (owners[i] in before ==> others[i] == owners[i])
  }

  lemma OwnersCorrespond(before: map<Id, Receiver>, instructions: seq<Instruction>, contactType: ContactType,
                         after: map<Id, Receiver>, owners: seq<Id>, after': map<Id, Receiver>, owners': seq<Id>)
    requires Planned(before, instructions, contactType, after, owners)
    requires Planned(before, instructions, contactType, after', owners')
    ensures Corresponds(before, owners, owners')
  {
    forall i | 0 <= i < |owners|
      ensures owners[i] in before <==> owners'[i] in before
      ensures owners[i] in before ==> owners'[i] == owners[i]
    {
      assert PlannedOwner(before, instructions[i], contactType, after, owners[i]);
      assert PlannedOwner(before, instructions[i], contactType, after', owners'[i]);
      var contact := Contact(instructions[i]).value;
      if owners[i] in before { MatchIsUnique(after', contact, owners[i], owners'[i]); }
      if owners'[i] in before { MatchIsUnique(after, contact, owners'[i], owners[i]); }
    }
  }

  /** What one plan can verify, the other can. */
  lemma VerificationTransfers(s: Tables, u: Upload, row: Disbursement, s': Tables, owners': seq<Id>,
                              after: map<Id, Receiver>, owners: seq<Id>)
    requires Verifies(row) && Corresponds(s.receivers, owners, owners')
             && forall k | k in s.verifications :: k.0 in s.receivers
    requires VerificationsUploaded(s, u, row, s', owners') && FoundByType(s, u, row, s', owners')
    requires Planned(s.receivers, u.instructions, row.contactType, after, owners)
    requires Planned(s.receivers, u.instructions, row.contactType, s'.receivers, owners')
    ensures AllByType(after, row.contactType, u.instructions, owners)
    ensures VerificationsPossible(s.verifications, u.instructions, owners, row.verificationField.value)
  {
    var field := row.verificationField.value;
    forall i | 0 <= i < |owners|
      ensures Contact(u.instructions[i]) == Some(ContactByType(after[owners[i]], row.contactType))
      ensures UploadedVerification(VerificationAt(s.verifications, owners[i], field), u.instructions[i].idNo).Some?
    {
      assert PlannedOwner(s.receivers, u.instructions[i], row.contactType, after, owners[i]);
      assert PlannedOwner(s.receivers, u.instructions[i], row.contactType, s'.receivers, owners'[i]);
      assert after[owners[i]] == s'.receivers[owners'[i]];
      assert VerificationAt(s.verifications, owners[i], field) == VerificationAt(s.verifications, owners'[i], field);
    }
  }

  // ---------- supplied wallets, two ways ----------

  /** One wallet per receiver and provider: both ways use the same stored wallet, or both insert one. */
  lemma SameWallet(ws: map<Id, Wallet>, rs: map<Id, Receiver>, loaded: map<Id, Wallet>, after: map<Id, Wallet>,
                   provider: Id,
                   r: Id, w: Id, r': Id, w': Id)
    requires WalletsConsistent(loaded) && WalletsConsistent(after)
    requires SameOwners(ws, loaded) && SameOwners(ws, after) && forall v | v in ws :: ws[v].receiver in rs
    requires w in loaded && loaded[w].receiver == r && loaded[w].provider == provider
    requires w' in after && after[w'].receiver == r' && after[w'].provider == provider
    requires (r in rs <==> r' in rs) && (r in rs ==> r' == r)
    ensures (w in ws <==> w' in ws) && (w in ws ==> w' == w)
  {
  }

  ghost predicate SameOwners(ws: map<Id, Wallet>, ws': map<Id, Wallet>) {
    forall v | v in ws :: v in ws' && ws'[v].receiver == ws[v].receiver && ws'[v].provider == ws[v].provider
  }

  lemma LoadedSameOwners(s1: Tables, provider: Id, loaded: map<Id, Wallet>, next: Id, owners: seq<Id>,
                         walletIds: seq<Id>)
    requires OwnWallets(s1, provider, loaded, next, owners, walletIds) && OnlyThese(s1, loaded, walletIds)
    ensures SameOwners(s1.wallets, loaded)
  {
  }

  lemma UploadedSameOwners(s: Tables, u: Upload, row: Disbursement, s': Tables, owners: seq<Id>, walletIds: seq<Id>,
                           first: Id)
    requires WalletsUploaded(s, u, row, s', owners, walletIds, first)
    ensures SameOwners(s.wallets, s'.wallets)
    ensures forall i | 0 <= i < |walletIds| :: walletIds[i] in s'.wallets
              && s'.wallets[walletIds[i]].receiver == owners[i] && s'.wallets[walletIds[i]].provider == row.provider
  {
    forall i | 0 <= i < |walletIds|
      ensures walletIds[i] in s'.wallets
           && s'.wallets[walletIds[i]].receiver == owners[i] && s'.wallets[walletIds[i]].provider == row.provider
    {
      var before := WalletBefore(s, walletIds[i], owners[i], row.provider);
      assert s'.wallets[walletIds[i]] == UploadedWallet(before, row.includesWalletAddress, u.instructions[i], s.now);
    }
  }

  /** Instruction i uses the same stored wallet both ways, or a new one, and would store the same address. */
  ghost predicate Twin(ws: map<Id, Wallet>, loaded: map<Id, Wallet>, after: map<Id, Wallet>, i: Instruction, now: int,
                       r: Id, w: Id, r': Id, w': Id)
  {
    && w in loaded && loaded[w].receiver == r && w' in after && after[w'].receiver == r'
    && (w in ws <==> w' in ws) && (w in ws ==> w' == w)
    && Registrable(loaded[w], i)
    && Supplied(loaded[w], i, now).address == after[w'].address
  }

  lemma InstructionTwin(s: Tables, u: Upload, row: Disbursement, s1: Tables, loaded: map<Id, Wallet>, next: Id,
                        owners: seq<Id>, walletIds: seq<Id>, s': Tables, owners': seq<Id>, walletIds': seq<Id>,
                        first': Id, i: nat)
    requires row.includesWalletAddress && s1.wallets == s.wallets && s1.now == s.now
    requires |owners| == |u.instructions| && OwnWallets(s1, row.provider, loaded, next, owners, walletIds)
    requires WalletsUploaded(s, u, row, s', owners', walletIds', first')
    requires i < |owners| && s'.wallets[walletIds'[i]].receiver == owners'[i]
    requires walletIds[i] in s.wallets <==> walletIds'[i] in s.wallets
    requires walletIds[i] in s.wallets ==> walletIds'[i] == walletIds[i]
    ensures Twin(s.wallets, loaded, s'.wallets, u.instructions[i], s.now, owners[i], walletIds[i], owners'[i],
                 walletIds'[i])
  {
    assert WalletOf(s1, row.provider, loaded, next, owners[i], walletIds[i]);
    var before := WalletBefore(s, walletIds'[i], owners'[i], row.provider);
    assert s'.wallets[walletIds'[i]] == UploadedWallet(before, true, u.instructions[i], s.now);
    assert Registrable(before, u.instructions[i]);
    assert loaded[walletIds[i]].address == before.address && loaded[walletIds[i]].status == before.status;
  }

  /** The wallets with the first i registrations made. */
  ghost function WithRegistrations(loaded: map<Id, Wallet>, instructions: seq<Instruction>, walletIds: seq<Id>,
                                   now: int,
                       i: nat): map<Id, Wallet>
    requires i <= |walletIds| == |instructions| && forall j | 0 <= j < |walletIds| :: walletIds[j] in loaded
  {
    if i == 0 then loaded
    else
      var w := walletIds[i - 1];
      WithRegistrations(loaded, instructions, walletIds, now, i - 1)[w := Supplied(loaded[w], instructions[i - 1], now)]
  }

  lemma NoneRegistered(loaded: map<Id, Wallet>, instructions: seq<Instruction>, walletIds: seq<Id>, now: int)
    requires |walletIds| == |instructions| && forall j | 0 <= j < |walletIds| :: walletIds[j] in loaded
    ensures Registering(loaded, loaded, instructions, walletIds, now, 0)
  {
  }

  ghost predicate AllRegistrable(loaded: map<Id, Wallet>, instructions: seq<Instruction>, walletIds: seq<Id>) {
    && |walletIds| == |instructions|
    && forall j | 0 <= j < |walletIds| ::
         walletIds[j] in loaded && Registrable(loaded[walletIds[j]], instructions[j])
  }

  lemma OneMoreRegistered(loaded: map<Id, Wallet>, wallets: map<Id, Wallet>, instructions: seq<Instruction>,
                          walletIds: seq<Id>, now: int, i: nat)
    requires AllRegistrable(loaded, instructions, walletIds) && Distinct(walletIds) && i < |walletIds|
    requires Registering(loaded, wallets, instructions, walletIds, now, i)
    ensures Registering(loaded, wallets[walletIds[i] := Supplied(loaded[walletIds[i]], instructions[i], now)],
                        instructions, walletIds, now, i + 1)
  {
  }

  lemma {:induction false} FinalRegisters(loaded: map<Id, Wallet>, instructions: seq<Instruction>,
                                          walletIds: seq<Id>, now: int, i: nat)
    requires AllRegistrable(loaded, instructions, walletIds) && Distinct(walletIds) && i <= |walletIds|
    ensures Registering(loaded, WithRegistrations(loaded, instructions, walletIds, now, i), instructions, walletIds,
                        now, i)
  {
    if i == 0 {
      NoneRegistered(loaded, instructions, walletIds, now);
    } else {
      FinalRegisters(loaded, instructions, walletIds, now, i - 1);
      OneMoreRegistered(loaded, WithRegistrations(loaded, instructions, walletIds, now, i - 1), instructions, walletIds,
                        now, i - 1);
    }
  }

  /** Both ways, wallet by wallet. */
  ghost predicate Twins(ws: map<Id, Wallet>, rs: map<Id, Receiver>, loaded: map<Id, Wallet>, after: map<Id, Wallet>,
                        instructions: seq<Instruction>, now: int, owners: seq<Id>, walletIds: seq<Id>,
                        owners': seq<Id>, walletIds': seq<Id>)
  {
    && |owners| == |walletIds| == |owners'| == |walletIds'| == |instructions|
    && (forall i | 0 <= i < |owners| ::
          Twin(ws, loaded, after, instructions[i], now, owners[i], walletIds[i], owners'[i], walletIds'[i]))
    && (forall v | v in ws :: ws[v].receiver in rs && v in loaded && v in after)
    && (forall v | v in ws && v !in walletIds :: loaded[v] == ws[v])
    && (forall v | v in ws && v !in walletIds' :: after[v] == ws[v])
    && (forall v | v in loaded :: v in ws || v in walletIds)
  }

  /** The wallet of the other way that stores what the final wallet `v` stores. */
  ghost predicate Mirrors(ws: map<Id, Wallet>, final: map<Id, Wallet>, after: map<Id, Wallet>,
                          owners: seq<Id>, walletIds: seq<Id>, owners': seq<Id>, walletIds': seq<Id>, v: Id, v': Id)
    requires |owners| == |walletIds| == |owners'| == |walletIds'|
  {
    && v in final && v' in after && final[v].address == after[v'].address
    && (|| (v !in walletIds && v' !in walletIds' && v' == v && v in ws
            && final[v].receiver == after[v'].receiver == ws[v].receiver)
        || exists j | 0 <= j < |walletIds| :: v == walletIds[j] && v' == walletIds'[j]
             && final[v].receiver == owners[j] && after[v'].receiver == owners'[j])
  }

  lemma MirrorOf(ws: map<Id, Wallet>, rs: map<Id, Receiver>, loaded: map<Id, Wallet>, final: map<Id, Wallet>,
                 after: map<Id, Wallet>,
                 instructions: seq<Instruction>, now: int, owners: seq<Id>, walletIds: seq<Id>, owners': seq<Id>,
                 walletIds': seq<Id>, v: Id)
    returns (v': Id)
    requires Twins(ws, rs, loaded, after, instructions, now, owners, walletIds, owners', walletIds')
    requires Registering(loaded, final, instructions, walletIds, now, |instructions|) && v in final
    ensures Mirrors(ws, final, after, owners, walletIds, owners', walletIds', v, v')
  {
    if v in walletIds {
      var j :| 0 <= j < |walletIds| && walletIds[j] == v;
      assert Twin(ws, loaded, after, instructions[j], now, owners[j], walletIds[j], owners'[j], walletIds'[j]);
      assert final[v] == Supplied(loaded[v], instructions[j], now);
      v' := walletIds'[j];
    } else {
      v' := v;
      forall j | 0 <= j < |walletIds'| ensures walletIds'[j] != v {
        assert Twin(ws, loaded, after, instructions[j], now, owners[j], walletIds[j], owners'[j], walletIds'[j]);
        assert walletIds[j] != v;
      }
    }
  }

  lemma MirroredReceivers(ws: map<Id, Wallet>, rs: map<Id, Receiver>, final: map<Id, Wallet>, after: map<Id, Wallet>,
                          owners: seq<Id>, walletIds: seq<Id>, owners': seq<Id>, walletIds': seq<Id>, v: Id, v': Id,
                          w: Id, w': Id)
    requires |owners| == |walletIds| == |owners'| == |walletIds'| && Corresponds(rs, owners, owners')
             && Distinct(owners')
    requires forall x | x in ws :: ws[x].receiver in rs
    requires Mirrors(ws, final, after, owners, walletIds, owners', walletIds', v, v')
    requires Mirrors(ws, final, after, owners, walletIds, owners', walletIds', w, w')
    requires WalletsConsistent(after) && final[v].address == final[w].address != NoAddress
    ensures final[v].receiver == final[w].receiver
  {
  }

  lemma FinalConsistent(ws: map<Id, Wallet>, rs: map<Id, Receiver>, loaded: map<Id, Wallet>, final: map<Id, Wallet>,
                        after: map<Id, Wallet>,
                        instructions: seq<Instruction>, now: int, owners: seq<Id>, walletIds: seq<Id>,
                        owners': seq<Id>, walletIds': seq<Id>)
    requires Twins(ws, rs, loaded, after, instructions, now, owners, walletIds, owners', walletIds')
    requires Registering(loaded, final, instructions, walletIds, now, |instructions|)
    requires WalletsConsistent(loaded) && WalletsConsistent(after) && Corresponds(rs, owners, owners')
             && Distinct(owners')
    ensures WalletsConsistent(final)
  {
    FinalSameOwners(loaded, final, instructions, walletIds, now);
    forall v, w | v in final && w in final && v != w
      ensures final[v].address == final[w].address != NoAddress ==> final[v].receiver == final[w].receiver
    {
      var v' := MirrorOf(ws, rs, loaded, final, after, instructions, now, owners, walletIds, owners', walletIds', v);
      var w' := MirrorOf(ws, rs, loaded, final, after, instructions, now, owners, walletIds, owners', walletIds', w);
      if final[v].address == final[w].address != NoAddress {
        MirroredReceivers(ws, rs, final, after, owners, walletIds, owners', walletIds', v, v', w, w');
      }
    }
  }

  lemma FinalSameOwners(loaded: map<Id, Wallet>, final: map<Id, Wallet>, instructions: seq<Instruction>,
                        walletIds: seq<Id>, now: int)
    requires |walletIds| == |instructions| && Registering(loaded, final, instructions, walletIds, now, |instructions|)
    ensures SameOwners(loaded, final) && final.Keys == loaded.Keys
  {
  }

  lemma RegistrationTransfers(s: Tables, u: Upload, row: Disbursement, s1: Tables, loaded: map<Id, Wallet>, next: Id,
                              owners: seq<Id>, walletIds: seq<Id>, s': Tables, owners': seq<Id>, walletIds': seq<Id>,
                              first': Id)
    requires row.includesWalletAddress && s1.wallets == s.wallets && s1.now == s.now
    requires |owners| == |u.instructions| && Distinct(owners) && Distinct(owners')
             && Corresponds(s.receivers, owners, owners')
    requires OwnWallets(s1, row.provider, loaded, next, owners, walletIds) && OnlyThese(s1, loaded, walletIds)
    requires WalletsConsistent(loaded) && WalletsConsistent(s'.wallets)
    requires WalletsUploaded(s, u, row, s', owners', walletIds', first')
    requires forall w | w in s.wallets :: s.wallets[w].receiver in s.receivers
    ensures Registers(loaded, u.instructions, walletIds, s.now)
  {
    LoadedSameOwners(s1, row.provider, loaded, next, owners, walletIds);
    UploadedSameOwners(s, u, row, s', owners', walletIds', first');
    forall i | 0 <= i < |owners|
      ensures Twin(s.wallets, loaded, s'.wallets, u.instructions[i], s.now, owners[i], walletIds[i], owners'[i],
                   walletIds'[i])
    {
      assert WalletOf(s1, row.provider, loaded, next, owners[i], walletIds[i]);
      SameWallet(s.wallets, s.receivers, loaded, s'.wallets, row.provider, owners[i], walletIds[i], owners'[i],
                 walletIds'[i]);
      InstructionTwin(s, u, row, s1, loaded, next, owners, walletIds, s', owners', walletIds', first', i);
    }
    WalletIdsDistinct(s1, row.provider, loaded, next, owners, walletIds);
    forall j | 0 <= j < |walletIds|
      ensures walletIds[j] in loaded && Registrable(loaded[walletIds[j]], u.instructions[j])
    {
      assert Twin(s.wallets, loaded, s'.wallets, u.instructions[j], s.now, owners[j], walletIds[j], owners'[j],
                  walletIds'[j]);
    }
    FinalRegisters(loaded, u.instructions, walletIds, s.now, |walletIds|);
    var final := WithRegistrations(loaded, u.instructions, walletIds, s.now, |walletIds|);
    FinalConsistent(s.wallets, s.receivers, loaded, final, s'.wallets, u.instructions, s.now, owners, walletIds,
                    owners', walletIds');
  }

  // ---------- the whole upload ----------

  /** Some state is what a successful upload of `u` would leave behind. */
  ghost predicate Possible(s: Tables, u: Upload) {
    exists s' :: Uploaded(s, u, s')
  }

  /** What the request, the disbursement's status and the amounts must be like. */
  ghost predicate PaymentsPossible(s: Tables, u: Upload) {
    && u.disbursement in s.disbursements && Accepted(u)
    && NotStarted(s.disbursements[u.disbursement].status)
    && forall i | 0 <= i < |u.instructions| :: ValidAmount(u.instructions[i].amount)
  }

  /** What can be said before the upload begins. */
  lemma PossibleBefore(s: Tables, u: Upload)
    requires Consistent(s)
    ensures Possible(s, u) ==>
              && PaymentsPossible(s, u)
              && Plannable(s.receivers, u.instructions, s.disbursements[u.disbursement].contactType)
  {
    if Possible(s, u) {
      var s' :| Uploaded(s, u, s');
      var owners, walletIds, first :| UploadedTo(s, u, s', owners, walletIds, first);
      FoundIsExisting(s, u, s', owners, first);
      UploadedIsPlanned(s, u, s', owners, first, s.disbursements[u.disbursement].contactType);
    }
  }

  lemma FoundIsExisting(s: Tables, u: Upload, s': Tables, owners: seq<Id>, first: Id)
    requires u.disbursement in s.disbursements && ReceiversUploaded(s, u, s', owners, first)
    requires FoundByType(s, u, s.disbursements[u.disbursement], s', owners)
    ensures ExistingByType(s.receivers, s.disbursements[u.disbursement].contactType, u.instructions, owners)
  {
  }

  /** What can be said once receivers and wallets are there. */
  lemma PossibleMidway(s: Tables, u: Upload, row: Disbursement, s1: Tables, loaded: map<Id, Wallet>, next: Id,
                       owners: seq<Id>, walletIds: seq<Id>)
    requires Possible(s, u) && Consistent(s) && KeysInPlace(s) && u.disbursement in s.disbursements
             && row == s.disbursements[u.disbursement]
    requires s1.wallets == s.wallets && s1.now == s.now
    requires Planned(s.receivers, u.instructions, row.contactType, s1.receivers, owners)
    requires OwnWallets(s1, row.provider, loaded, next, owners, walletIds) && OnlyThese(s1, loaded, walletIds)
    requires WalletsConsistent(loaded)
    ensures row.includesWalletAddress ==> Registers(loaded, u.instructions, walletIds, s.now)
    ensures Verifies(row) ==> AllByType(s1.receivers, row.contactType, u.instructions, owners)
                              && VerificationsPossible(s.verifications, u.instructions, owners,
                                                       row.verificationField.value)
  {
    var s' :| Uploaded(s, u, s');
    var owners', walletIds', first' :| UploadedTo(s, u, s', owners', walletIds', first');
    FoundIsExisting(s, u, s', owners', first');
    UploadedIsPlanned(s, u, s', owners', first', row.contactType);
    OwnersCorrespond(s.receivers, u.instructions, row.contactType, s1.receivers, owners, s'.receivers, owners');
    if Verifies(row) {
      VerificationTransfers(s, u, row, s', owners', s1.receivers, owners);
    }
    if row.includesWalletAddress {
      RegistrationTransfers(s, u, row, s1, loaded, next, owners, walletIds, s', owners', walletIds', first');
    }
  }

  /** Every state of a run meets what an upload asks of the tables. */
  lemma ReachableIsInPlace(states: seq<Tables>, events: seq<Event>, i: nat)
    requires IsRun(states, events) && i < |states|
    ensures Consistent(states[i]) && KeysInPlace(states[i])
  {
    InvAlways(states, events, i);
  }
}
