/**
 When a REGISTERED wallet has an address. The data layer does not enforce it, because the update of a wallet asks for no
 address. It holds in every state of a run exactly when no transaction of the run registers a wallet blank, and then
 every payment that is taken for sending can be sent.
 */
module Registrations {
  import opened Statuses
  import opened Tables
  import opened Lifecycle
  import opened Invariants
  import opened Steps
  import opened Runs
  import opened Matching
  import opened Feasibility
  import opened Batches

  ghost predicate RegisteredHaveAddress(s: Tables) {
    forall w | w in s.wallets :: s.wallets[w].status == RegisteredWallet ==> s.wallets[w].address != NoAddress
  }

  // ---------- what registers a wallet blank ----------

  /** The update registers, and neither it nor the row has an address. */
  predicate UpdateRegistersBlank(s: Tables, w: Id, u: WalletUpdate) {
    && w in s.wallets && WalletUpdateOutcome(s.wallets, w, u).Done?
    && u.status == Some(RegisteredWallet) && u.address == NoAddress && s.wallets[w].address == NoAddress
  }

  /** The instruction's receiver has a wallet of the provider that an upload does not register again. */
  predicate SkipsRegistration(s: Tables, provider: Id, i: Instruction) {
    Contact(i).Some? && exists w | w in s.wallets ::
      && s.wallets[w].provider == provider && s.wallets[w].status in {RegisteredWallet, FlaggedWallet}
      && s.wallets[w].receiver in s.receivers && Matches(Contact(i).value, s.receivers[s.wallets[w].receiver])
  }

  /** The upload registers wallets, and one of its instructions registers its wallet without supplying an address. */
  predicate UploadRegistersBlank(s: Tables, u: Upload) {
    && u.disbursement in s.disbursements && s.disbursements[u.disbursement].includesWalletAddress
    && exists i | 0 <= i < |u.instructions| ::
         && u.instructions[i].walletAddress == NoAddress
         && !SkipsRegistration(s, s.disbursements[u.disbursement].provider, u.instructions[i])
  }

  /** The transaction would, if it goes through, register a wallet that has no address. */
  predicate RegistersBlank(s: Tables, e: Event) {
    match e
    case UpdateWallet(w, u) => UpdateRegistersBlank(s, w, u)
    case UploadInstructions(u) => UploadRegistersBlank(s, u)
    case _ => false
  }

  // ---------- one step ----------

  lemma UpdateKeepsRegisteredIff(s: Tables, w: Id, u: WalletUpdate)
    requires RegisteredHaveAddress(s)
    ensures RegisteredHaveAddress(WithWalletUpdate(s, w, u)) <==> !UpdateRegistersBlank(s, w, u)
  {
    var s' := WithWalletUpdate(s, w, u);
    if UpdateRegistersBlank(s, w, u) {
      assert s'.wallets[w].status == RegisteredWallet && s'.wallets[w].address == NoAddress;
    }
  }

  /** With the wallets that the upload has chosen: every instruction that registers one supplies an address. */
  lemma UploadKeepsRegistered(s: Tables, u: Upload, row: Disbursement, s': Tables, owners: seq<Id>,
                              walletIds: seq<Id>, first: Id)
    requires RegisteredHaveAddress(s) && WalletsUploaded(s, u, row, s', owners, walletIds, first)
    ensures RegisteredHaveAddress(s') <==>
            (row.includesWalletAddress ==> forall i | 0 <= i < |walletIds| ::
               WalletBefore(s, walletIds[i], owners[i], row.provider).status in {RegisteredWallet, FlaggedWallet}
               || u.instructions[i].walletAddress != NoAddress)
  {
    if RegisteredHaveAddress(s') && row.includesWalletAddress {
      forall i | 0 <= i < |walletIds|
        ensures WalletBefore(s, walletIds[i], owners[i], row.provider).status in {RegisteredWallet, FlaggedWallet}
             || u.instructions[i].walletAddress != NoAddress
      {
        var before := WalletBefore(s, walletIds[i], owners[i], row.provider);
        assert s'.wallets[walletIds[i]] == UploadedWallet(before, true, u.instructions[i], s.now);
      }
    }
  }

  /** Which wallet an instruction will find can be told before the upload: contacts and wallets are unique. */
  lemma SkippedIff(s: Tables, u: Upload, row: Disbursement, s': Tables, owners: seq<Id>, walletIds: seq<Id>,
                   first: Id, i: nat)
    requires ReceiversUploaded(s, u, s', owners, first) && WalletsUploaded(s, u, row, s', owners, walletIds, first)
    requires Consistent(s') && i < |owners| && forall w | w in s.wallets :: s.wallets[w].receiver in s.receivers
    ensures SkipsRegistration(s, row.provider, u.instructions[i]) <==>
            WalletBefore(s, walletIds[i], owners[i], row.provider).status in {RegisteredWallet, FlaggedWallet}
  {
    var contact := Contact(u.instructions[i]).value;
    UploadedSameOwners(s, u, row, s', owners, walletIds, first);
    forall w | w in s.wallets && s.wallets[w].provider == row.provider
               && Matches(contact, s.receivers[s.wallets[w].receiver])
      ensures w == walletIds[i]
    {
      assert Contact(u.instructions[i]) == Some(contact);
      MatchIsUnique(s'.receivers, contact, s.wallets[w].receiver, owners[i]);
    }
    if walletIds[i] in s.wallets {
      assert Matches(contact, s.receivers[owners[i]]);
    }
  }

  lemma UploadKeepsRegisteredIff(s: Tables, u: Upload, s': Tables)
    requires RegisteredHaveAddress(s) && Consistent(s) && Uploaded(s, u, s')
    requires forall w | w in s.wallets :: s.wallets[w].receiver in s.receivers
    ensures RegisteredHaveAddress(s') <==> !UploadRegistersBlank(s, u)
  {
    var owners, walletIds, first :| UploadedTo(s, u, s', owners, walletIds, first);
    var row := s.disbursements[u.disbursement];
    UploadKeepsRegistered(s, u, row, s', owners, walletIds, first);
    forall i | 0 <= i < |owners|
      ensures SkipsRegistration(s, row.provider, u.instructions[i]) <==>
              WalletBefore(s, walletIds[i], owners[i], row.provider).status in {RegisteredWallet, FlaggedWallet}
    {
      SkippedIff(s, u, row, s', owners, walletIds, first, i);
    }
  }

  lemma StartKeepsRegistered(s: Tables, d: Id)
    requires RegisteredHaveAddress(s)
    ensures RegisteredHaveAddress(Started(s, d))
  {
  }

  lemma WalletEventKeepsRegistered(s: Tables, e: Event, s': Tables)
    requires RegisteredHaveAddress(s) && WalletEvent(e) && !e.UpdateWallet? && Step(s, e, s')
    ensures RegisteredHaveAddress(s')
  {
  }

  lemma OtherEventKeepsRegistered(s: Tables, e: Event, s': Tables)
    requires RegisteredHaveAddress(s) && Step(s, e, s') && !e.UploadInstructions? && !e.UpdateWallet?
    ensures RegisteredHaveAddress(s')
  {
    if WalletEvent(e) {
      WalletEventKeepsRegistered(s, e, s');
    } else if e.StartDisbursement? {
      StartKeepsRegistered(s, e.disbursement);
    } else if PaymentEvent(e) {
      PaymentEventLeaves(s, e, s');
    }
  }

  lemma UploadEventKeepsRegisteredIff(s: Tables, e: Event, s': Tables)
    requires Inv(s) && RegisteredHaveAddress(s) && Step(s, e, s') && e.UploadInstructions?
    ensures RegisteredHaveAddress(s') <==> s' == s || !UploadRegistersBlank(s, e.upload)
  {
    assert WalInv(s);
    if s' != s { UploadKeepsRegisteredIff(s, e.upload, s'); }
  }

  /**
   A transaction that goes through keeps "REGISTERED implies an address" exactly when it registers no wallet blank.
   */
  lemma StepKeepsRegisteredIff(s: Tables, e: Event, s': Tables)
    requires Inv(s) && RegisteredHaveAddress(s) && Step(s, e, s')
    ensures RegisteredHaveAddress(s') <==> s' == s || !RegistersBlank(s, e)
  {
    if e.UploadInstructions? {
      UploadEventKeepsRegisteredIff(s, e, s');
    } else if e.UpdateWallet? {
      UpdateKeepsRegisteredIff(s, e.wallet, e.update);
    } else {
      OtherEventKeepsRegistered(s, e, s');
    }
  }

  // ---------- whole runs ----------

  /** The transaction number k goes through and registers a wallet blank. */
  ghost predicate BlankStep(states: seq<Tables>, events: seq<Event>, k: nat)
    requires k < |events| < |states|
  {
    states[k + 1] != states[k] && RegistersBlank(states[k], events[k])
  }

  ghost predicate AllRegisteredHaveAddress(states: seq<Tables>, n: nat)
    requires n < |states|
  {
    forall i | 0 <= i <= n :: RegisteredHaveAddress(states[i])
  }

  ghost predicate NoBlankStep(states: seq<Tables>, events: seq<Event>, n: nat)
    requires n <= |events| < |states|
  {
    forall k | 0 <= k < n :: !BlankStep(states, events, k)
  }

  lemma RunStepKeepsRegisteredIff(states: seq<Tables>, events: seq<Event>, k: nat)
    requires IsRun(states, events) && k < |events| && RegisteredHaveAddress(states[k])
    ensures RegisteredHaveAddress(states[k + 1]) <==> !BlankStep(states, events, k)
  {
    InvAlways(states, events, k);
    StepKeepsRegisteredIff(states[k], events[k], states[k + 1]);
  }

  lemma OneMore(states: seq<Tables>, events: seq<Event>, n: nat)
    requires n < |events| < |states|
    requires AllRegisteredHaveAddress(states, n) <==> NoBlankStep(states, events, n)
    requires RegisteredHaveAddress(states[n]) ==>
               (RegisteredHaveAddress(states[n + 1]) <==> !BlankStep(states, events, n))
    ensures AllRegisteredHaveAddress(states, n + 1) <==> NoBlankStep(states, events, n + 1)
  {
  }

  ghost predicate StepsKeepRegisteredIff(states: seq<Tables>, events: seq<Event>)
    requires |states| == |events| + 1
  {
    forall k | 0 <= k < |events| && RegisteredHaveAddress(states[k]) ::
      RegisteredHaveAddress(states[k + 1]) <==> !BlankStep(states, events, k)
  }

  lemma {:induction false} AlwaysByInduction(states: seq<Tables>, events: seq<Event>, n: nat)
    requires n < |states| == |events| + 1
    requires RegisteredHaveAddress(states[0]) && StepsKeepRegisteredIff(states, events)
    ensures AllRegisteredHaveAddress(states, n) <==> NoBlankStep(states, events, n)
  {
    if n > 0 {
      AlwaysByInduction(states, events, n - 1);
      OneMore(states, events, n - 1);
    }
  }

  /** Up to any moment of any run: all REGISTERED wallets have had an address exactly when none was registered blank. */
  lemma RegisteredAlwaysIff(states: seq<Tables>, events: seq<Event>, n: nat)
    requires IsRun(states, events) && n < |states|
    ensures AllRegisteredHaveAddress(states, n) <==> NoBlankStep(states, events, n)
  {
    forall k | 0 <= k < |events| && RegisteredHaveAddress(states[k])
      ensures RegisteredHaveAddress(states[k + 1]) <==> !BlankStep(states, events, k)
    {
      RunStepKeepsRegisteredIff(states, events, k);
    }
    AlwaysByInduction(states, events, n);
  }

  /** What every caller keeps to: an address comes with each registration and with each instruction that registers. */
  ghost predicate SuppliesAddress(s: Tables, e: Event) {
    match e
    case UpdateWallet(_, u) => u.status == Some(RegisteredWallet) ==> u.address != NoAddress
    case UploadInstructions(u) =>
      u.disbursement in s.disbursements && s.disbursements[u.disbursement].includesWalletAddress ==>
        forall i | 0 <= i < |u.instructions| :: u.instructions[i].walletAddress != NoAddress
    case _ => true
  }

  ghost predicate CallersSupplyAddresses(states: seq<Tables>, events: seq<Event>)
    requires |events| < |states|
  {
    forall k | 0 <= k < |events| :: SuppliesAddress(states[k], events[k])
  }

  /** With callers that supply addresses, a REGISTERED wallet has an address in every reachable state. */
  lemma RegisteredAlways(states: seq<Tables>, events: seq<Event>, i: nat)
    requires IsRun(states, events) && i < |states| && CallersSupplyAddresses(states, events)
    ensures RegisteredHaveAddress(states[i])
  {
    RegisteredAlwaysIff(states, events, i);
    forall k | 0 <= k < i ensures !BlankStep(states, events, k) {
      assert SuppliesAddress(states[k], events[k]);
    }
  }

  // ---------- the failure ----------

  const BLANK_UPDATE := WalletUpdate(Some(RegisteredWallet), NoAddress, None)

  const BLANK_EVENTS := [InsertReceiver(Receiver("1", "", "")), InsertWallet(0, 0), UpdateWallet(1, BLANK_UPDATE)]

  function BlankStates(): seq<Tables> {
    var one := WithReceiver(EMPTY, Receiver("1", "", ""));
    var two := WithWallet(one, 0, 0);
    [EMPTY, one, two, WithWalletUpdate(two, 1, BLANK_UPDATE)]
  }

  /** Without such callers it fails: a run that registers a new wallet through the update, which asks for no address. */
  lemma RegisteringWithoutAddress()
    ensures IsRun(BlankStates(), BLANK_EVENTS)
    ensures !RegisteredHaveAddress(BlankStates()[3])
  {
    var two := BlankStates()[2];
    assert two.receivers == map[0 := Receiver("1", "", "")];
    assert two.wallets == map[1 := NewWallet(0, 0, 0)];
    assert BlankStates()[3].wallets[1] == UpdatedWallet(NewWallet(0, 0, 0), BLANK_UPDATE, 0);
    forall i, j | 0 <= i && j == i + 1 < 4 ensures Step(BlankStates()[i], BLANK_EVENTS[i], BlankStates()[j]) {
      if i == 0 { assert Step(BlankStates()[0], BLANK_EVENTS[0], BlankStates()[1]); }
      else if i == 1 { assert Step(BlankStates()[1], BLANK_EVENTS[1], BlankStates()[2]); }
      else { assert Step(BlankStates()[2], BLANK_EVENTS[2], BlankStates()[3]); }
    }
  }

  // ---------- sending ----------

  lemma AllSendable(s: Tables, batch: set<Id>)
    requires forall id | id in batch :: Eligible(s, id) && ReadyForSending(s, id)
    ensures Dispatched(s, batch) == MoveIn(s, batch, PendingPayment, None)
  {
  }

  lemma OneUnsendable(s: Tables, batch: set<Id>, id: Id)
    requires forall q | q in batch :: Eligible(s, q)
    requires id in batch && !ReadyForSending(s, id)
    ensures Dispatched(s, batch) != MoveIn(s, batch, PendingPayment, None)
  {
    DispatchedRow(s, batch, id);
    assert MoveIn(s, batch, PendingPayment, None).payments[id].status == PendingPayment;
  }

  /** In a reachable state a batch is sent as a whole exactly when the wallet of each of its payments has an address. */
  lemma NothingFailsIff(s: Tables, batch: set<Id>)
    requires PayInv(s) && forall id | id in batch :: Eligible(s, id)
    ensures Dispatched(s, batch) == MoveIn(s, batch, PendingPayment, None)
       <==> forall id | id in batch :: s.wallets[s.payments[id].wallet].address != NoAddress
  {
    forall id | id in batch ensures ReadyForSending(s, id) <==> s.wallets[s.payments[id].wallet].address != NoAddress {
      assert PaymentOk(s.payments[id], s.disbursements, s.wallets, s.now);
    }
    if id :| id in batch && !ReadyForSending(s, id) {
      OneUnsendable(s, batch, id);
    } else {
      AllSendable(s, batch);
    }
  }

  /** When callers supply addresses, whatever is eligible in a reachable state can be sent. */
  lemma EligibleIsReady(states: seq<Tables>, events: seq<Event>, i: nat, p: Id)
    requires IsRun(states, events) && i < |states| && CallersSupplyAddresses(states, events)
    requires Eligible(states[i], p)
    ensures ReadyForSending(states[i], p)
  {
    RegisteredAlways(states, events, i);
    InvAlways(states, events, i);
    assert PaymentOk(states[i].payments[p], states[i].disbursements, states[i].wallets, states[i].now);
  }

  /** Then no batch ever has a payment that fails on the way. */
  lemma NothingFails(states: seq<Tables>, events: seq<Event>, i: nat, batch: set<Id>)
    requires IsRun(states, events) && i < |states| && CallersSupplyAddresses(states, events)
    requires forall id | id in batch :: Eligible(states[i], id)
    ensures Dispatched(states[i], batch) == MoveIn(states[i], batch, PendingPayment, None)
  {
    forall id | id in batch ensures ReadyForSending(states[i], id) {
      EligibleIsReady(states, events, i, id);
    }
    AllSendable(states[i], batch);
  }

  /** And draining the queue from any reachable state makes exactly the eligible payments PENDING, and nothing else. */
  lemma DrainedToPending(states: seq<Tables>, events: seq<Event>, i: nat, drain: seq<Tables>, batches: seq<seq<Id>>,
                         size: int)
    requires IsRun(states, events) && i < |states| && CallersSupplyAddresses(states, events)
    requires IsDrain(drain, batches, size) && drain[0] == states[i] && 0 < size
    requires |batches| >= (|EligiblePayments(states[i])| + size - 1) / size
    ensures drain[|batches|] == MoveIn(states[i], EligiblePayments(states[i]), PendingPayment, None)
  {
    var s, s' := states[i], drain[|batches|];
    DrainedAfterCeiling(drain, batches, size);
    DrainLeaves(drain, batches, size, |batches|);
    forall p | p in s.payments
      ensures s'.payments[p] == if Eligible(s, p) then MovedPayment(s.payments[p], PendingPayment, s.now, None)
              else s.payments[p]
    {
      MovedExactlyOnce(drain, batches, size, |batches|, p);
      assert Eligible(s', p) <==> p in EligiblePayments(s');
      if Eligible(s, p) { EligibleIsReady(states, events, i, p); }
    }
    assert s'.payments == MoveIn(s, EligiblePayments(s), PendingPayment, None).payments;
  }
}
