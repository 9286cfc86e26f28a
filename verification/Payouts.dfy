/** Whom a disbursement pays: each receiver of its last file once, and nobody twice in any reachable state. */
module Payouts {
  import opened Statuses
  import opened Tables
  import opened Lifecycle
  import opened Invariants
  import opened Steps
  import opened Runs
  import opened Matching
  import opened Feasibility

  // ---------- after one upload ----------

  /** Payment `p` is the draft that pays the instruction: its amount, the receiver it names, that receiver's wallet. */
  ghost predicate Pays(t: Tables, row: Disbursement, i: Instruction, p: Id) {
    && p in t.payments && t.payments[p].status == DraftPayment
    && t.payments[p].amount == i.amount && t.payments[p].asset == row.asset
    && t.payments[p].receiver in t.receivers && Contact(i).Some?
    && Matches(Contact(i).value, t.receivers[t.payments[p].receiver])
    && t.payments[p].wallet in t.wallets
    && t.wallets[t.payments[p].wallet].receiver == t.payments[p].receiver
    && t.wallets[t.payments[p].wallet].provider == row.provider
  }

  /**
   Payments first, first + 1, ... are those of the disbursement, one per instruction and each for another receiver.
   */
  ghost predicate PaysEachOnce(t: Tables, u: Upload, row: Disbursement, first: Id) {
    && (forall p :: p in PaymentsOf(t.payments, u.disbursement) <==> first <= p < first + |u.instructions|)
    && (forall k | 0 <= k < |u.instructions| :: Pays(t, row, u.instructions[k], first + k))
    && (forall k, p | 0 <= k < |u.instructions| && first <= p < first + |u.instructions| ::
        Pays(t, row, u.instructions[k], p) ==> p == first + k)
    && (forall p, q | first <= p < q < first + |u.instructions| ::
          p in t.payments && q in t.payments && t.payments[p].receiver != t.payments[q].receiver)
  }

  lemma DraftOfOwner(u: Upload, row: Disbursement, owners: seq<Id>, walletIds: seq<Id>, now: int, first: Id, k: nat)
    requires |owners| == |walletIds| == |u.instructions| && k < |owners|
    ensures first + k in Numbered(first, DraftsFor(u, row, owners, walletIds, now))
    ensures Numbered(first, DraftsFor(u, row, owners, walletIds, now))[first + k]
            == DraftFor(u, row, k, owners[k], walletIds[k], now)
  {
  }

  lemma UploadPays(s: Tables, u: Upload, row: Disbursement, after: Tables, owners: seq<Id>, walletIds: seq<Id>,
                   first: Id, k: nat)
    requires ReceiversUploaded(s, u, after, owners, first)
             && WalletsUploaded(s, u, row, after, owners, walletIds, first)
    requires RowsOf(after.payments, u.disbursement) == Numbered(first, DraftsFor(u, row, owners, walletIds, s.now))
    requires k < |u.instructions|
    ensures Pays(after, row, u.instructions[k], first + k) && after.payments[first + k].receiver == owners[k]
  {
    DraftOfOwner(u, row, owners, walletIds, s.now, first, k);
    UploadedSameOwners(s, u, row, after, owners, walletIds, first);
    assert RowsOf(after.payments, u.disbursement)[first + k] == after.payments[first + k];
  }

  lemma OnlyItsOwn(t: Tables, row: Disbursement, i: Instruction, p: Id, q: Id)
    requires ReceiversConsistent(t.receivers) && Pays(t, row, i, p) && Pays(t, row, i, q)
    ensures t.payments[p].receiver == t.payments[q].receiver
  {
  }

  lemma ReceiversApart(t: Tables, u: Upload, row: Disbursement, owners: seq<Id>, first: Id)
    requires |owners| == |u.instructions| && Distinct(owners) && ReceiversConsistent(t.receivers)
    requires forall k | 0 <= k < |owners| ::
               Pays(t, row, u.instructions[k], first + k) && t.payments[first + k].receiver == owners[k]
    ensures forall p, q | first <= p < q < first + |owners| ::
              p in t.payments && q in t.payments && t.payments[p].receiver != t.payments[q].receiver
    ensures forall k, p | 0 <= k < |owners| && first <= p < first + |owners| :: Pays(t, row, u.instructions[k], p) ==>
            p == first + k
  {
    forall p, q | first <= p < q < first + |owners|
      ensures p in t.payments && q in t.payments && t.payments[p].receiver != t.payments[q].receiver
    {
      assert Pays(t, row, u.instructions[p - first], first + (p - first));
      assert Pays(t, row, u.instructions[q - first], first + (q - first));
      assert owners[p - first] != owners[q - first];
    }
    forall k, p | 0 <= k < |owners| && first <= p < first + |owners| && Pays(t, row, u.instructions[k], p)
      ensures p == first + k
    {
      OnlyItsOwn(t, row, u.instructions[k], p, first + k);
      assert t.payments[first + (p - first)].receiver == owners[p - first];
    }
  }

  lemma UploadPaysEachOnce(s: Tables, u: Upload, row: Disbursement, after: Tables, owners: seq<Id>, walletIds: seq<Id>,
                           first: Id)
    requires ReceiversUploaded(s, u, after, owners, first)
             && WalletsUploaded(s, u, row, after, owners, walletIds, first)
    requires RowsOf(after.payments, u.disbursement) == Numbered(first, DraftsFor(u, row, owners, walletIds, s.now))
    requires ReceiversConsistent(after.receivers)
    ensures PaysEachOnce(after, u, row, first)
  {
    assert forall p :: p in PaymentsOf(after.payments, u.disbursement) <==> p in RowsOf(after.payments, u.disbursement);
    forall k | 0 <= k < |u.instructions|
      ensures Pays(after, row, u.instructions[k], first + k) && after.payments[first + k].receiver == owners[k]
    {
      UploadPays(s, u, row, after, owners, walletIds, first, k);
    }
    ReceiversApart(after, u, row, owners, first);
  }

  /**
   A successful upload leaves the disbursement with one payment per instruction: for the receiver the instruction's
   contact names, through that receiver's wallet of the provider, with the instruction's amount. No other instruction
   leads to that payment, and no two payments have the same receiver.
   */
  lemma EachReceiverPaidOnce(states: seq<Tables>, events: seq<Event>, i: nat, u: Upload, after: Tables)
    requires IsRun(states, events) && i < |states| && Uploaded(states[i], u, after)
    ensures u.disbursement in states[i].disbursements
    ensures exists first :: PaysEachOnce(after, u, states[i].disbursements[u.disbursement], first)
  {
    var s := states[i];
    var owners, walletIds, first: Id :| UploadedTo(s, u, after, owners, walletIds, first);
    var row := s.disbursements[u.disbursement];
    InvAlways(states, events, i);
    ReuploadReplacesEverything(states, events, i, u, row, after, owners, walletIds, first);
    UploadPaysEachOnce(s, u, row, after, owners, walletIds, first);
  }

  // ---------- in every reachable state ----------

  ghost predicate PaysNobodyTwice(ps: map<Id, Payment>) {
    forall p, q | p in ps && q in ps && p != q && ps[p].disbursement == ps[q].disbursement
      && ps[p].disbursement.Some? ::
      ps[p].receiver != ps[q].receiver
  }

  /** Every payment of a disbursement was there before, of the same disbursement and for the same receiver. */
  ghost predicate SamePayees(ps: map<Id, Payment>, ps': map<Id, Payment>) {
    forall p | p in ps' && ps'[p].disbursement.Some? ::
      p in ps && ps'[p].disbursement == ps[p].disbursement && ps'[p].receiver == ps[p].receiver
  }

  lemma SamePayeesOk(ps: map<Id, Payment>, ps': map<Id, Payment>)
    requires PaysNobodyTwice(ps) && SamePayees(ps, ps')
    ensures PaysNobodyTwice(ps')
  {
  }

  lemma StartKeepsPayees(s: Tables, d: Id)
    ensures SamePayees(s.payments, Started(s, d).payments)
  {
  }

  lemma DispatchKeepsPayees(s: Tables, batch: set<Id>)
    ensures SamePayees(s.payments, Dispatched(s, batch).payments)
  {
  }

  lemma SyncKeepsPayees(s: Tables, id: Id, succeeded: bool, tx: string)
    ensures SamePayees(s.payments, Synced(s, id, succeeded, tx).payments)
  {
  }

  lemma MoveEventKeepsPayees(s: Tables, e: Event, s': Tables)
    requires MovesAlone(e) && Step(s, e, s')
    ensures SamePayees(s.payments, s'.payments)
  {
    if s' != s { MoveEventIsMoveIn(s, e, s'); }
  }

  lemma PaymentEventKeepsPayees(s: Tables, e: Event, s': Tables)
    requires PaymentEvent(e) && !MovesAlone(e) && Step(s, e, s')
    ensures SamePayees(s.payments, s'.payments)
  {
    match e
    case StartDisbursement(d) => StartKeepsPayees(s, d);
    case SendBatch(size, batch) => if IsBatch(s, size, batch) { DispatchKeepsPayees(s, Elements(batch)); }
    case SyncPayment(id, succeeded, tx) => SyncKeepsPayees(s, id, succeeded, tx);
    case PauseDisbursement(_) =>
    case DeleteDisbursement(_) =>
    case CompleteIfNecessary =>
    case CreateDirectPayment(_, _, _) =>
  }

  lemma StepKeepsPayees(s: Tables, e: Event, s': Tables)
    requires Step(s, e, s') && !e.UploadInstructions?
    ensures SamePayees(s.payments, s'.payments)
  {
    if MovesAlone(e) {
      MoveEventKeepsPayees(s, e, s');
    } else if PaymentEvent(e) {
      PaymentEventKeepsPayees(s, e, s');
    } else if WalletEvent(e) {
      WalletEventLeaves(s, e, s');
    }
  }

  lemma ReplacedPayees(kept: map<Id, Payment>, drafts: map<Id, Payment>, d: Id)
    requires PaysNobodyTwice(kept) && PaysNobodyTwice(drafts)
    requires forall p | p in kept :: kept[p].disbursement != Some(d)
    requires forall p | p in drafts :: drafts[p].disbursement == Some(d)
    ensures PaysNobodyTwice(kept + drafts)
  {
  }

  lemma DraftsPayNobodyTwice(u: Upload, row: Disbursement, owners: seq<Id>, walletIds: seq<Id>, now: int, first: Id)
    requires |owners| == |walletIds| == |u.instructions| && Distinct(owners)
    ensures PaysNobodyTwice(Numbered(first, DraftsFor(u, row, owners, walletIds, now)))
  {
  }

  lemma UploadPaysNobodyTwice(s: Tables, u: Upload, row: Disbursement, s': Tables, owners: seq<Id>, walletIds: seq<Id>,
                              first: Id)
    requires PaymentsOf(WithoutDrafts(s.payments, u.disbursement), u.disbursement) == {}
    requires PaysNobodyTwice(s.payments) && Distinct(owners)
    requires PaymentsUploaded(s, u, row, s', owners, walletIds, first)
    ensures PaysNobodyTwice(s'.payments)
  {
    var kept := WithoutDrafts(s.payments, u.disbursement);
    forall p | p in kept ensures kept[p].disbursement != Some(u.disbursement) {
      assert p !in PaymentsOf(kept, u.disbursement);
    }
    DraftsPayNobodyTwice(u, row, owners, walletIds, s.now, first);
    ReplacedPayees(kept, Numbered(first, DraftsFor(u, row, owners, walletIds, s.now)), u.disbursement);
  }

  /** In every reachable state, a disbursement has at most one payment for each receiver. */
  lemma {:induction false} NobodyIsPaidTwice(states: seq<Tables>, events: seq<Event>, i: nat)
    requires IsRun(states, events) && i < |states|
    ensures PaysNobodyTwice(states[i].payments)
  {
    if i > 0 {
      NobodyIsPaidTwice(states, events, i - 1);
      StepPaysNobodyTwice(states, events, i - 1, i);
    }
  }

  lemma StepPaysNobodyTwice(states: seq<Tables>, events: seq<Event>, i: nat, j: nat)
    requires IsRun(states, events) && j == i + 1 < |states| && PaysNobodyTwice(states[i].payments)
    ensures PaysNobodyTwice(states[j].payments)
  {
    var s, e, s' := states[i], events[i], states[j];
    InvAlways(states, events, i);
    if !e.UploadInstructions? {
      StepKeepsPayees(s, e, s');
      SamePayeesOk(s.payments, s'.payments);
    } else if s' != s {
      var owners, walletIds, first :| UploadedTo(s, e.upload, s', owners, walletIds, first);
      NothingSurvivesReupload(s, e.upload.disbursement);
      UploadPaysNobodyTwice(s, e.upload, s.disbursements[e.upload.disbursement], s', owners, walletIds, first);
    }
  }
}
