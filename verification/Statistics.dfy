/**
 Payment statistics: the aggregate queries agree with the rows, with each other and with the life of a disbursement.
 */
module Statistics {
  import opened Statuses
  import opened Tables
  import opened Lifecycle
  import opened Invariants
  import opened Runs

  datatype Stats = Stats(total: int, sent: int, failed: int, canceled: int, remaining: int, disbursed: int,
                         totalAmount: int)

  const ZERO := Stats(0, 0, 0, 0, 0, 0, 0)

  function Plus(a: Stats, b: Stats): Stats {
    Stats(a.total + b.total, a.sent + b.sent, a.failed + b.failed, a.canceled + b.canceled, a.remaining + b.remaining,
          a.disbursed + b.disbursed, a.totalAmount + b.totalAmount)
  }

  function One(condition: bool): int { if condition then 1 else 0 }

  // What one row adds to each sum of the query.
  function Each(p: Payment): int { 1 }
  function IsSent(p: Payment): int { One(p.status == SuccessPayment) }
  function IsFailed(p: Payment): int { One(p.status == FailedPayment) }
  function IsCanceled(p: Payment): int { One(p.status == CanceledPayment) }
  function IsRemaining(p: Payment): int { One(p.status in {DraftPayment, ReadyPayment, PendingPayment, PausedPayment}) }
  function AmountSent(p: Payment): int { if p.status == SuccessPayment then p.amount else 0 }
  function Amount(p: Payment): int { p.amount }

  ghost function Sum(ps: map<Id, Payment>, f: Payment -> int): int {
    if ps == map[] then 0
    else
      var k :| k in ps;
      f(ps[k]) + Sum(ps - {k}, f)
  }

  /** The sums over a set of rows. */
  ghost function StatsOf(ps: map<Id, Payment>): Stats {
    Stats(Sum(ps, Each), Sum(ps, IsSent), Sum(ps, IsFailed), Sum(ps, IsCanceled), Sum(ps, IsRemaining),
          Sum(ps, AmountSent), Sum(ps, Amount))
  }

  function RowStats(p: Payment): Stats {
    Stats(Each(p), IsSent(p), IsFailed(p), IsCanceled(p), IsRemaining(p), AmountSent(p), Amount(p))
  }

  /** Rows may be taken out in any order. */
  lemma {:induction false} SumTake(ps: map<Id, Payment>, f: Payment -> int, k: Id)
    requires k in ps
    ensures Sum(ps, f) == f(ps[k]) + Sum(ps - {k}, f)
    decreases |ps|
  {
    var first :| first in ps && Sum(ps, f) == f(ps[first]) + Sum(ps - {first}, f);
    if first != k {
      SumTake(ps - {first}, f, k);
      SumTake(ps - {k}, f, first);
      assert (ps - {first}) - {k} == (ps - {k}) - {first};
    }
  }

  lemma SumPut(ps: map<Id, Payment>, f: Payment -> int, k: Id, p: Payment)
    requires k !in ps
    ensures Sum(ps[k := p], f) == Sum(ps, f) + f(p)
  {
    SumTake(ps[k := p], f, k);
    assert ps[k := p] - {k} == ps;
  }

  lemma JoinWithout(a: map<Id, Payment>, b: map<Id, Payment>, k: Id)
    requires a.Keys !! b.Keys && k in b
    ensures (a + b) - {k} == a + (b - {k}) && (a + b)[k] == b[k] && k in a + b
  {
  }

  lemma {:induction false} SumJoin(a: map<Id, Payment>, b: map<Id, Payment>, f: Payment -> int)
    requires a.Keys !! b.Keys
    ensures Sum(a + b, f) == Sum(a, f) + Sum(b, f)
    decreases |b|
  {
    if b == map[] {
      assert a + b == a;
    } else {
      var k :| k in b;
      JoinWithout(a, b, k);
      SumJoin(a, b - {k}, f);
      SumTake(a + b, f, k);
      SumTake(b, f, k);
    }
  }

  lemma {:induction false} SumSame(ps: map<Id, Payment>, qs: map<Id, Payment>, f: Payment -> int)
    requires ps.Keys == qs.Keys && forall k | k in ps :: f(qs[k]) == f(ps[k])
    ensures Sum(qs, f) == Sum(ps, f)
    decreases |ps|
  {
    if ps != map[] {
      var k :| k in ps;
      SumTake(ps, f, k);
      SumTake(qs, f, k);
      SumSame(ps - {k}, qs - {k}, f);
    }
  }

  lemma {:induction false} SumZero(ps: map<Id, Payment>, f: Payment -> int)
    requires forall k | k in ps :: f(ps[k]) == 0
    ensures Sum(ps, f) == 0
    decreases |ps|
  {
    if ps != map[] {
      var k :| k in ps;
      SumTake(ps, f, k);
      SumZero(ps - {k}, f);
    }
  }

  lemma {:induction false} SumAtMost(ps: map<Id, Payment>, f: Payment -> int, g: Payment -> int)
    requires forall k | k in ps :: 0 <= f(ps[k]) <= g(ps[k])
    ensures 0 <= Sum(ps, f) <= Sum(ps, g)
    decreases |ps|
  {
    if ps != map[] {
      var k :| k in ps;
      SumTake(ps, f, k);
      SumTake(ps, g, k);
      SumAtMost(ps - {k}, f, g);
    }
  }

  lemma StatsPut(ps: map<Id, Payment>, k: Id, p: Payment)
    requires k !in ps
    ensures StatsOf(ps[k := p]) == Plus(StatsOf(ps), RowStats(p))
  {
    SumPut(ps, Each, k, p);
    SumPut(ps, IsSent, k, p);
    SumPut(ps, IsFailed, k, p);
    SumPut(ps, IsCanceled, k, p);
    SumPut(ps, IsRemaining, k, p);
    SumPut(ps, AmountSent, k, p);
    SumPut(ps, Amount, k, p);
  }

  lemma SumsJoin(a: map<Id, Payment>, b: map<Id, Payment>)
    requires a.Keys !! b.Keys
    ensures Sum(a + b, Each) == Sum(a, Each) + Sum(b, Each)
    ensures Sum(a + b, IsSent) == Sum(a, IsSent) + Sum(b, IsSent)
    ensures Sum(a + b, IsFailed) == Sum(a, IsFailed) + Sum(b, IsFailed)
    ensures Sum(a + b, IsCanceled) == Sum(a, IsCanceled) + Sum(b, IsCanceled)
    ensures Sum(a + b, IsRemaining) == Sum(a, IsRemaining) + Sum(b, IsRemaining)
    ensures Sum(a + b, AmountSent) == Sum(a, AmountSent) + Sum(b, AmountSent)
    ensures Sum(a + b, Amount) == Sum(a, Amount) + Sum(b, Amount)
  {
    SumJoin(a, b, Each);
    SumJoin(a, b, IsSent);
    SumJoin(a, b, IsFailed);
    SumJoin(a, b, IsCanceled);
    SumJoin(a, b, IsRemaining);
    SumJoin(a, b, AmountSent);
    SumJoin(a, b, Amount);
  }

  lemma StatsAddUp(all: map<Id, Payment>, a: map<Id, Payment>, b: map<Id, Payment>)
    requires Sum(all, Each) == Sum(a, Each) + Sum(b, Each) && Sum(all, IsSent) == Sum(a, IsSent) + Sum(b, IsSent)
    requires Sum(all, IsFailed) == Sum(a, IsFailed) + Sum(b, IsFailed)
    requires Sum(all, IsCanceled) == Sum(a, IsCanceled) + Sum(b, IsCanceled)
    requires Sum(all, IsRemaining) == Sum(a, IsRemaining) + Sum(b, IsRemaining)
    requires Sum(all, AmountSent) == Sum(a, AmountSent) + Sum(b, AmountSent)
             && Sum(all, Amount) == Sum(a, Amount) + Sum(b, Amount)
    ensures StatsOf(all) == Plus(StatsOf(a), StatsOf(b))
  {
  }

  lemma StatsJoin(a: map<Id, Payment>, b: map<Id, Payment>)
    requires a.Keys !! b.Keys
    ensures StatsOf(a + b) == Plus(StatsOf(a), StatsOf(b))
  {
    SumsJoin(a, b);
    StatsAddUp(a + b, a, b);
  }

  // ---------- the query and the scan ----------

  /** The groups after some rows have been scanned. */
  ghost predicate Grouped(statistics: map<Id, Stats>, seen: map<Id, Payment>) {
    && (forall d: Id :: d in statistics <==> RowsOf(seen, d) != map[])
    && (forall d | d in statistics :: statistics[d] == StatsOf(RowsOf(seen, d)))
  }

  lemma OtherGroups(seen: map<Id, Payment>, id: Id, p: Payment)
    requires id !in seen
    ensures forall d: Id | p.disbursement != Some(d) :: RowsOf(seen[id := p], d) == RowsOf(seen, d)
  {
  }

  lemma OwnGroup(statistics: map<Id, Stats>, seen: map<Id, Payment>, id: Id, p: Payment, d: Id)
    requires Grouped(statistics, seen) && id !in seen && p.disbursement == Some(d)
    ensures RowsOf(seen[id := p], d) != map[]
    ensures StatsOf(RowsOf(seen[id := p], d)) == Plus(if d in statistics then statistics[d] else ZERO, RowStats(p))
  {
    StatsPut(RowsOf(seen, d), id, p);
    assert RowsOf(seen[id := p], d) == RowsOf(seen, d)[id := p];
  }

  lemma GroupedStep(statistics: map<Id, Stats>, seen: map<Id, Payment>, id: Id, p: Payment)
    requires Grouped(statistics, seen) && id !in seen
    ensures p.disbursement.None? ==> Grouped(statistics, seen[id := p])
    ensures p.disbursement.Some? ==>
              var d := p.disbursement.value;
              Grouped(statistics[d := Plus(if d in statistics then statistics[d] else ZERO, RowStats(p))],
                      seen[id := p])
  {
    OtherGroups(seen, id, p);
    if p.disbursement.Some? { OwnGroup(statistics, seen, id, p, p.disbursement.value); }
  }

  /** GROUP BY disbursement_id, row by row in any order. */
  method GroupByDisbursement(payments: map<Id, Payment>) returns (statistics: map<Id, Stats>)
    ensures Grouped(statistics, payments)
  {
    statistics := map[];
    var todo := payments.Keys;
    ghost var seen: map<Id, Payment> := map[];
    while todo != {}
      invariant todo <= payments.Keys && seen == payments - todo
      invariant Grouped(statistics, seen)
    {
      var id :| id in todo;
      GroupedStep(statistics, seen, id, payments[id]);
      if payments[id].disbursement.Some? {
        var d := payments[id].disbursement.value;
        statistics := statistics[d := Plus(if d in statistics then statistics[d] else ZERO, RowStats(payments[id]))];
      }
      seen := seen[id := payments[id]];
      todo := todo - {id};
      assert seen == payments - todo;
    }
    assert seen == payments;
  }

  /** Hands each disbursement its group; one without payments gets none. */
  method PopulateStatistics(payments: map<Id, Payment>, disbursements: seq<Id>) returns (stats: seq<Option<Stats>>)
    ensures |stats| == |disbursements|
    ensures forall i | 0 <= i < |stats| ::
              stats[i] == if RowsOf(payments, disbursements[i]) == map[] then None
                          else Some(StatsOf(RowsOf(payments, disbursements[i])))
  {
    var statistics := GroupByDisbursement(payments);
    stats := [];
    for i := 0 to |disbursements|
      invariant |stats| == i
      invariant forall j | 0 <= j < i ::
                  stats[j] == if disbursements[j] in statistics then Some(statistics[disbursements[j]]) else None
    {
      stats := stats + [if disbursements[i] in statistics then Some(statistics[disbursements[i]]) else None];
    }
  }

  // ---------- agreement with the rows ----------

  /** The four counts partition the rows, and no more is disbursed than the total when amounts are valid. */
  lemma CountsPartition(ps: map<Id, Payment>)
    ensures var s := StatsOf(ps);
            && s.total == |ps|
            && s.sent + s.failed + s.canceled + s.remaining == s.total
            && 0 <= s.sent <= s.total && 0 <= s.failed <= s.total && 0 <= s.canceled <= s.total
               && 0 <= s.remaining <= s.total
            && ((forall k | k in ps :: ValidAmount(ps[k].amount)) ==> 0 <= s.disbursed <= s.totalAmount)
  {
    CountsAddUp(ps);
    SumAtMost(ps, IsSent, Each);
    SumAtMost(ps, IsFailed, Each);
    SumAtMost(ps, IsCanceled, Each);
    SumAtMost(ps, IsRemaining, Each);
    if forall k | k in ps :: ValidAmount(ps[k].amount) { SumAtMost(ps, AmountSent, Amount); }
  }

  lemma {:induction false} CountsAddUp(ps: map<Id, Payment>)
    ensures Sum(ps, Each) == |ps|
    ensures Sum(ps, IsSent) + Sum(ps, IsFailed) + Sum(ps, IsCanceled) + Sum(ps, IsRemaining) == |ps|
    decreases |ps|
  {
    if ps != map[] {
      var k :| k in ps;
      CountsAddUp(ps - {k});
      SumTake(ps, Each, k);
      SumTake(ps, IsSent, k);
      SumTake(ps, IsFailed, k);
      SumTake(ps, IsCanceled, k);
      SumTake(ps, IsRemaining, k);
      assert (ps - {k}).Keys == ps.Keys - {k};
    }
  }

  /** Summing one figure over all rows is summing the other over the rows that it counts. */
  lemma {:induction false} SumOverCounted(ps: map<Id, Payment>, f: Payment -> int, qs: map<Id, Payment>,
                                          g: Payment -> int)
    requires forall k | k in qs :: k in ps && qs[k] == ps[k] && f(ps[k]) == g(ps[k])
    requires forall k | k in ps && k !in qs :: f(ps[k]) == 0
    ensures Sum(ps, f) == Sum(qs, g)
    decreases |ps|
  {
    if ps == map[] {
      assert qs == map[];
    } else {
      var k :| k in ps;
      SumTake(ps, f, k);
      SumOverCounted(ps - {k}, f, qs - {k}, g);
      if k in qs { SumTake(qs, g, k); } else { assert qs - {k} == qs; }
    }
  }

  lemma {:induction false} SumOfOnes(ps: map<Id, Payment>, f: Payment -> int)
    requires forall k | k in ps :: f(ps[k]) == 1
    ensures Sum(ps, f) == |ps.Keys|
    decreases |ps|
  {
    if ps != map[] {
      var k :| k in ps;
      SumTake(ps, f, k);
      SumOfOnes(ps - {k}, f);
      assert (ps - {k}).Keys == ps.Keys - {k};
    }
  }

  lemma CountOf(ps: map<Id, Payment>, f: Payment -> int, counted: set<Id>)
    requires counted <= ps.Keys
    requires forall k | k in ps :: f(ps[k]) == if k in counted then 1 else 0
    ensures Sum(ps, f) == |counted|
  {
    var rows := map k | k in counted :: ps[k];
    SumOverCounted(ps, f, rows, f);
    SumOfOnes(rows, f);
    assert rows.Keys == counted;
  }

  /** The payments of a disbursement that have one of the statuses. */
  function With(ps: map<Id, Payment>, d: Id, statuses: set<PaymentStatus>): map<Id, Payment> {
    map k | k in ps && ps[k].disbursement == Some(d) && ps[k].status in statuses :: ps[k]
  }

  const EVERY_STATUS := {DraftPayment, ReadyPayment, PendingPayment, PausedPayment, SuccessPayment, FailedPayment,
                         CanceledPayment}

  lemma IsListed(status: PaymentStatus)
    ensures status in EVERY_STATUS
  {
    match status
    case DraftPayment => case ReadyPayment => case PendingPayment => case PausedPayment =>
    case SuccessPayment => case FailedPayment => case CanceledPayment =>
  }

  lemma CountWith(ps: map<Id, Payment>, d: Id, statuses: set<PaymentStatus>, f: Payment -> int)
    requires forall p: Payment :: f(p) == if p.status in statuses then 1 else 0
    ensures Sum(RowsOf(ps, d), f) == |With(ps, d, statuses).Keys|
  {
    CountOf(RowsOf(ps, d), f, With(ps, d, statuses).Keys);
  }

  lemma NumberOfPayments(ps: map<Id, Payment>, d: Id)
    ensures Sum(RowsOf(ps, d), Each) == |With(ps, d, EVERY_STATUS).Keys|
  {
    forall p: Payment ensures p.status in EVERY_STATUS { IsListed(p.status); }
    CountWith(ps, d, EVERY_STATUS, Each);
  }

  lemma NumberRemaining(ps: map<Id, Payment>, d: Id)
    ensures Sum(RowsOf(ps, d), IsRemaining)
            == |With(ps, d, {DraftPayment, ReadyPayment, PendingPayment, PausedPayment}).Keys|
  {
    CountWith(ps, d, {DraftPayment, ReadyPayment, PendingPayment, PausedPayment}, IsRemaining);
  }

  /** The counts of a disbursement: how many payments it has, and how many with which status. */
  lemma CountsOfDisbursement(ps: map<Id, Payment>, d: Id)
    ensures var s := StatsOf(RowsOf(ps, d));
      && s.total == |With(ps, d, EVERY_STATUS).Keys|
      && s.sent == |With(ps, d, {SuccessPayment}).Keys|
      && s.failed == |With(ps, d, {FailedPayment}).Keys|
      && s.canceled == |With(ps, d, {CanceledPayment}).Keys|
      && s.remaining == |With(ps, d, {DraftPayment, ReadyPayment, PendingPayment, PausedPayment}).Keys|
  {
    NumberOfPayments(ps, d);
    CountWith(ps, d, {SuccessPayment}, IsSent);
    CountWith(ps, d, {FailedPayment}, IsFailed);
    CountWith(ps, d, {CanceledPayment}, IsCanceled);
    NumberRemaining(ps, d);
  }

  /** The amounts of a disbursement: of its sent payments, and of all its payments. */
  lemma AmountsOfDisbursement(ps: map<Id, Payment>, d: Id)
    ensures StatsOf(RowsOf(ps, d)).disbursed == Sum(With(ps, d, {SuccessPayment}), (p: Payment) => p.amount)
    ensures StatsOf(RowsOf(ps, d)).totalAmount == Sum(RowsOf(ps, d), (p: Payment) => p.amount)
  {
    SumOverCounted(RowsOf(ps, d), AmountSent, With(ps, d, {SuccessPayment}), (p: Payment) => p.amount);
    SumOverCounted(RowsOf(ps, d), Amount, RowsOf(ps, d), (p: Payment) => p.amount);
  }

  function Selected(ps: map<Id, Payment>, receiver: Id, assets: set<Id>): map<Id, Payment> {
    map k | k in ps && ps[k].receiver == receiver && ps[k].asset in assets :: ps[k]
  }

  /** The outer query: sums the groups of a receiver, one group per asset. */
  ghost function SumOfGroups(ps: map<Id, Payment>, receiver: Id, assets: set<Id>): Stats
    decreases |assets|
  {
    if assets == {} then ZERO
    else
      var a := AnyOf(assets);
      Plus(StatsOf(Selected(ps, receiver, {a})), SumOfGroups(ps, receiver, assets - {a}))
  }

  ghost function AnyOf(assets: set<Id>): (a: Id)
    requires assets != {}
    ensures a in assets
  {
    var a :| a in assets;
    a
  }

  lemma SplitByAsset(ps: map<Id, Payment>, receiver: Id, assets: set<Id>, a: Id)
    requires a in assets
    ensures Selected(ps, receiver, assets) == Selected(ps, receiver, {a}) + Selected(ps, receiver, assets - {a})
    ensures Selected(ps, receiver, {a}).Keys !! Selected(ps, receiver, assets - {a}).Keys
  {
  }

  lemma NothingSelected(ps: map<Id, Payment>, receiver: Id)
    ensures StatsOf(Selected(ps, receiver, {})) == ZERO
  {
  }

  lemma OneGroupMore(ps: map<Id, Payment>, receiver: Id, assets: set<Id>, a: Id)
    requires a in assets
    ensures StatsOf(Selected(ps, receiver, assets))
         == Plus(StatsOf(Selected(ps, receiver, {a})), StatsOf(Selected(ps, receiver, assets - {a})))
  {
    SplitByAsset(ps, receiver, assets, a);
    StatsJoin(Selected(ps, receiver, {a}), Selected(ps, receiver, assets - {a}));
  }

  lemma {:induction false} GroupsAgree(ps: map<Id, Payment>, receiver: Id, assets: set<Id>)
    ensures SumOfGroups(ps, receiver, assets) == StatsOf(Selected(ps, receiver, assets))
    decreases |assets|
  {
    if assets == {} {
      NothingSelected(ps, receiver);
    } else {
      var a := AnyOf(assets);
      GroupsAgree(ps, receiver, assets - {a});
      OneGroupMore(ps, receiver, assets, a);
    }
  }

  function PaidTo(ps: map<Id, Payment>, receiver: Id): map<Id, Payment> {
    map k | k in ps && ps[k].receiver == receiver :: ps[k]
  }

  /** The groups the inner query has for a receiver: one per asset it was paid in. */
  function AssetsPaid(ps: map<Id, Payment>, receiver: Id): set<Id> {
    set k | k in PaidTo(ps, receiver) :: ps[k].asset
  }

  /** Grouping by receiver and asset and summing the groups gives the flat sums over all of the receiver's payments. */
  lemma TwoLevelsAgree(ps: map<Id, Payment>, receiver: Id)
    ensures SumOfGroups(ps, receiver, AssetsPaid(ps, receiver)) == StatsOf(PaidTo(ps, receiver))
  {
    GroupsAgree(ps, receiver, AssetsPaid(ps, receiver));
    assert Selected(ps, receiver, AssetsPaid(ps, receiver)) == PaidTo(ps, receiver);
  }

  // ---------- agreement with the lifecycle ----------

  /** Moving payments between statuses changes no disbursement's number of payments or total amount. */
  lemma MovesConserveTotals(ps: map<Id, Payment>, ids: set<Id>, to: PaymentStatus, now: int, tx: Option<string>, d: Id)
    ensures var before, after := StatsOf(RowsOf(ps, d)), StatsOf(RowsOf(MovePayments(ps, ids, to, now, tx), d));
            after.total == before.total && after.totalAmount == before.totalAmount
  {
    SumSame(RowsOf(ps, d), RowsOf(MovePayments(ps, ids, to, now, tx), d), Each);
    SumSame(RowsOf(ps, d), RowsOf(MovePayments(ps, ids, to, now, tx), d), Amount);
  }

  /** From completion on, the figures of a disbursement are frozen: nothing failed, nothing remaining. */
  lemma CompletedFiguresAreFinal(states: seq<Tables>, events: seq<Event>, i: nat, j: nat, d: Id)
    requires IsRun(states, events) && i <= j < |states|
    requires d in states[i].disbursements && states[i].disbursements[d].status == CompletedDisbursement
    ensures var s := StatsOf(RowsOf(states[j].payments, d));
            && s == StatsOf(RowsOf(states[i].payments, d))
            && s.failed == 0 && s.remaining == 0 && s.sent + s.canceled == s.total
  {
    CompletedForever(states, events, i, j, d);
    SumZero(RowsOf(states[j].payments, d), IsFailed);
    SumZero(RowsOf(states[j].payments, d), IsRemaining);
    CountsPartition(RowsOf(states[j].payments, d));
  }

  function TotalAmount(instructions: seq<Instruction>): int {
    if instructions == [] then 0
      else TotalAmount(instructions[..|instructions| - 1]) + instructions[|instructions| - 1].amount
  }

  lemma {:induction false} DraftTotals(first: Id, drafts: seq<Payment>, instructions: seq<Instruction>)
    requires |drafts| == |instructions|
    requires forall i | 0 <= i < |drafts| ::
               drafts[i].amount == instructions[i].amount && drafts[i].status == DraftPayment
    ensures var s := StatsOf(Numbered(first, drafts));
            s.total == s.remaining == |instructions| && s.totalAmount == TotalAmount(instructions) && s.disbursed == 0
    decreases |drafts|
  {
    if drafts == [] {
      assert Numbered(first, drafts) == map[];
    } else {
      var n := |drafts| - 1;
      DraftTotals(first, drafts[..n], instructions[..n]);
      StatsPut(Numbered(first, drafts[..n]), first + n, drafts[n]);
    }
  }

  /**
   After a successful upload the disbursement has as many payments as the file has instructions, all of them drafts, and
   their amounts add up to the amounts in the file.
   */
  lemma UploadedFiguresMatchTheFile(
    states: seq<Tables>, events: seq<Event>, i: nat, u: Upload, row: Disbursement, after: Tables,
    owners: seq<Id>, walletIds: seq<Id>, first: Id)
    requires IsRun(states, events) && i < |states|
    requires u.disbursement in states[i].disbursements && row == states[i].disbursements[u.disbursement]
    requires PaymentsUploaded(states[i], u, row, after, owners, walletIds, first)
    ensures var s := StatsOf(RowsOf(after.payments, u.disbursement));
            && s.total == s.remaining == |u.instructions|
            && s.totalAmount == TotalAmount(u.instructions) && s.disbursed == 0
  {
    ReuploadReplacesEverything(states, events, i, u, row, after, owners, walletIds, first);
    var drafts := DraftsFor(u, row, owners, walletIds, states[i].now);
    forall k | 0 <= k < |drafts|
      ensures drafts[k].amount == u.instructions[k].amount && drafts[k].status == DraftPayment
    {
    }
    DraftTotals(first, drafts, u.instructions);
  }
}
