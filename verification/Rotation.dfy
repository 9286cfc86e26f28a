/** Rotating the distribution account: a list of ledger operations that moves everything to a new account. */
module Rotation {
  import opened Tables

  datatype Asset = Native | Credit(code: string, issuer: string)

  /** Native balance and trustlines; a trustline holds a balance of its asset, possibly zero. */
  datatype Account = OpenAccount(native: real, trustlines: map<Asset, real>)

  type Ledger = map<string, Account>

  datatype Limit = Unlimited | Zero

  datatype Operation =
    | CreateAccount(destination: string, amount: real)
    | ChangeTrust(line: Asset, limit: Limit, sourceAccount: Option<string>)
    | SendPayment(destination: string, asset: Asset, quantity: real)
    | AccountMerge(destination: string)

  const BASE_RESERVE := 0.5

  /** Two base reserves to exist on the ledger and one per trustline. */
  function Reserve(trustlines: nat): real {
    (2 + trustlines) as real * BASE_RESERVE
  }

  // ---------- the ledger's rules ----------

  /** One operation of a transaction with this source account; None when the ledger refuses it. */
  function Apply(l: Ledger, source: string, op: Operation): Option<Ledger> {
    match op
    case CreateAccount(destination, amount) =>
      if source !in l || destination in l || amount < Reserve(0) then None
      else if l[source].native - amount < Reserve(|l[source].trustlines|) then None
      else Some(l[source := l[source].(native := l[source].native - amount)][destination := OpenAccount(amount, map[])])
    case ChangeTrust(line, Unlimited, sourceAccount) =>
      var holder := if sourceAccount.Some? then sourceAccount.value else source;
      if holder !in l || line.Native? then None
      else if line in l[holder].trustlines then Some(l)
      else if l[holder].native < Reserve(|l[holder].trustlines| + 1) then None
      else Some(l[holder := l[holder].(trustlines := l[holder].trustlines[line := 0.0])])
    case ChangeTrust(line, Zero, sourceAccount) =>
      var holder := if sourceAccount.Some? then sourceAccount.value else source;
      if holder !in l || line !in l[holder].trustlines || l[holder].trustlines[line] != 0.0 then None
      else Some(l[holder := l[holder].(trustlines := l[holder].trustlines - {line})])
    case SendPayment(destination, asset, amount) =>
      if source !in l || destination !in l || amount <= 0.0 then None
      else if asset !in l[source].trustlines || asset !in l[destination].trustlines then None
      else if l[source].trustlines[asset] < amount then None
      else
        var taken := l[source := Credited(l[source], asset, -amount)];
        Some(taken[destination := Credited(taken[destination], asset, amount)])
    case AccountMerge(destination) =>
      if source !in l || destination !in l || source == destination || l[source].trustlines != map[] then None
      else Some((l - {source})[destination := l[destination].(native := l[destination].native + l[source].native)])
  }

  function Credited(a: Account, asset: Asset, amount: real): Account
    requires asset in a.trustlines
  {
    a.(trustlines := a.trustlines[asset := a.trustlines[asset] + amount])
  }

  /** A transaction applies all its operations or none. */
  function ApplyAll(l: Ledger, source: string, ops: seq<Operation>): Option<Ledger>
    decreases |ops|
  {
    if ops == [] then Some(l)
    else
      match Apply(l, source, ops[0])
      case None => None
      case Some(next) => ApplyAll(next, source, ops[1..])
  }

  lemma {:induction false} ApplyAllSplit(l: Ledger, source: string, front: seq<Operation>, back: seq<Operation>)
    ensures ApplyAll(l, source, front + back)
         == match ApplyAll(l, source, front) case None => None case Some(mid) => ApplyAll(mid, source, back)
    decreases |front|
  {
    if front == [] {
      assert front + back == back;
    } else {
      assert (front + back)[0] == front[0] && (front + back)[1..] == front[1..] + back;
      var next := Apply(l, source, front[0]);
      if next.Some? { ApplyAllSplit(next.value, source, front[1..], back); }
    }
  }

  // ---------- building the plan ----------

  function CreateAccountOperation(newAccount: string, numberOfTrustlines: int, bootstrapAmount: int): Operation {
    var minimumFundingAmount := 2.0 * BASE_RESERVE + numberOfTrustlines as real * BASE_RESERVE;
    CreateAccount(newAccount, if bootstrapAmount as real >= minimumFundingAmount then bootstrapAmount as real
                  else minimumFundingAmount)
  }

  /** Opens the trustline on the new account, moves the balance when there is one, and closes the old trustline. */
  function TransferSteps(newAccount: string, asset: Asset, balance: real): seq<Operation> {
    [ChangeTrust(asset, Unlimited, Some(newAccount))]
    + (if balance != 0.0 then [SendPayment(newAccount, asset, balance)] else [])
    + [ChangeTrust(asset, Zero, None)]
  }

  function TransfersInOrder(newAccount: string, balances: map<Asset, real>, order: seq<Asset>): seq<Operation>
    requires forall i | 0 <= i < |order| :: order[i] in balances
  {
    if order == [] then []
    else TransferSteps(newAccount, order[0], balances[order[0]]) + TransfersInOrder(newAccount, balances, order[1..])
  }

  lemma {:induction false} TransfersSnoc(newAccount: string, balances: map<Asset, real>, order: seq<Asset>, last: Asset)
    requires last in balances && forall i | 0 <= i < |order| :: order[i] in balances
    ensures TransfersInOrder(newAccount, balances, order + [last])
         == TransfersInOrder(newAccount, balances, order) + TransferSteps(newAccount, last, balances[last])
  {
    if order == [] {
      assert order + [last] == [last];
      assert TransfersInOrder(newAccount, balances, [last][1..]) == [];
    } else {
      assert (order + [last])[1..] == order[1..] + [last];
      TransfersSnoc(newAccount, balances, order[1..], last);
    }
  }

  /** `order` lists the credit assets of the balance map, each once. */
  ghost predicate IsIteration(balances: map<Asset, real>, order: seq<Asset>) {
    && (forall i | 0 <= i < |order| :: order[i] in balances && order[i] != Native)
    && (forall i, j | 0 <= i < j < |order| :: order[i] != order[j])
    && (forall a | a in balances && a != Native :: a in order)
  }

  /** The operations that transfer every credit asset, in some order, and then merge. */
  ghost predicate IsMergePlan(newAccount: string, balances: map<Asset, real>, mergeOps: seq<Operation>) {
    exists order :: IsIteration(balances, order)
                    && mergeOps == TransfersInOrder(newAccount, balances, order) + [AccountMerge(newAccount)]
  }

  /** The loop over the balance map, in whatever order the runtime iterates it. */
  method BuildMergeAccountsOperations(newAccount: string, balances: map<Asset, real>) returns (mergeOps: seq<Operation>)
    ensures IsMergePlan(newAccount, balances, mergeOps)
  {
    mergeOps := [];
    ghost var order: seq<Asset> := [];
    var todo := balances.Keys;
    while todo != {}
      invariant todo <= balances.Keys
      invariant forall i | 0 <= i < |order| :: order[i] in balances && order[i] != Native && order[i] !in todo
      invariant forall i, j | 0 <= i < j < |order| :: order[i] != order[j]
      invariant forall a | a in balances && a != Native && a !in todo :: a in order
      invariant mergeOps == TransfersInOrder(newAccount, balances, order)
    {
      var asset :| asset in todo;
      todo := todo - {asset};
      if asset == Native {
        continue;
      }
      TransfersSnoc(newAccount, balances, order, asset);
      order := order + [asset];
      var before := mergeOps;
      mergeOps := mergeOps + [ChangeTrust(asset, Unlimited, Some(newAccount))];
      if balances[asset] != 0.0 {
        mergeOps := mergeOps + [SendPayment(newAccount, asset, balances[asset])];
      }
      mergeOps := mergeOps + [ChangeTrust(asset, Zero, None)];
      assert mergeOps == before + TransferSteps(newAccount, asset, balances[asset]);
    }
    mergeOps := mergeOps + [AccountMerge(newAccount)];
  }

  // ---------- the plan is correct ----------

  /** The account as the ledger holds it and as the balance query reports it. */
  ghost predicate Reports(a: Account, balances: map<Asset, real>) {
    && Native in balances && balances[Native] == a.native
    && (forall x | x in balances && x != Native :: x in a.trustlines)
    && (forall x | x in a.trustlines :: x != Native && x in balances && balances[x] == a.trustlines[x] >= 0.0)
  }

  /** The ledger with these two accounts in it. */
  function Pair(l: Ledger, source: string, target: string, a: Account, b: Account): Ledger {
    l[source := a][target := b]
  }

  function Without(a: Account, x: Asset): Account {
    a.(trustlines := a.trustlines - {x})
  }

  function Holds(b: Account, x: Asset, balance: real): Account {
    b.(trustlines := b.trustlines[x := balance])
  }

  lemma Opens(l: Ledger, source: string, target: string, a: Account, b: Account, x: Asset)
    requires source != target && x != Native && x !in b.trustlines
    ensures Apply(Pair(l, source, target, a, b), source, ChangeTrust(x, Unlimited, Some(target)))
         == if b.native < Reserve(|b.trustlines| + 1) then None else Some(Pair(l, source, target, a, Holds(b, x, 0.0)))
  {
    assert Pair(l, source, target, a, b)[target := Holds(b, x, 0.0)] == Pair(l, source, target, a, Holds(b, x, 0.0));
  }

  lemma Pays(l: Ledger, source: string, target: string, a: Account, b: Account, x: Asset)
    requires source != target && x in a.trustlines && x in b.trustlines && b.trustlines[x] == 0.0
             && a.trustlines[x] > 0.0
    ensures Apply(Pair(l, source, target, a, b), source, SendPayment(target, x, a.trustlines[x]))
         == Some(Pair(l, source, target, Holds(a, x, 0.0), Holds(b, x, a.trustlines[x])))
  {
    var taken := Pair(l, source, target, a, b)[source := Credited(a, x, -a.trustlines[x])];
    assert taken[target := Credited(b, x, a.trustlines[x])]
        == Pair(l, source, target, Holds(a, x, 0.0), Holds(b, x, a.trustlines[x]));
  }

  lemma Closes(l: Ledger, source: string, target: string, a: Account, b: Account, x: Asset)
    requires source != target && x in a.trustlines && a.trustlines[x] == 0.0
    ensures Apply(Pair(l, source, target, a, b), source, ChangeTrust(x, Zero, None))
         == Some(Pair(l, source, target, Without(a, x), b))
  {
    assert Pair(l, source, target, a, b)[source := Without(a, x)] == Pair(l, source, target, Without(a, x), b);
  }

  lemma ApplyAllOne(l: Ledger, source: string, p: Operation)
    ensures ApplyAll(l, source, [p]) == Apply(l, source, p)
  {
  }

  lemma ApplyAllTwo(l: Ledger, source: string, p: Operation, q: Operation)
    ensures ApplyAll(l, source, [p, q])
         == match Apply(l, source, p) case None => None case Some(m) => Apply(m, source, q)
  {
    assert [p, q][1..] == [q];
    var next := Apply(l, source, p);
    if next.Some? { ApplyAllOne(next.value, source, q); }
  }

  lemma ApplyAllThree(l: Ledger, source: string, o: Operation, p: Operation, q: Operation)
    ensures ApplyAll(l, source, [o, p, q])
         == match Apply(l, source, o) case None => None case Some(m) => ApplyAll(m, source, [p, q])
  {
  }

  /** One asset moves across, or the transaction fails because the new account cannot hold one more trustline. */
  lemma OneTransfer(l: Ledger, source: string, target: string, a: Account, b: Account, x: Asset)
    requires source != target && x != Native && x !in b.trustlines && x in a.trustlines && a.trustlines[x] >= 0.0
    ensures ApplyAll(Pair(l, source, target, a, b), source, TransferSteps(target, x, a.trustlines[x]))
         == if b.native < Reserve(|b.trustlines| + 1) then None
            else Some(Pair(l, source, target, Without(a, x), Holds(b, x, a.trustlines[x])))
  {
    var balance := a.trustlines[x];
    var first, last := ChangeTrust(x, Unlimited, Some(target)), ChangeTrust(x, Zero, None);
    var before := Pair(l, source, target, a, b);
    Opens(l, source, target, a, b, x);
    var b1 := Holds(b, x, 0.0);
    if balance == 0.0 {
      assert TransferSteps(target, x, balance) == [first, last];
      ApplyAllTwo(before, source, first, last);
      Closes(l, source, target, a, b1, x);
    } else {
      var pay := SendPayment(target, x, balance);
      assert TransferSteps(target, x, balance) == [first, pay, last];
      ApplyAllThree(before, source, first, pay, last);
      ApplyAllTwo(Pair(l, source, target, a, b1), source, pay, last);
      Pays(l, source, target, a, b1, x);
      Closes(l, source, target, Holds(a, x, 0.0), Holds(b1, x, balance), x);
      assert Without(Holds(a, x, 0.0), x) == Without(a, x);
      assert Holds(b1, x, balance) == Holds(b, x, balance);
    }
  }

  /** `order` lists different assets that `a` holds and `b` does not, with the balances reported for them. */
  ghost predicate ToMove(a: Account, b: Account, balances: map<Asset, real>, order: seq<Asset>) {
    && (forall i, j | 0 <= i < j < |order| :: order[i] != order[j])
    && (forall i | 0 <= i < |order| ::
          && order[i] in balances && order[i] != Native && order[i] !in b.trustlines
          && order[i] in a.trustlines && a.trustlines[order[i]] == balances[order[i]] >= 0.0)
  }

  function WithoutAll(a: Account, order: seq<Asset>): Account
    decreases |order|
  {
    if order == [] then a else WithoutAll(Without(a, order[0]), order[1..])
  }

  function HoldsAll(b: Account, balances: map<Asset, real>, order: seq<Asset>): Account
    requires forall i | 0 <= i < |order| :: order[i] in balances
    decreases |order|
  {
    if order == [] then b else HoldsAll(Holds(b, order[0], balances[order[0]]), balances, order[1..])
  }

  lemma RestToMove(a: Account, b: Account, balances: map<Asset, real>, order: seq<Asset>)
    requires order != [] && ToMove(a, b, balances, order)
    ensures ToMove(Without(a, order[0]), Holds(b, order[0], balances[order[0]]), balances, order[1..])
  {
  }

  /** The transfers go through exactly when the new account can hold the reserve of the last trustline opened. */
  lemma {:induction false} TransfersApply(l: Ledger, source: string, target: string, a: Account, b: Account,
                                          balances: map<Asset, real>, order: seq<Asset>)
    requires source != target && ToMove(a, b, balances, order)
    ensures ApplyAll(Pair(l, source, target, a, b), source, TransfersInOrder(target, balances, order))
         == if order != [] && b.native < Reserve(|b.trustlines| + |order|) then None
            else Some(Pair(l, source, target, WithoutAll(a, order), HoldsAll(b, balances, order)))
    decreases |order|
  {
    if order != [] {
      var x, rest := order[0], order[1..];
      OneTransfer(l, source, target, a, b, x);
      ApplyAllSplit(Pair(l, source, target, a, b), source, TransferSteps(target, x, balances[x]),
                    TransfersInOrder(target, balances, rest));
      RestToMove(a, b, balances, order);
      TransfersApply(l, source, target, Without(a, x), Holds(b, x, balances[x]), balances, rest);
    }
  }

  lemma {:induction false} WithoutAllKeys(a: Account, order: seq<Asset>)
    ensures WithoutAll(a, order).native == a.native
    ensures forall x :: x in WithoutAll(a, order).trustlines <==> x in a.trustlines && x !in order
    decreases |order|
  {
    if order != [] { WithoutAllKeys(Without(a, order[0]), order[1..]); }
  }

  lemma {:induction false} HoldsAllKeys(b: Account, balances: map<Asset, real>, order: seq<Asset>)
    requires forall i | 0 <= i < |order| :: order[i] in balances
    ensures HoldsAll(b, balances, order).native == b.native
    ensures forall x :: x in HoldsAll(b, balances, order).trustlines <==> x in b.trustlines || x in order
    ensures forall x | x in HoldsAll(b, balances, order).trustlines ::
              HoldsAll(b, balances, order).trustlines[x] == if x in order then balances[x] else b.trustlines[x]
    decreases |order|
  {
    if order != [] { HoldsAllKeys(Holds(b, order[0], balances[order[0]]), balances, order[1..]); }
  }

  /** Funding: the new account appears next to the old one. */
  lemma Funds(l: Ledger, source: string, target: string, funding: real)
    requires source in l && target !in l
    ensures Apply(l, source, CreateAccount(target, funding))
         == if funding < Reserve(0) || l[source].native - funding < Reserve(|l[source].trustlines|) then None
            else Some(Pair(l, source, target, l[source].(native := l[source].native - funding),
                           OpenAccount(funding, map[])))
  {
  }

  lemma Merges(l: Ledger, source: string, target: string, a: Account, b: Account)
    requires source != target && a.trustlines == map[]
    ensures Apply(Pair(l, source, target, a, b), source, AccountMerge(target))
         == Some((l - {source})[target := b.(native := b.native + a.native)])
  {
    assert (Pair(l, source, target, a, b) - {source})[target := b.(native := b.native + a.native)]
        == (l - {source})[target := b.(native := b.native + a.native)];
  }

  /** Moving every asset empties the old account's trustlines and rebuilds them on the new one. */
  lemma EverythingMoves(a: Account, funding: real, balances: map<Asset, real>, order: seq<Asset>)
    requires Reports(a, balances) && IsIteration(balances, order)
    ensures ToMove(a.(native := a.native - funding), OpenAccount(funding, map[]), balances, order)
    ensures WithoutAll(a.(native := a.native - funding), order) == OpenAccount(a.native - funding, map[])
    ensures HoldsAll(OpenAccount(funding, map[]), balances, order) == OpenAccount(funding, a.trustlines)
  {
    WithoutAllKeys(a.(native := a.native - funding), order);
    HoldsAllKeys(OpenAccount(funding, map[]), balances, order);
    assert WithoutAll(a.(native := a.native - funding), order).trustlines == map[];
    assert HoldsAll(OpenAccount(funding, map[]), balances, order).trustlines == a.trustlines;
  }

  lemma TransfersThenMerge(l: Ledger, source: string, target: string, a: Account, funding: real,
                           balances: map<Asset, real>, order: seq<Asset>, ops: seq<Operation>, funded: Ledger)
    requires source != target && Reports(a, balances) && IsIteration(balances, order) && funding >= Reserve(0)
    requires ops == TransfersInOrder(target, balances, order) + [AccountMerge(target)]
    requires funded == Pair(l, source, target, a.(native := a.native - funding), OpenAccount(funding, map[]))
    ensures ApplyAll(funded, source, ops)
         == if funding >= Reserve(|a.trustlines|) then Some((l - {source})[target := a]) else None
  {
    var transfers, merge := TransfersInOrder(target, balances, order), AccountMerge(target);
    var rest, b := a.(native := a.native - funding), OpenAccount(funding, map[]);
    OrderCounts(a, balances, order);
    EverythingMoves(a, funding, balances, order);
    TransfersApply(l, source, target, rest, b, balances, order);
    ApplyAllSplit(Pair(l, source, target, rest, b), source, transfers, [merge]);
    var emptied, filled := OpenAccount(a.native - funding, map[]), OpenAccount(funding, a.trustlines);
    ApplyAllOne(Pair(l, source, target, emptied, filled), source, merge);
    Merges(l, source, target, emptied, filled);
    assert filled.(native := filled.native + emptied.native) == a;
  }

  function Plan(target: string, balances: map<Asset, real>, order: seq<Asset>, funding: real): seq<Operation>
    requires forall i | 0 <= i < |order| :: order[i] in balances
  {
    [CreateAccount(target, funding)] + (TransfersInOrder(target, balances, order) + [AccountMerge(target)])
  }

  /**
   For any iteration order and any funding amount, the plan goes through exactly when the funding covers one reserve per
   trustline of the new account and leaves the old account its own reserve. The old account is then gone and the new one
   holds exactly what it held; otherwise the transaction fails as a whole.
   */
  lemma RotationSucceedsIff(l: Ledger, source: string, target: string, balances: map<Asset, real>, order: seq<Asset>,
                            funding: real)
    requires source in l && target !in l && Reports(l[source], balances) && IsIteration(balances, order)
    ensures ApplyAll(l, source, Plan(target, balances, order, funding))
         == if funding >= Reserve(|l[source].trustlines|)
           && l[source].native - funding >= Reserve(|l[source].trustlines|)
            then Some((l - {source})[target := l[source]]) else None
  {
    var ops := TransfersInOrder(target, balances, order) + [AccountMerge(target)];
    var funded := Pair(l, source, target, l[source].(native := l[source].native - funding),
                       OpenAccount(funding, map[]));
    if funding >= Reserve(0) {
      TransfersThenMerge(l, source, target, l[source], funding, balances, order, ops, funded);
    }
    FundedFirst(l, source, target, ops, funding, funded, Plan(target, balances, order, funding));
  }

  /** The creation is refused, or what the rest of the plan does decides. */
  lemma FundedFirst(l: Ledger, source: string, target: string, ops: seq<Operation>, funding: real, funded: Ledger,
                    plan: seq<Operation>)
    requires source in l && target !in l && plan == [CreateAccount(target, funding)] + ops
    requires funded == Pair(l, source, target, l[source].(native := l[source].native - funding),
                            OpenAccount(funding, map[]))
    requires funding >= Reserve(0) ==>
               ApplyAll(funded, source, ops)
               == if funding >= Reserve(|l[source].trustlines|) then Some((l - {source})[target := l[source]]) else None
    ensures ApplyAll(l, source, plan)
         == if funding >= Reserve(|l[source].trustlines|)
           && l[source].native - funding >= Reserve(|l[source].trustlines|)
            then Some((l - {source})[target := l[source]]) else None
  {
    ApplyAllFirst(l, source, CreateAccount(target, funding), ops);
    Funds(l, source, target, funding);
    assert Reserve(|l[source].trustlines|) >= Reserve(0);
  }

  lemma ApplyAllFirst(l: Ledger, source: string, op: Operation, rest: seq<Operation>)
    ensures ApplyAll(l, source, [op] + rest)
         == match Apply(l, source, op) case None => None case Some(next) => ApplyAll(next, source, rest)
  {
  }

  lemma OrderCounts(a: Account, balances: map<Asset, real>, order: seq<Asset>)
    requires Reports(a, balances) && IsIteration(balances, order)
    ensures |order| == |a.trustlines| == |balances| - 1
    ensures forall x :: x in order <==> x in a.trustlines
  {
    SeqCount(order);
    assert (set x | x in order) == a.trustlines.Keys;
    assert balances.Keys == a.trustlines.Keys + {Native};
    assert |balances.Keys| == |balances| && |a.trustlines.Keys| == |a.trustlines|;
  }

  lemma {:induction false} SeqCount(s: seq<Asset>)
    requires forall i, j | 0 <= i < j < |s| :: s[i] != s[j]
    ensures |set x | x in s| == |s|
  {
    if s != [] {
      SeqCount(s[1..]);
      assert (set x | x in s) == (set x | x in s[1..]) + {s[0]};
      assert s[0] !in (set x | x in s[1..]);
    }
  }

  /**
   The old account is gone and the new one is what it was, when its balance covers both reserves of 1 + n / 2 and the
   bootstrap amount.
   */
  function Rotated(l: Ledger, source: string, target: string, bootstrapAmount: int): Option<Ledger>
    requires source in l
  {
    var n := |l[source].trustlines| as real;
    if l[source].native >= 2.0 + n && l[source].native >= bootstrapAmount as real + 1.0 + n * 0.5
      then Some((l - {source})[target := l[source]]) else None
  }

  /** The service's own funding amount always covers the new account, so only the old account's balance decides. */
  lemma OwnFundingSuffices(l: Ledger, source: string, target: string, balances: map<Asset, real>, order: seq<Asset>,
                           bootstrapAmount: int)
    requires source in l && target !in l && Reports(l[source], balances) && IsIteration(balances, order)
    ensures var funding := CreateAccountOperation(target, |balances| - 1, bootstrapAmount).amount;
            ApplyAll(l, source, Plan(target, balances, order, funding)) == Rotated(l, source, target, bootstrapAmount)
  {
    OrderCounts(l[source], balances, order);
    RotationSucceedsIff(l, source, target, balances, order,
                        CreateAccountOperation(target, |balances| - 1, bootstrapAmount).amount);
  }

  /**
   The whole operation list: fund the new account, move the assets, merge the old account away. On every ledger whose
   old account has the reported balances it goes through exactly when that account can pay the funding and keep its own
   reserve, and then the new account holds exactly what the old one held.
   */
  method RotationOperations(newAccount: string, balances: map<Asset, real>,
                            bootstrapAmount: int) returns (operations: seq<Operation>)
    ensures forall l: Ledger, source: string | source in l && newAccount !in l && Reports(l[source], balances) ::
              ApplyAll(l, source, operations) == Rotated(l, source, newAccount, bootstrapAmount)
  {
    var numberOfTrustlines := |balances| - 1;
    operations := [CreateAccountOperation(newAccount, numberOfTrustlines, bootstrapAmount)];
    var mergeOps := BuildMergeAccountsOperations(newAccount, balances);
    forall l: Ledger, source: string | source in l && newAccount !in l && Reports(l[source], balances)
      ensures ApplyAll(l, source, operations + mergeOps) == Rotated(l, source, newAccount, bootstrapAmount)
    {
      var order :| IsIteration(balances, order)
        && mergeOps == TransfersInOrder(newAccount, balances, order) + [AccountMerge(newAccount)];
      OwnFundingSuffices(l, source, newAccount, balances, order, bootstrapAmount);
    }
    operations := operations + mergeOps;
  }

  // ---------- conservation ----------

  function Holding(a: Account, asset: Asset): real {
    if asset == Native then a.native else if asset in a.trustlines then a.trustlines[asset] else 0.0
  }

  ghost function Total(l: Ledger, asset: Asset): real {
    if l == map[] then 0.0
    else
      var k :| k in l;
      Holding(l[k], asset) + Total(l - {k}, asset)
  }

  /** The sum does not depend on the order in which accounts are taken out. */
  lemma {:induction false} TotalTake(l: Ledger, asset: Asset, k: string)
    requires k in l
    ensures Total(l, asset) == Holding(l[k], asset) + Total(l - {k}, asset)
    decreases |l|
  {
    var first :| first in l && Total(l, asset) == Holding(l[first], asset) + Total(l - {first}, asset);
    if first != k {
      TotalTake(l - {first}, asset, k);
      TotalTake(l - {k}, asset, first);
      assert (l - {first}) - {k} == (l - {k}) - {first};
    }
  }

  lemma TotalSet(l: Ledger, asset: Asset, k: string, a: Account)
    ensures Total(l[k := a], asset) == Total(l - {k}, asset) + Holding(a, asset)
  {
    TotalTake(l[k := a], asset, k);
    assert l[k := a] - {k} == l - {k};
  }

  lemma TotalChange(l: Ledger, asset: Asset, k: string, a: Account)
    requires k in l
    ensures Total(l[k := a], asset) == Total(l, asset) - Holding(l[k], asset) + Holding(a, asset)
  {
    TotalSet(l, asset, k, a);
    TotalTake(l, asset, k);
  }

  /** No account's trustlines include the native asset. */
  ghost predicate NativeApart(l: Ledger) {
    forall k | k in l :: Native !in l[k].trustlines
  }

  lemma CreateConserves(l: Ledger, source: string, destination: string, a: Account, b: Account, asset: Asset)
    requires source in l && destination !in l && Holding(a, asset) + Holding(b, asset) == Holding(l[source], asset)
    ensures Total(l[source := a][destination := b], asset) == Total(l, asset)
  {
    TotalChange(l, asset, source, a);
    TotalSet(l[source := a], asset, destination, b);
    assert l[source := a] - {destination} == l[source := a];
  }

  lemma PaymentConserves(l: Ledger, source: string, destination: string, x: Asset, amount: real, asset: Asset)
    requires source in l && destination in l && x in l[source].trustlines && x in l[destination].trustlines
             && x != Native
    ensures var taken := l[source := Credited(l[source], x, -amount)];
            Total(taken[destination := Credited(taken[destination], x, amount)], asset) == Total(l, asset)
  {
    var taken := l[source := Credited(l[source], x, -amount)];
    TotalChange(l, asset, source, taken[source]);
    TotalChange(taken, asset, destination, Credited(taken[destination], x, amount));
  }

  lemma MergeConserves(l: Ledger, source: string, destination: string, asset: Asset)
    requires source in l && destination in l && source != destination && l[source].trustlines == map[]
    ensures Total((l - {source})[destination := l[destination].(native := l[destination].native + l[source].native)],
                  asset)
         == Total(l, asset)
  {
    TotalTake(l, asset, source);
    TotalChange(l - {source}, asset, destination, l[destination].(native := l[destination].native + l[source].native));
  }

  lemma TrustConserves(l: Ledger, source: string, op: Operation, asset: Asset)
    requires op.ChangeTrust? && Apply(l, source, op).Some? && NativeApart(l)
    ensures Total(Apply(l, source, op).value, asset) == Total(l, asset)
  {
    var holder := if op.sourceAccount.Some? then op.sourceAccount.value else source;
    var after := Apply(l, source, op).value[holder];
    TotalChange(l, asset, holder, after);
    assert Holding(after, asset) == Holding(l[holder], asset);
    assert Apply(l, source, op).value == l[holder := after];
  }

  lemma KeepsNativeApart(l: Ledger, source: string, op: Operation)
    requires Apply(l, source, op).Some? && NativeApart(l)
    ensures NativeApart(Apply(l, source, op).value)
  {
  }

  lemma CreationConserves(l: Ledger, source: string, op: Operation, asset: Asset)
    requires op.CreateAccount? && Apply(l, source, op).Some?
    ensures Total(Apply(l, source, op).value, asset) == Total(l, asset)
  {
    CreateConserves(l, source, op.destination, l[source].(native := l[source].native - op.amount),
                    OpenAccount(op.amount, map[]), asset);
  }

  lemma SendingConserves(l: Ledger, source: string, op: Operation, asset: Asset)
    requires op.SendPayment? && Apply(l, source, op).Some? && NativeApart(l)
    ensures Total(Apply(l, source, op).value, asset) == Total(l, asset)
  {
    PaymentConserves(l, source, op.destination, op.asset, op.quantity, asset);
  }

  lemma MergingConserves(l: Ledger, source: string, op: Operation, asset: Asset)
    requires op.AccountMerge? && Apply(l, source, op).Some?
    ensures Total(Apply(l, source, op).value, asset) == Total(l, asset)
  {
    MergeConserves(l, source, op.destination, asset);
  }

  /** No operation the ledger accepts creates or destroys any amount of any asset. */
  lemma ApplyConserves(l: Ledger, source: string, op: Operation, asset: Asset)
    requires Apply(l, source, op).Some? && NativeApart(l)
    ensures Total(Apply(l, source, op).value, asset) == Total(l, asset)
  {
    match op
    case CreateAccount(_, _) => CreationConserves(l, source, op, asset);
    case ChangeTrust(_, _, _) => TrustConserves(l, source, op, asset);
    case SendPayment(_, _, _) => SendingConserves(l, source, op, asset);
    case AccountMerge(_) => MergingConserves(l, source, op, asset);
  }

  lemma {:induction false} TransactionConserves(l: Ledger, source: string, ops: seq<Operation>, asset: Asset)
    requires ApplyAll(l, source, ops).Some? && NativeApart(l)
    ensures Total(ApplyAll(l, source, ops).value, asset) == Total(l, asset)
    decreases |ops|
  {
    if ops != [] {
      ApplyConserves(l, source, ops[0], asset);
      KeepsNativeApart(l, source, ops[0]);
      TransactionConserves(Apply(l, source, ops[0]).value, source, ops[1..], asset);
    }
  }
}
