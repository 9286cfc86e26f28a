/** The generic transition engine and the three machines built on it. */
module StateMachines {
  import opened Statuses

  /** What a nested transition map answers for a pair of states. */
  predicate Lookup<S(==)>(table: map<S, map<S, bool>>, from: S, to: S) {
    from in table && to in table[from] && table[from][to]
  }

  class StateMachine<S(==)> {
    var currentState: S
    var transitions: map<S, map<S, bool>>

    /** The machine's table is exactly the relation listed by `rules`, for any list. */
    constructor (initialState: S, rules: seq<Transition<S>>)
      ensures currentState == initialState
      ensures forall from, to :: Lookup(transitions, from, to) <==> Transition(from, to) in rules
    {
      currentState := initialState;
      transitions := map[];
      new;
      var i := 0;
      while i < |rules|
        invariant 0 <= i <= |rules|
        invariant currentState == initialState
        invariant forall from, to :: Lookup(transitions, from, to) <==> Transition(from, to) in rules[..i]
      {
        var t := rules[i];
        assert rules[..i + 1] == rules[..i] + [t];
        ghost var before := transitions;
        var row := if t.from in transitions then transitions[t.from] else map[];
        transitions := transitions[t.from := row[t.to := true]];
        assert forall from, to ::
            Lookup(transitions, from, to) <==> Lookup(before, from, to) || (from == t.from && to == t.to);
        i := i + 1;
      }
      assert rules[..|rules|] == rules;
    }

    predicate CanTransitionTo(targetState: S)
      reads this
    {
      if currentState !in transitions then false
      else targetState in transitions[currentState] && transitions[currentState][targetState]
    }

    method TransitionTo(targetState: S) returns (ok: bool)
      modifies this`currentState
      ensures ok == old(Lookup(transitions, currentState, targetState))
      ensures currentState == if ok then targetState else old(currentState)
    {
      if CanTransitionTo(targetState) {
        currentState := targetState;
        return true;
      }
      return false;
    }
  }

  method PaymentTransition(status: PaymentStatus, targetState: PaymentStatus) returns (ok: bool)
    ensures ok == PaymentEdge(status, targetState)
  {
    var machine := new StateMachine(status, PAYMENT_TRANSITIONS);
    ok := machine.TransitionTo(targetState);
  }

  method DisbursementTransition(status: DisbursementStatus, targetState: DisbursementStatus) returns (ok: bool)
    ensures ok == DisbursementEdge(status, targetState)
  {
    var machine := new StateMachine(status, DISBURSEMENT_TRANSITIONS);
    ok := machine.TransitionTo(targetState);
  }

  method WalletTransition(status: WalletStatus, targetState: WalletStatus) returns (ok: bool)
    ensures ok == WalletEdge(status, targetState)
  {
    var machine := new StateMachine(status, WALLET_TRANSITIONS);
    ok := machine.TransitionTo(targetState);
  }

  /** The loop shared by the two SourceStatuses methods: the listed statuses that the machine lets move to `target`. */
  method SourcesIn<S(==)>(machine: StateMachine<S>, statuses: seq<S>, target: S) returns (fromStates: seq<S>)
    ensures forall s :: s in fromStates <==> s in statuses && Lookup(machine.transitions, s, target)
  {
    fromStates := [];
    for i := 0 to |statuses|
      invariant forall s :: s in fromStates <==> s in statuses[..i] && Lookup(machine.transitions, s, target)
    {
      assert statuses[..i + 1] == statuses[..i] + [statuses[i]];
      if Lookup(machine.transitions, statuses[i], target) {
        fromStates := fromStates + [statuses[i]];
      }
    }
    assert statuses[..|statuses|] == statuses;
  }

  /** The preimage of a status under the payment table: every status that may move to it, and no other. */
  method PaymentSourceStatuses(target: PaymentStatus) returns (fromStates: seq<PaymentStatus>)
    ensures forall s :: s in fromStates <==> PaymentEdge(s, target)
  {
    var machine := new StateMachine(DraftPayment, PAYMENT_TRANSITIONS);
    fromStates := SourcesIn(machine, PAYMENT_STATUSES, target);
    forall s ensures s in fromStates <==> PaymentEdge(s, target) {
      PaymentTableIsEdge(s, target);
    }
  }

  /** The preimage of a status under the disbursement table. */
  method DisbursementSourceStatuses(target: DisbursementStatus) returns (fromStates: seq<DisbursementStatus>)
    ensures forall s :: s in fromStates <==> DisbursementEdge(s, target)
  {
    var machine := new StateMachine(DraftDisbursement, DISBURSEMENT_TRANSITIONS);
    fromStates := SourcesIn(machine, DISBURSEMENT_STATUSES, target);
    forall s ensures s in fromStates <==> DisbursementEdge(s, target) {
      DisbursementTableIsEdge(s, target);
    }
  }

  lemma PaymentTableIsEdge(from: PaymentStatus, to: PaymentStatus)
    ensures from in PAYMENT_STATUSES
    ensures Transition(from, to) in PAYMENT_TRANSITIONS <==> PaymentEdge(from, to)
  {
    assert PAYMENT_STATUSES[0] == DraftPayment && PAYMENT_STATUSES[1] == ReadyPayment
        && PAYMENT_STATUSES[2] == PendingPayment && PAYMENT_STATUSES[3] == PausedPayment
        && PAYMENT_STATUSES[4] == SuccessPayment && PAYMENT_STATUSES[5] == FailedPayment
        && PAYMENT_STATUSES[6] == CanceledPayment;
  }

  /** Target by target: the statuses that may move to it. */
  lemma SourcesByTarget(p: PaymentStatus, d: DisbursementStatus, w: WalletStatus)
    ensures !PaymentEdge(p, DraftPayment) && !DisbursementEdge(d, DraftDisbursement) && !WalletEdge(w, DraftWallet)
    ensures PaymentEdge(p, ReadyPayment) <==> p == DraftPayment || p == PausedPayment
    ensures PaymentEdge(p, PendingPayment) <==> p == ReadyPayment || p == FailedPayment
    ensures PaymentEdge(p, PausedPayment) <==> p == ReadyPayment
    ensures PaymentEdge(p, SuccessPayment) <==> p == PendingPayment
    ensures PaymentEdge(p, FailedPayment) <==> p == ReadyPayment || p == PendingPayment
    ensures PaymentEdge(p, CanceledPayment) <==> p == ReadyPayment
    ensures DisbursementEdge(d, ReadyDisbursement) <==> d == DraftDisbursement || d == ReadyDisbursement
    ensures DisbursementEdge(d, StartedDisbursement) <==> d == ReadyDisbursement || d == PausedDisbursement
    ensures DisbursementEdge(d, PausedDisbursement) <==> d == StartedDisbursement
    ensures DisbursementEdge(d, CompletedDisbursement) <==> d == StartedDisbursement
    ensures WalletEdge(w, ReadyWallet) <==> w == DraftWallet || w == FlaggedWallet
    ensures WalletEdge(w, RegisteredWallet) <==> w == ReadyWallet || w == FlaggedWallet
    ensures WalletEdge(w, FlaggedWallet) <==> w == ReadyWallet || w == RegisteredWallet
  {
  }

  lemma DisbursementTableIsEdge(from: DisbursementStatus, to: DisbursementStatus)
    ensures from in DISBURSEMENT_STATUSES
    ensures Transition(from, to) in DISBURSEMENT_TRANSITIONS <==> DisbursementEdge(from, to)
  {
  }
}
