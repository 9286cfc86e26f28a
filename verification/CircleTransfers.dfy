/** Circle transfer requests: one idempotency key per attempt to pay, reused until the attempt is over. */
module CircleTransfers {
  import opened Tables

  datatype TransferStatus = TransferPending | TransferComplete | TransferFailed

  predicate IsCompleted(status: TransferStatus) {
    status == TransferComplete || status == TransferFailed
  }

  /** A row keyed by its idempotency key; an empty string stands for NULL. */
  datatype Request = Request(
    payment: Id, transferId: string, payoutId: string, status: Option<TransferStatus>,
    completedAt: Option<int>, createdAt: int, syncAttempts: int)

  /** The update struct; its zero values are "", None and 0. */
  datatype Update = Update(
    transferId: string, payoutId: string, status: Option<TransferStatus>, completedAt: Option<int>, syncAttempts: int)

  datatype Assignment =
    | SetTransferId(text: string) | SetPayoutId(text: string) | SetStatus(status: TransferStatus)
    | SetCompletedAt(time: int) | SetSyncAttempts(count: int)

  datatype Store = Store(requests: map<Id, Request>, payments: set<Id>, nextKey: Id, now: int)

  // ---------- what the statements mean ----------

  function Assign(r: Request, a: Assignment): Request {
    match a
    case SetTransferId(text) => r.(transferId := text)
    case SetPayoutId(text) => r.(payoutId := text)
    case SetStatus(status) => r.(status := Some(status))
    case SetCompletedAt(time) => r.(completedAt := Some(time))
    case SetSyncAttempts(count) => r.(syncAttempts := count)
  }

  function AssignAll(r: Request, clause: seq<Assignment>): Request {
    if clause == [] then r else Assign(AssignAll(r, clause[..|clause| - 1]), clause[|clause| - 1])
  }

  predicate IsZero(u: Update) {
    u == Update("", "", None, None, 0)
  }

  /** Field by field, the update's value wins where it is not zero, and nothing is ever cleared. */
  function Merged(r: Request, u: Update): Request {
    r.(transferId := if u.transferId != "" then u.transferId else r.transferId,
       payoutId := if u.payoutId != "" then u.payoutId else r.payoutId,
       status := if u.status.Some? then u.status else r.status,
       completedAt := if u.completedAt.Some? then u.completedAt else r.completedAt,
       syncAttempts := if u.syncAttempts != 0 then u.syncAttempts else r.syncAttempts)
  }

  predicate Incomplete(s: Store, payment: Id, key: Id) {
    key in s.requests && s.requests[key].payment == payment && s.requests[key].completedAt.None?
  }

  predicate NotFailed(r: Request) {
    r.status != Some(TransferFailed)
  }

  /** The partial unique index: one request per payment, not counting failed ones. */
  ghost predicate IndexHolds(requests: map<Id, Request>) {
    forall j, k | j in requests && k in requests && j != k ::
      NotFailed(requests[j]) && NotFailed(requests[k]) ==> requests[j].payment != requests[k].payment
  }

  predicate Occupied(requests: map<Id, Request>, payment: Id, except: Id) {
    exists k | k in requests :: k != except && requests[k].payment == payment && NotFailed(requests[k])
  }

  function Inserted(s: Store, payment: Id): Store {
    s.(requests := s.requests[s.nextKey := Request(payment, "", "", None, None, s.now, 0)], nextKey := s.nextKey + 1)
  }

  /** The row an update leaves behind, or the reason it is refused. */
  function UpdateOutcome(s: Store, key: Id, u: Update): Outcome {
    if IsZero(u) then Failed(InvalidInput)
    else if key !in s.requests then Failed(RecordNotFound)
    else
      var after := Merged(s.requests[key], u);
      if (after.transferId != "" && after.payoutId != "")
        || (NotFailed(after) && Occupied(s.requests, after.payment, key))
      then Failed(ConstraintViolation)
      else Done
  }

  function Updated(s: Store, key: Id, u: Update): Store {
    if UpdateOutcome(s, key, u).Done? && key in s.requests
    then s.(requests := s.requests[key := Merged(s.requests[key], u)]) else s
  }

  // ---------- the model methods ----------

  /** The struct's fields in order; None where the value is zero. */
  function FieldsOf(u: Update): seq<Option<Assignment>> {
    [if u.transferId != "" then Some(SetTransferId(u.transferId)) else None,
     if u.payoutId != "" then Some(SetPayoutId(u.payoutId)) else None,
     if u.status.Some? then Some(SetStatus(u.status.value)) else None,
     if u.completedAt.Some? then Some(SetCompletedAt(u.completedAt.value)) else None,
     if u.syncAttempts != 0 then Some(SetSyncAttempts(u.syncAttempts)) else None]
  }

  function NonZero(fields: seq<Option<Assignment>>): seq<Assignment> {
    if fields == [] then []
    else
      var clause := NonZero(fields[..|fields| - 1]);
      match fields[|fields| - 1]
      case None => clause
      case Some(a) => clause + [a]
  }

  function AssignField(r: Request, field: Option<Assignment>): Request {
    if field.Some? then Assign(r, field.value) else r
  }

  lemma OneFieldMore(r: Request, fields: seq<Option<Assignment>>, field: Option<Assignment>, before: Request)
    requires AssignAll(r, NonZero(fields)) == before
    ensures AssignAll(r, NonZero(fields + [field])) == AssignField(before, field)
  {
  }

  function FieldByField(r: Request, f: seq<Option<Assignment>>): Request
    requires |f| == 5
  {
    AssignField(AssignField(AssignField(AssignField(AssignField(r, f[0]), f[1]), f[2]), f[3]), f[4])
  }

  lemma ClauseIsFieldByField(r: Request, f: seq<Option<Assignment>>)
    requires |f| == 5
    ensures AssignAll(r, NonZero(f)) == FieldByField(r, f)
  {
    var r1 := AssignField(r, f[0]);
    var r2 := AssignField(r1, f[1]);
    var r3 := AssignField(r2, f[2]);
    var r4 := AssignField(r3, f[3]);
    assert f[..1] == [] + [f[0]] && f[..2] == f[..1] + [f[1]] && f[..3] == f[..2] + [f[2]];
    assert f[..4] == f[..3] + [f[3]] && f == f[..4] + [f[4]];
    OneFieldMore(r, [], f[0], r);
    OneFieldMore(r, f[..1], f[1], r1);
    OneFieldMore(r, f[..2], f[2], r2);
    OneFieldMore(r, f[..3], f[3], r3);
    OneFieldMore(r, f[..4], f[4], r4);
  }

  /** Running the clause on a row merges the update into it: fields that are zero in the update keep their value. */
  lemma ClauseMerges(r: Request, u: Update)
    ensures AssignAll(r, NonZero(FieldsOf(u))) == Merged(r, u)
  {
    ClauseIsFieldByField(r, FieldsOf(u));
  }

  lemma {:induction false} ClauseEmptyIff(fields: seq<Option<Assignment>>)
    ensures NonZero(fields) == [] <==> forall i | 0 <= i < |fields| :: fields[i].None?
  {
    if fields != [] { ClauseEmptyIff(fields[..|fields| - 1]); }
  }

  /** Walks the fields of the struct and lists those that are not zero. */
  method BuildSetClause(u: Update) returns (clause: seq<Assignment>)
    ensures clause == [] <==> IsZero(u)
    ensures forall r: Request :: AssignAll(r, clause) == Merged(r, u)
  {
    var fields := FieldsOf(u);
    clause := [];
    for i := 0 to |fields|
      invariant clause == NonZero(fields[..i])
    {
      assert fields[..i + 1][..i] == fields[..i];
      if fields[i].Some? {
        clause := clause + [fields[i].value];
      }
    }
    assert fields[..|fields|] == fields;
    forall r: Request ensures AssignAll(r, clause) == Merged(r, u) {
      ClauseMerges(r, u);
    }
    ClauseEmptyIff(fields);
    assert clause == [] <==>
             fields[0].None? && fields[1].None? && fields[2].None? && fields[3].None? && fields[4].None?;
  }

  class CircleTransferRequests {
    var requests: map<Id, Request>
    var payments: set<Id>
    var nextKey: Id
    var now: int

    constructor (payments: set<Id>)
      ensures Contents() == Store(map[], payments, 0, 0)
    {
      this.requests, this.payments, this.nextKey, this.now := map[], payments, 0, 0;
    }

    function Contents(): Store
      reads this
    {
      Store(requests, payments, nextKey, now)
    }

    /** The newest request of the payment that is not completed. */
    method GetIncompleteByPaymentID(payment: Id) returns (key: Option<Id>)
      ensures key.Some? ==> Incomplete(Contents(), payment, key.value)
      ensures key.Some? ==> forall k | Incomplete(Contents(), payment, k) ::
                requests[k].createdAt <= requests[key.value].createdAt
      ensures key.None? ==> forall k :: !Incomplete(Contents(), payment, k)
    {
      key := None;
      var todo := requests.Keys;
      while todo != {}
        invariant todo <= requests.Keys
        invariant key.Some? ==> Incomplete(Contents(), payment, key.value)
        invariant forall k | k !in todo && Incomplete(Contents(), payment, k) ::
                    key.Some? && requests[k].createdAt <= requests[key.value].createdAt
      {
        var k :| k in todo;
        todo := todo - {k};
        if requests[k].payment == payment && requests[k].completedAt.None? {
          if key.None? || requests[key.value].createdAt < requests[k].createdAt {
            key := Some(k);
          }
        }
      }
    }

    method Insert(payment: Id) returns (outcome: Outcome, key: Id)
      modifies this`requests, this`nextKey
      ensures outcome.Done? <==> forall k | k in old(requests) :: old(requests)[k].payment == payment ==>
              !NotFailed(old(requests)[k])
      ensures outcome.Done? ==> key == old(nextKey) && Contents() == Inserted(old(Contents()), payment)
      ensures outcome.Failed? ==> Contents() == old(Contents())
    {
      if exists k | k in requests :: requests[k].payment == payment && NotFailed(requests[k]) {
        return Failed(ConstraintViolation), 0;
      }
      key := nextKey;
      requests := requests[key := Request(payment, "", "", None, None, now, 0)];
      nextKey := nextKey + 1;
      return Done, key;
    }

    /** Reuses the key of the request under way; otherwise starts a new one, if the index lets it. */
    method GetOrInsert(payment: Id) returns (outcome: Outcome, key: Id)
      requires Kept(Contents())
      modifies this`requests, this`nextKey
      ensures outcome.Done? <==> Answer(old(Contents()), payment).Some?
      ensures outcome.Done? ==> Some(key) == Answer(old(Contents()), payment)
      ensures Contents() == Asked(old(Contents()), payment)
    {
      if payment !in payments {
        return Failed(RecordNotFound), 0;
      }
      var incomplete := GetIncompleteByPaymentID(payment);
      if incomplete.Some? {
        AtMostOneIncomplete(Contents(), payment, incomplete.value, Current(Contents(), payment).value);
        return Done, incomplete.value;
      }
      outcome, key := Insert(payment);
    }

    method UpdateRequest(key: Id, u: Update) returns (outcome: Outcome)
      modifies this`requests
      ensures outcome == UpdateOutcome(old(Contents()), key, u)
      ensures Contents() == Updated(old(Contents()), key, u)
    {
      var clause := BuildSetClause(u);
      if clause == [] {
        return Failed(InvalidInput);
      }
      if key !in requests {
        return Failed(RecordNotFound);
      }
      var after := AssignAll(requests[key], clause);
      if after.transferId != "" && after.payoutId != "" {
        return Failed(ConstraintViolation);
      }
      if NotFailed(after) && Occupied(requests, after.payment, key) {
        return Failed(ConstraintViolation);
      }
      requests := requests[key := after];
      return Done;
    }
  }

  // ---------- the protocol ----------

  /** The request under way for a payment. */
  ghost function Current(s: Store, payment: Id): (key: Option<Id>)
    ensures key.Some? ==> Incomplete(s, payment, key.value)
    ensures key.None? ==> forall k :: !Incomplete(s, payment, k)
  {
    if exists k :: Incomplete(s, payment, k) then
      var k :| Incomplete(s, payment, k);
      Some(k)
    else None
  }

  /** The key GetOrInsert answers with; None when it fails. */
  ghost function Answer(s: Store, payment: Id): Option<Id> {
    if payment !in s.payments then None
    else if Current(s, payment).Some? then Current(s, payment)
    else if exists k | k in s.requests :: s.requests[k].payment == payment && NotFailed(s.requests[k]) then None
    else Some(s.nextKey)
  }

  ghost function Asked(s: Store, payment: Id): Store {
    if Answer(s, payment) == Some(s.nextKey) && Current(s, payment).None? then Inserted(s, payment) else s
  }

  /** How every caller fills the update: the completion time goes with a status that ends the attempt. */
  predicate Disciplined(u: Update) {
    u.completedAt.Some? <==> u.status.Some? && IsCompleted(u.status.value)
  }

  datatype Event = Ask(payment: Id) | Change(key: Id, update: Update) | Pass(time: int) | Pay(payment: Id)

  ghost predicate Step(s: Store, e: Event, s': Store) {
    match e
    case Ask(payment) => s' == Asked(s, payment)
    case Change(key, u) => Disciplined(u) && s' == Updated(s, key, u)
    case Pass(time) => s.now <= time && s' == s.(now := time)
    case Pay(payment) => s' == s.(payments := s.payments + {payment})
  }

  ghost predicate IsRun(states: seq<Store>, events: seq<Event>) {
    && |states| == |events| + 1
    && states[0].requests == map[]
    && forall i, j | 0 <= i && j == i + 1 < |states| :: Step(states[i], events[i], states[j])
  }

  /** A request that is not completed is not failed either, and keys come from the counter. */
  ghost predicate Kept(s: Store) {
    && IndexHolds(s.requests)
    && forall k | k in s.requests :: k < s.nextKey && (s.requests[k].completedAt.None? ==> NotFailed(s.requests[k]))
  }

  lemma AtMostOneIncomplete(s: Store, payment: Id, j: Id, k: Id)
    requires Kept(s) && Incomplete(s, payment, j) && Incomplete(s, payment, k)
    ensures j == k
  {
  }

  lemma StepKeeps(s: Store, e: Event, s': Store)
    requires Kept(s) && Step(s, e, s')
    ensures Kept(s')
  {
    match e
    case Ask(payment) =>
      if s' != s {
        assert forall k | k in s.requests && s.requests[k].payment == payment :: !NotFailed(s.requests[k]);
      }
    case Change(key, u) =>
    case Pass(_) =>
    case Pay(_) =>
  }

  lemma {:induction false} RunKeeps(states: seq<Store>, events: seq<Event>, i: nat)
    requires IsRun(states, events) && i < |states|
    ensures Kept(states[i])
  {
    if i > 0 {
      RunKeeps(states, events, i - 1);
      StepKeeps(states[i - 1], events[i - 1], states[i]);
    }
  }

  // ---------- what a step does to the rows ----------

  /** Asking answers the key under way; a payment whose requests all failed gets a new one, and any other is refused. */
  lemma AskEffect(s: Store, payment: Id)
    requires Kept(s)
    ensures payment !in s.payments ==> Answer(s, payment) == None && Asked(s, payment) == s
    ensures forall k | payment in s.payments && k in s.requests && s.requests[k].payment == payment
              && s.requests[k].completedAt == None :: Answer(s, payment) == Some(k) && Asked(s, payment) == s
    ensures payment in s.payments
            && (forall k | k in s.requests && s.requests[k].payment == payment :: s.requests[k].completedAt != None) ==>
              if exists k | k in s.requests ::
                   s.requests[k].payment == payment && s.requests[k].status != Some(TransferFailed)
              then Answer(s, payment) == None && Asked(s, payment) == s
              else && Answer(s, payment) == Some(s.nextKey)
                   && Asked(s, payment) == s.(nextKey := s.nextKey + 1, requests := s.requests[s.nextKey :=
                        Request(payment, "", "", None, None, s.now, 0)])
  {
    if k :| k in s.requests && s.requests[k].payment == payment && s.requests[k].completedAt == None {
      assert Incomplete(s, payment, k);
      AtMostOneIncomplete(s, payment, k, Current(s, payment).value);
    }
  }

  function Newer(text: string, stored: string): string { if text != "" then text else stored }

  /** What an update asks for: a field to write, the row, one of the two Circle ids, and room in the unique index. */
  predicate CanChange(s: Store, key: Id, u: Update) {
    && (u.transferId != "" || u.payoutId != "" || u.status != None || u.completedAt != None || u.syncAttempts != 0)
    && key in s.requests
    && (Newer(u.transferId, s.requests[key].transferId) == "" || Newer(u.payoutId, s.requests[key].payoutId) == "")
    && ((if u.status != None then u.status else s.requests[key].status) == Some(TransferFailed)
        || forall k | k in s.requests && k != key && s.requests[k].payment == s.requests[key].payment ::
             s.requests[k].status == Some(TransferFailed))
  }

  /** An update writes the fields that it carries, keeps the others, and touches no other row. */
  lemma ChangeEffect(s: Store, key: Id, u: Update)
    ensures UpdateOutcome(s, key, u) == Done <==> CanChange(s, key, u)
    ensures !CanChange(s, key, u) ==> Updated(s, key, u) == s
    ensures CanChange(s, key, u) ==>
              && Updated(s, key, u) == s.(requests := s.requests[key := Updated(s, key, u).requests[key]])
              && var r, r' := s.requests[key], Updated(s, key, u).requests[key];
              && r'.payment == r.payment && r'.createdAt == r.createdAt
              && r'.transferId == Newer(u.transferId, r.transferId) && r'.payoutId == Newer(u.payoutId, r.payoutId)
              && (u.status != None ==> r'.status == u.status) && (u.status == None ==> r'.status == r.status)
              && (u.completedAt != None ==> r'.completedAt == u.completedAt)
              && (u.completedAt == None ==> r'.completedAt == r.completedAt)
              && (u.syncAttempts != 0 ==> r'.syncAttempts == u.syncAttempts)
              && (u.syncAttempts == 0 ==> r'.syncAttempts == r.syncAttempts)
  {
  }

  // ---------- over runs ----------

  /** At every moment of a run a payment has at most one request without a completion time. */
  lemma OneRequestUnderWay(states: seq<Store>, events: seq<Event>, i: nat, payment: Id, j: Id, k: Id)
    requires IsRun(states, events) && i < |states|
    requires Incomplete(states[i], payment, j) && Incomplete(states[i], payment, k)
    ensures j == k
  {
    RunKeeps(states, events, i);
    AtMostOneIncomplete(states[i], payment, j, k);
  }

  /** Rows are never removed, keep their payment and creation time, and never lose a completion time. */
  ghost predicate Grows(s: Store, s': Store) {
    && s.nextKey <= s'.nextKey && s.payments <= s'.payments
    && forall k | k in s.requests ::
         && k in s'.requests && s'.requests[k].payment == s.requests[k].payment
         && s'.requests[k].createdAt == s.requests[k].createdAt
         && (s.requests[k].completedAt.Some? ==> s'.requests[k].completedAt.Some?)
  }

  lemma StepGrows(s: Store, e: Event, s': Store)
    requires Kept(s) && Step(s, e, s')
    ensures Grows(s, s')
  {
  }

  /** Completion is never undone. */
  lemma {:induction false} RunGrows(states: seq<Store>, events: seq<Event>, i: nat, j: nat)
    requires IsRun(states, events) && i <= j < |states|
    ensures Grows(states[i], states[j])
    decreases j
  {
    if i < j {
      RunGrows(states, events, i, j - 1);
      RunKeeps(states, events, j - 1);
      StepGrows(states[j - 1], events[j - 1], states[j]);
    }
  }

  /** An answered key keeps being the answer, through any later steps, until its request is completed. */
  lemma SameKeyUntilCompletion(states: seq<Store>, events: seq<Event>, i: nat, j: nat, payment: Id, key: Id)
    requires IsRun(states, events) && i < j < |states| && events[i] == Ask(payment)
    requires Answer(states[i], payment) == Some(key)
    requires key in states[j].requests ==> states[j].requests[key].completedAt.None?
    ensures key in states[j].requests && Answer(states[j], payment) == Some(key)
  {
    assert Step(states[i], events[i], states[i + 1]);
    assert key in states[i + 1].requests && states[i + 1].requests[key].payment == payment;
    RunGrows(states, events, i, j);
    RunGrows(states, events, i + 1, j);
    RunKeeps(states, events, j);
    assert Incomplete(states[j], payment, key);
    AtMostOneIncomplete(states[j], payment, key, Current(states[j], payment).value);
  }

  /**
   After completion the next answer is a key never used before exactly when every earlier attempt failed; when one is
   not failed, asking again is an error.
   */
  lemma FreshKeyIffAllFailed(states: seq<Store>, events: seq<Event>, i: nat, payment: Id)
    requires IsRun(states, events) && i < |states| && payment in states[i].payments
    requires forall k :: !Incomplete(states[i], payment, k)
    ensures Answer(states[i], payment).Some? <==>
            forall k | k in states[i].requests && states[i].requests[k].payment == payment ::
              states[i].requests[k].status == Some(TransferFailed)
    ensures Answer(states[i], payment).Some? ==>
            forall h | 0 <= h <= i :: Answer(states[i], payment).value !in states[h].requests
  {
    RunKeeps(states, events, i);
    if Answer(states[i], payment).Some? {
      forall h | 0 <= h <= i ensures states[i].nextKey !in states[h].requests {
        RunGrows(states, events, h, i);
      }
    }
  }

  ghost predicate Refuses(s: Store, payment: Id) {
    payment in s.payments && Answer(s, payment).None?
  }

  /** A completed transfer blocks a second one: there is a run after which asking again fails. */
  lemma NoKeyAfterSuccess()
    ensures exists states: seq<Store>, events: seq<Event> :: IsRun(states, events) && Refuses(states[|events|], 0)
  {
    var s0 := Store(map[], {0}, 0, 0);
    var u := Update("t", "", Some(TransferComplete), Some(1), 0);
    assert Current(s0, 0).None?;
    var s1 := Asked(s0, 0);
    assert s1 == Inserted(s0, 0);
    var s2 := Updated(s1, 0, u);
    var states, events := [s0, s1, s2], [Ask(0), Change(0, u)];
    assert Step(states[0], events[0], states[1]) && Step(states[1], events[1], states[2]);
    assert s2.requests[0].completedAt == Some(1) && NotFailed(s2.requests[0]);
    assert s2.requests.Keys == {0};
    assert forall k :: !Incomplete(s2, 0, k);
    assert IsRun(states, events);
    assert Refuses(states[|events|], 0);
  }
}
