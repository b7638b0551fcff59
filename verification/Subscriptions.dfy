/** The subscription billing state machine (internal/repository/postgres/subscription_repo.go).
    The SQL decides: a failed charge always sets past_due, also after a cancellation. */
module Subscriptions {
  import opened Wrappers
  import opened Balances

  datatype SubscriptionStatus = Trial | Active | PastDue | Cancelled | Expired | Unpaid

  datatype Subscription = Subscription(
    id: Id,
    tenant: Id,
    openpaySubId: string,
    status: SubscriptionStatus,
    failedChargeCount: int,
    lastCharge: Option<Id>,
    cancelAtPeriodEnd: bool)

  /** failed_charge_count is a SMALLINT: the increment beyond it is an error. */
  const MAX_SMALLINT: int := 32767

  /** The acknowledged writes that move a subscription: IncrementFailedCharge, RecordCharge,
      UpdateStatus and SetCancelAtPeriodEnd. */
  datatype SubEvent =
    | ChargeFailed
    | ChargeRecorded(payment: Id)
    | StatusSet(status: SubscriptionStatus)
    | CancelScheduled

  function AfterCharge(status: SubscriptionStatus): SubscriptionStatus {
    if status.Trial? || status.PastDue? then Active else status
  }

  function Apply(s: Subscription, ev: SubEvent): Subscription {
    match ev
    case ChargeFailed => s.(failedChargeCount := s.failedChargeCount + 1, status := PastDue)
    case ChargeRecorded(payment) =>
      s.(lastCharge := Some(payment), failedChargeCount := 0, status := AfterCharge(s.status))
    case StatusSet(status) => s.(status := status)
    case CancelScheduled => s.(cancelAtPeriodEnd := true)
  }

  function Replay(s: Subscription, evs: seq<SubEvent>): Subscription {
    if evs == [] then s else Apply(Replay(s, evs[..|evs| - 1]), evs[|evs| - 1])
  }

  lemma ReplayAppend(s: Subscription, evs: seq<SubEvent>, ev: SubEvent)
    ensures Replay(s, evs + [ev]) == Apply(Replay(s, evs), ev)
  {
    assert (evs + [ev])[..|evs|] == evs;
  }

  // ── Closed form ──

  /** Some charge was recorded at or after position from. */
  predicate ChargedFrom(evs: seq<SubEvent>, from: int) {
    exists i :: 0 <= i < |evs| && from <= i && evs[i].ChargeRecorded?
  }

  /** The failed charges no later success has forgiven. */
  function OpenFailures(evs: seq<SubEvent>): set<int> {
    set i | 0 <= i < |evs| && evs[i].ChargeFailed? && !ChargedFrom(evs, i)
  }

  predicate FixesStatus(ev: SubEvent) {
    ev.ChargeFailed? || ev.StatusSet?
  }

  predicate IsLastFix(evs: seq<SubEvent>, l: int) {
    && 0 <= l < |evs| && FixesStatus(evs[l])
    && forall i :: l < i < |evs| ==> !FixesStatus(evs[i])
  }

  function FixedStatus(ev: SubEvent): SubscriptionStatus
    requires FixesStatus(ev)
  {
    if ev.ChargeFailed? then PastDue else ev.status
  }

  function Settle(status: SubscriptionStatus, charged: bool): SubscriptionStatus {
    if charged then AfterCharge(status) else status
  }

  predicate IsLastCharge(evs: seq<SubEvent>, l: int) {
    && 0 <= l < |evs| && evs[l].ChargeRecorded?
    && !ChargedFrom(evs, l + 1)
  }

  lemma ChargedFromAppend(evs: seq<SubEvent>, ev: SubEvent, from: int)
    requires from <= |evs|
    ensures ChargedFrom(evs + [ev], from) <==> ChargedFrom(evs, from) || ev.ChargeRecorded?
  {
    var all := evs + [ev];
    if ChargedFrom(evs, from) {
      var i :| 0 <= i < |evs| && from <= i && evs[i].ChargeRecorded?;
      assert all[i].ChargeRecorded?;
    }
    if ev.ChargeRecorded? {
      assert all[|evs|].ChargeRecorded?;
    }
    if ChargedFrom(all, from) {
      var i :| 0 <= i < |all| && from <= i && all[i].ChargeRecorded?;
      assert i < |evs| ==> evs[i].ChargeRecorded?;
    }
  }

  lemma OpenFailuresAppend(evs: seq<SubEvent>, ev: SubEvent)
    ensures OpenFailures(evs + [ev]) ==
      match ev
      case ChargeFailed => OpenFailures(evs) + {|evs|}
      case ChargeRecorded(_) => {}
      case StatusSet(_) => OpenFailures(evs)
      case CancelScheduled => OpenFailures(evs)
    ensures |evs| !in OpenFailures(evs)
  {
    var all := evs + [ev];
    forall i | 0 <= i <= |evs| ensures ChargedFrom(all, i) <==> ChargedFrom(evs, i) || ev.ChargeRecorded? {
      ChargedFromAppend(evs, ev, i);
    }
    assert !ChargedFrom(evs, |evs|);
    forall i | 0 <= i < |evs| ensures all[i] == evs[i] {
    }
  }

  /** The failure counter counts the failures since the last success. */
  lemma {:induction false} CounterClosedForm(s: Subscription, evs: seq<SubEvent>)
    ensures Replay(s, evs).failedChargeCount
            == |OpenFailures(evs)| + if ChargedFrom(evs, 0) then 0 else s.failedChargeCount
  {
    if evs == [] {
      assert OpenFailures(evs) == {};
    } else {
      var q, ev := evs[..|evs| - 1], evs[|evs| - 1];
      CounterClosedForm(s, q);
      assert evs == q + [ev];
      OpenFailuresAppend(q, ev);
      ChargedFromAppend(q, ev, 0);
    }
  }

  /** The status is decided by the last failed, cancelled or deactivated event and by
      whether a success follows it. */
  lemma {:induction false} StatusClosedForm(s: Subscription, evs: seq<SubEvent>, l: int)
    requires IsLastFix(evs, l)
    ensures Replay(s, evs).status == Settle(FixedStatus(evs[l]), ChargedFrom(evs, l))
  {
    var q, ev := evs[..|evs| - 1], evs[|evs| - 1];
    assert evs == q + [ev];
    ChargedFromAppend(q, ev, l);
    if l < |q| {
      assert !FixesStatus(evs[|q|]);
      StatusClosedForm(s, q, l);
    } else {
      assert !ChargedFrom(q, l);
    }
  }

  predicate NoFix(evs: seq<SubEvent>) {
    forall i :: 0 <= i < |evs| ==> !FixesStatus(evs[i])
  }

  lemma NoFixPrefix(evs: seq<SubEvent>)
    requires evs != [] && NoFix(evs)
    ensures !FixesStatus(evs[|evs| - 1]) && NoFix(evs[..|evs| - 1])
  {
  }

  lemma ChargedFromPrefix(evs: seq<SubEvent>)
    requires evs != []
    ensures ChargedFrom(evs, 0) <==> ChargedFrom(evs[..|evs| - 1], 0) || evs[|evs| - 1].ChargeRecorded?
  {
    assert evs == evs[..|evs| - 1] + [evs[|evs| - 1]];
    ChargedFromAppend(evs[..|evs| - 1], evs[|evs| - 1], 0);
  }

  /** Without such an event it is decided by the starting status. */
  lemma {:induction false} StatusWithoutFix(s: Subscription, evs: seq<SubEvent>)
    requires NoFix(evs)
    ensures Replay(s, evs).status == Settle(s.status, ChargedFrom(evs, 0))
  {
    if evs != [] {
      NoFixPrefix(evs);
      StatusWithoutFix(s, evs[..|evs| - 1]);
      ChargedFromPrefix(evs);
    }
  }

  /** Every event history is of one of the two kinds. */
  lemma {:induction false} FixedOrNot(evs: seq<SubEvent>)
    ensures (exists l :: IsLastFix(evs, l)) || NoFix(evs)
  {
    if evs != [] {
      var q := evs[..|evs| - 1];
      FixedOrNot(q);
      if FixesStatus(evs[|q|]) {
        assert IsLastFix(evs, |q|);
      } else if exists l :: IsLastFix(q, l) {
        var l :| IsLastFix(q, l);
        assert IsLastFix(evs, l);
      } else {
        assert forall i :: 0 <= i < |q| ==> evs[i] == q[i];
      }
    }
  }

  /** last_charge_id is the payment of the last recorded charge. */
  lemma {:induction false} LastChargeClosedForm(s: Subscription, evs: seq<SubEvent>)
    ensures forall l :: IsLastCharge(evs, l) ==> Replay(s, evs).lastCharge == Some(evs[l].payment)
    ensures !ChargedFrom(evs, 0) ==> Replay(s, evs).lastCharge == s.lastCharge
  {
    if evs != [] {
      var q, ev := evs[..|evs| - 1], evs[|evs| - 1];
      LastChargeClosedForm(s, q);
      assert evs == q + [ev];
      ChargedFromAppend(q, ev, 0);
      forall l | IsLastCharge(evs, l) ensures Replay(s, evs).lastCharge == Some(evs[l].payment) {
        if l < |q| {
          ChargedFromAppend(q, ev, l + 1);
          assert IsLastCharge(q, l);
        }
      }
    }
  }

  /** The flag is set exactly when it was or some cancellation was scheduled, and it is never taken back;
      no event changes whose subscription it is. */
  lemma {:induction false} FlagClosedForm(s: Subscription, evs: seq<SubEvent>)
    ensures Replay(s, evs).cancelAtPeriodEnd <==>
      s.cancelAtPeriodEnd || exists i :: 0 <= i < |evs| && evs[i] == CancelScheduled
    ensures
      var s' := Replay(s, evs);
      s'.id == s.id && s'.tenant == s.tenant && s'.openpaySubId == s.openpaySubId
  {
    if evs != [] {
      var q := evs[..|evs| - 1];
      FlagClosedForm(s, q);
      assert forall i :: 0 <= i < |q| ==> q[i] == evs[i];
    }
  }

  /** What the ingress handlers ever set: cancelled and unpaid. */
  predicate FromIngress(evs: seq<SubEvent>) {
    forall i :: 0 <= i < |evs| && evs[i].StatusSet? ==> evs[i].status.Cancelled? || evs[i].status.Unpaid?
  }

  /** For a subscription that starts in trial or active with no failures: past_due means the
      counter is positive, and a positive counter means past_due, cancelled or unpaid. */
  lemma {:induction false} PastDueMeansFailures(s: Subscription, evs: seq<SubEvent>)
    requires (s.status.Trial? || s.status.Active?) && s.failedChargeCount == 0
    requires FromIngress(evs)
    ensures Replay(s, evs).failedChargeCount >= 0
    ensures Replay(s, evs).status.PastDue? ==> Replay(s, evs).failedChargeCount > 0
    ensures Replay(s, evs).failedChargeCount > 0 ==>
      Replay(s, evs).status.PastDue? || Replay(s, evs).status.Cancelled? || Replay(s, evs).status.Unpaid?
  {
    if evs != [] {
      var q := evs[..|evs| - 1];
      assert forall i :: 0 <= i < |q| ==> q[i] == evs[i];
      PastDueMeansFailures(s, q);
    }
  }

  /** cancelled is not terminal: one late failure makes the subscription past_due, and the
      success after that makes it active again. */
  lemma CancelledIsNotTerminal(s: Subscription, payment: Id)
    ensures Replay(s, [StatusSet(Cancelled), ChargeFailed]).status == PastDue
    ensures Replay(s, [StatusSet(Cancelled), ChargeFailed, ChargeRecorded(payment)]).status == Active
    ensures Replay(s, [StatusSet(Cancelled), ChargeRecorded(payment)]).status == Cancelled
  {
    var cancel := StatusSet(Cancelled);
    ReplayTwo(s, cancel, ChargeFailed);
    ReplayTwo(s, cancel, ChargeRecorded(payment));
    assert [cancel, ChargeFailed] + [ChargeRecorded(payment)] == [cancel, ChargeFailed, ChargeRecorded(payment)];
    ReplayAppend(s, [cancel, ChargeFailed], ChargeRecorded(payment));
  }

  lemma ReplayTwo(s: Subscription, a: SubEvent, b: SubEvent)
    ensures Replay(s, [a, b]) == Apply(Apply(s, a), b)
  {
    assert [] + [a] == [a] && [a] + [b] == [a, b];
    ReplayAppend(s, [], a);
    ReplayAppend(s, [a], b);
  }

  // ── The table ──

  function IndexOfSub(rows: seq<Subscription>, openpaySubId: string): (r: Option<nat>)
    ensures r.Some? ==> r.value < |rows| && rows[r.value].openpaySubId == openpaySubId
    ensures r.None? ==> forall i :: 0 <= i < |rows| ==> rows[i].openpaySubId != openpaySubId
  {
    IndexWhere(rows, (s: Subscription) => s.openpaySubId == openpaySubId)
  }

  /** The unique ids, the CHECK failed_charge_count >= 0 and the range of a SMALLINT. */
  predicate CanInsert(rows: seq<Subscription>, s: Subscription) {
    && 0 <= s.failedChargeCount <= MAX_SMALLINT
    && forall i :: 0 <= i < |rows| ==> rows[i].id != s.id && rows[i].openpaySubId != s.openpaySubId
  }

  ghost predicate SubIdsUnique(rows: seq<Subscription>) {
    forall i, j :: 0 <= i < j < |rows| ==>
      rows[i].id != rows[j].id && rows[i].openpaySubId != rows[j].openpaySubId
  }

  /** Whether the row accepts the event: only the SMALLINT can refuse one. */
  predicate Accepts(s: Subscription, ev: SubEvent) {
    ev.ChargeFailed? ==> s.failedChargeCount < MAX_SMALLINT
  }

  lemma UpdateById(rows: seq<Subscription>, i: nat, f: Subscription -> Subscription)
    requires SubIdsUnique(rows) && i < |rows|
    ensures UpdateWhere(rows, (s: Subscription) => s.id == rows[i].id, f) == rows[i := f(rows[i])]
  {
    UpdateHitsOneRow(rows, (s: Subscription) => s.id == rows[i].id, f, i);
  }

  /** The outcome of one UPDATE: the row with the id takes the event, or nothing changes. */
  ghost predicate Executed(
    before: seq<Subscription>, after: seq<Subscription>, r: Result<()>, id: Id, ev: SubEvent, updateOk: bool)
  {
    && (forall i :: 0 <= i < |before| && before[i].id == id ==>
         if updateOk && Accepts(before[i], ev)
         then r.Ok? && after == before[i := Apply(before[i], ev)]
         else r.Err? && after == before)
    && ((forall i :: 0 <= i < |before| ==> before[i].id != id) ==> r.Err? && after == before)
  }

  class SubscriptionRepo {
    var rows: seq<Subscription>

    ghost predicate Valid()
      reads this
    {
      SubIdsUnique(rows)
    }

    constructor ()
      ensures Valid() && rows == []
    {
      rows := [];
    }

    method Create(s: Subscription, insertOk: bool) returns (r: Result<()>)
      requires Valid()
      modifies this
      ensures Valid()
      ensures r.Ok? <==> insertOk && CanInsert(old(rows), s)
      ensures r.Ok? <==>
        && insertOk && 0 <= s.failedChargeCount <= 32_767
        && forall q :: q in old(rows) ==> q.id != s.id && q.openpaySubId != s.openpaySubId
      ensures rows == if r.Ok? then old(rows) + [s] else old(rows)
    {
      if !insertOk || !CanInsert(rows, s) {
        return Err(ErrDatabase);
      }
      rows := rows + [s];
      return Ok(());
    }

    method GetByOpenpaySubID(openpaySubId: string, selectOk: bool) returns (r: Result<Subscription>, ghost at: nat)
      requires Valid()
      ensures r.Ok? <==> selectOk && IndexOfSub(rows, openpaySubId).Some?
      ensures r.Ok? ==> at < |rows| && IndexOfSub(rows, openpaySubId) == Some(at) && rows[at] == r.value
      ensures r == Err(ErrNotFound) <==> selectOk && IndexOfSub(rows, openpaySubId).None?
    {
      at := 0;
      if !selectOk {
        return Err(ErrDatabase), at;
      }
      var found := IndexOfSub(rows, openpaySubId);
      if found.None? {
        return Err(ErrNotFound), at;
      }
      at := found.value;
      return Ok(rows[found.value]), at;
    }

    /** One UPDATE ... WHERE id = $, shared by the four writers. */
    method Exec(id: Id, ev: SubEvent, updateOk: bool) returns (r: Result<()>)
      requires Valid()
      modifies this
      ensures Valid()
      ensures Executed(old(rows), rows, r, id, ev, updateOk)
    {
      if !updateOk || exists i :: 0 <= i < |rows| && rows[i].id == id && !Accepts(rows[i], ev) {
        return Err(ErrDatabase);
      }
      if !(exists i :: 0 <= i < |rows| && rows[i].id == id) {
        return Err(ErrNotFound);
      }
      ghost var i :| 0 <= i < |rows| && rows[i].id == id;
      UpdateById(rows, i, (s: Subscription) => Apply(s, ev));
      rows := UpdateWhere(rows, (s: Subscription) => s.id == id, (s: Subscription) => Apply(s, ev));
      return Ok(());
    }

    method UpdateStatus(id: Id, status: SubscriptionStatus, updateOk: bool) returns (r: Result<()>)
      requires Valid()
      modifies this
      ensures Valid()
      ensures Executed(old(rows), rows, r, id, StatusSet(status), updateOk)
    {
      r := Exec(id, StatusSet(status), updateOk);
    }

    method RecordCharge(id: Id, payment: Id, updateOk: bool) returns (r: Result<()>)
      requires Valid()
      modifies this
      ensures Valid()
      ensures Executed(old(rows), rows, r, id, ChargeRecorded(payment), updateOk)
    {
      r := Exec(id, ChargeRecorded(payment), updateOk);
    }

    method IncrementFailedCharge(id: Id, updateOk: bool) returns (r: Result<()>)
      requires Valid()
      modifies this
      ensures Valid()
      ensures Executed(old(rows), rows, r, id, ChargeFailed, updateOk)
    {
      r := Exec(id, ChargeFailed, updateOk);
    }

    method SetCancelAtPeriodEnd(id: Id, updateOk: bool) returns (r: Result<()>)
      requires Valid()
      modifies this
      ensures Valid()
      ensures Executed(old(rows), rows, r, id, CancelScheduled, updateOk)
    {
      r := Exec(id, CancelScheduled, updateOk);
    }
  }
}
