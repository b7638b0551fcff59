/** OpenPay delivers again whatever was answered 500, and sometimes also what was answered 200. */
module Redelivery {
  import opened Wrappers
  import opened Balances
  import opened Fees
  import opened Payments
  import Subs = Subscriptions
  import opened Ledger
  import opened LedgerWrites
  import opened LedgerRuns

  /** The one thing a delivery answered 500 may leave behind: the in_progress row of a billing
      cycle that had none. Balances, subscriptions and existing payments are untouched. */
  ghost predicate LeftOneRow(w: World, w': World, e: Event, row: Payment) {
    && ParsedCharge(e).Some? && row.tx == ParsedCharge(e).value.id
    && IndexOfTx(w.payments, row.tx).None?
    && ParsedCharge(e).value.subscriptionId != ""
    && (var s := Subs.IndexOfSub(w.subs, ParsedCharge(e).value.subscriptionId);
        s.Some? && row == BillingCycleRow(row.id, w.subs[s.value], ParsedCharge(e).value))
    && row.status.InProgress? && CanCreate(w.payments, row)
    && (e.kind.ChargeSucceeded? || e.kind.SubscriptionChargeSucceeded?)
    && w' == w.(payments := w.payments + [row])
  }

  /** A delivery answered 500 changes nothing, or leaves one row. */
  lemma RetryChangesLittle(w: World, e: Event, a: Answers, newId: Id)
    requires Deliver(w, e, a, newId).1.Retry?
    ensures Deliver(w, e, a, newId).0 == w
            || exists row: Payment :: row.id == newId && LeftOneRow(w, Deliver(w, e, a, newId).0, e, row)
  {
    var w' := Deliver(w, e, a, newId).0;
    if w' != w {
      var c := ParsedCharge(e).value;
      var s := Subs.IndexOfSub(w.subs, c.subscriptionId).value;
      assert LeftOneRow(w, w', e, BillingCycleRow(newId, w.subs[s], c));
    }
  }

  /** Once the row is there, a further delivery does to it what a single delivery that draws the
      same id would have done; a further 500 changes nothing more. */
  lemma AfterTheRow(w: World, w1: World, row: Payment, e: Event, a: Answers, newId: Id)
    requires LeftOneRow(w, w1, e, row)
    ensures Deliver(w1, e, a, newId).1.Retry? ==> Deliver(w1, e, a, newId).0 == w1
    ensures Deliver(w1, e, a, newId).1.Ack? ==>
      Deliver(w, e, a.(create := true), row.id) == Deliver(w1, e, a, newId)
  {
    assert w1.payments[|w1.payments| - 1] == row;
    assert IndexOfTx(w1.payments, row.tx) == Some(|w.payments|);
    var c := ParsedCharge(e).value;
    var s := Subs.IndexOfSub(w.subs, c.subscriptionId).value;
    if Deliver(w1, e, a, newId).1.Ack? {
      var b := a.(create := true);
      assert Deliver(w1, e, a, newId) == SettleBillingCycle(w1, c, s, |w.payments|, a);
      assert Deliver(w, e, b, row.id) == SettleBillingCycle(w1, c, s, |w.payments|, b);
    }
  }

  datatype Try = Try(a: Answers, newId: Id)

  function AfterTries(w: World, e: Event, tries: seq<Try>): World {
    if tries == [] then w
    else
      var last := tries[|tries| - 1];
      Deliver(AfterTries(w, e, tries[..|tries| - 1]), e, last.a, last.newId).0
  }

  predicate AllRetried(w: World, e: Event, tries: seq<Try>) {
    tries == []
    || (var last := tries[|tries| - 1];
        AllRetried(w, e, tries[..|tries| - 1])
        && Deliver(AfterTries(w, e, tries[..|tries| - 1]), e, last.a, last.newId).1.Retry?)
  }

  /** One of the tries drew this payment id. */
  predicate Drawn(tries: seq<Try>, id: Id) {
    exists n :: 0 <= n < |tries| && tries[n].newId == id
  }

  lemma {:induction false} TriesLeaveAtMostOneRow(w: World, e: Event, tries: seq<Try>)
    requires AllRetried(w, e, tries)
    ensures AfterTries(w, e, tries) == w
            || exists row :: LeftOneRow(w, AfterTries(w, e, tries), e, row) && Drawn(tries, row.id)
  {
    if tries != [] {
      var q, last := tries[..|tries| - 1], tries[|tries| - 1];
      TriesLeaveAtMostOneRow(w, e, q);
      var w1 := AfterTries(w, e, q);
      if w1 == w {
        RetryChangesLittle(w, e, last.a, last.newId);
        assert tries[|q|].newId == last.newId;
      } else {
        var row :| LeftOneRow(w, w1, e, row) && Drawn(q, row.id);
        AfterTheRow(w, w1, row, e, last.a, last.newId);
        var n :| 0 <= n < |q| && q[n].newId == row.id;
        assert tries[n].newId == row.id;
      }
    }
  }

  lemma CreateFlagOfBillingCycle(w: World, e: Event, a: Answers, newId: Id)
    requires HandleSubscriptionChargeSucceeded(w, e, a, newId).1.Ack?
    ensures HandleSubscriptionChargeSucceeded(w, e, a.(create := true), newId)
            == HandleSubscriptionChargeSucceeded(w, e, a, newId)
  {
  }

  lemma CreateFlagOfStatus(w: World, e: Event, status: PaymentStatus, a: Answers)
    ensures HandleChargeStatus(w, e, status, a.(create := true)) == HandleChargeStatus(w, e, status, a)
    ensures HandleSubscriptionChargeFailed(w, e, a.(create := true)) == HandleSubscriptionChargeFailed(w, e, a)
  {
  }

  lemma CreateFlagOfCharge(w: World, e: Event, a: Answers, newId: Id)
    requires HandleChargeSucceeded(w, e, a, newId).1.Ack?
    ensures HandleChargeSucceeded(w, e, a.(create := true), newId) == HandleChargeSucceeded(w, e, a, newId)
  {
    if ParsedCharge(e).Some? && ParsedCharge(e).value.subscriptionId != "" {
      CreateFlagOfBillingCycle(w, e, a, newId);
    }
  }

  lemma CreateFlagOfOthers(w: World, e: Event, a: Answers, newId: Id)
    requires !e.kind.ChargeSucceeded? && !e.kind.SubscriptionChargeSucceeded?
    ensures Deliver(w, e, a.(create := true), newId) == Deliver(w, e, a, newId)
  {
    CreateFlagOfStatus(w, e, Failed, a);
    CreateFlagOfStatus(w, e, Cancelled, a);
    CreateFlagOfStatus(w, e, Refunded, a);
    CreateFlagOfStatus(w, e, Chargeback, a);
    CreateFlagOfChange(w, e, Subs.Cancelled, a);
    CreateFlagOfChange(w, e, Subs.Unpaid, a);
  }

  lemma CreateFlagOfChange(w: World, e: Event, status: Subs.SubscriptionStatus, a: Answers)
    ensures HandleSubscriptionStatusChange(w, e, status, a.(create := true))
            == HandleSubscriptionStatusChange(w, e, status, a)
  {
  }

  lemma CreateFlagIsUnusedOrTrue(w: World, e: Event, a: Answers, newId: Id)
    requires Deliver(w, e, a, newId).1.Ack?
    ensures Deliver(w, e, a.(create := true), newId) == Deliver(w, e, a, newId)
  {
    match e.kind
    case ChargeSucceeded => CreateFlagOfCharge(w, e, a, newId);
    case SubscriptionChargeSucceeded => CreateFlagOfBillingCycle(w, e, a, newId);
    case _ => CreateFlagOfOthers(w, e, a, newId);
  }

  /** Any number of 500s followed by one acknowledged delivery is one acknowledged delivery:
      the same tables and journal, for a payment id that some try or the last delivery drew. */
  lemma RetriesConverge(w: World, e: Event, tries: seq<Try>, a: Answers, newId: Id)
    requires AllRetried(w, e, tries)
    requires Deliver(AfterTries(w, e, tries), e, a, newId).1.Ack?
    ensures
      var out := Deliver(AfterTries(w, e, tries), e, a, newId);
      exists id :: (id == newId || Drawn(tries, id)) && Deliver(w, e, a.(create := true), id) == out
  {
    TriesLeaveAtMostOneRow(w, e, tries);
    if AfterTries(w, e, tries) == w {
      CreateFlagIsUnusedOrTrue(w, e, a, newId);
    } else {
      var row :| LeftOneRow(w, AfterTries(w, e, tries), e, row) && Drawn(tries, row.id);
      AfterTheRow(w, AfterTries(w, e, tries), row, e, a, newId);
    }
  }

  lemma AcknowledgedRowIsCompleted(w: World, e: Event, a: Answers, newId: Id) returns (i: nat)
    requires e.kind.ChargeSucceeded? || e.kind.SubscriptionChargeSucceeded?
    requires Deliver(w, e, a, newId).1.Ack?
    ensures
      var rows := Deliver(w, e, a, newId).0.payments;
      ParsedCharge(e).Some? && i < |rows| && rows[i].tx == ParsedCharge(e).value.id && rows[i].status.Completed?
  {
    var found := IndexOfTx(w.payments, ParsedCharge(e).value.id);
    i := if found.Some? then found.value else |w.payments|;
  }

  lemma DeliveryKeepsBooks(w: World, e: Event, a: Answers, newId: Id)
    requires Books(w)
    ensures Books(Deliver(w, e, a, newId).0)
  {
    var xs := DeliveryWrites(w, e, a, newId);
    WritesKeepBooks(w, xs);
  }

  lemma {:induction false} TriesKeepBooks(w: World, e: Event, tries: seq<Try>)
    requires Books(w)
    ensures Books(AfterTries(w, e, tries))
  {
    if tries != [] {
      var q, last := tries[..|tries| - 1], tries[|tries| - 1];
      TriesKeepBooks(w, e, q);
      DeliveryKeepsBooks(AfterTries(w, e, q), e, last.a, last.newId);
    }
  }

  /** An acknowledged charge.succeeded or subscription.charge.succeeded leaves exactly one
      completed row for its transaction, however many deliveries came before. */
  lemma ExactlyOneRow(w: World, e: Event, tries: seq<Try>, a: Answers, newId: Id)
    requires Books(w)
    requires e.kind.ChargeSucceeded? || e.kind.SubscriptionChargeSucceeded?
    requires Deliver(AfterTries(w, e, tries), e, a, newId).1.Ack?
    ensures
      var rows := Deliver(AfterTries(w, e, tries), e, a, newId).0.payments;
      && ParsedCharge(e).Some?
      && CountTx(rows, ParsedCharge(e).value.id) == 1
      && (exists i :: 0 <= i < |rows| && rows[i].tx == ParsedCharge(e).value.id && rows[i].status.Completed?)
  {
    TriesKeepBooks(w, e, tries);
    var v := AfterTries(w, e, tries);
    DeliveryKeepsBooks(v, e, a, newId);
    var i := AcknowledgedRowIsCompleted(v, e, a, newId);
    UniqueTxCountsOnce(Deliver(v, e, a, newId).0.payments, i);
  }

  // ── The other direction: acknowledged twice ──

  /** SettlePayment has no status guard: a one-time charge acknowledged twice is credited twice,
      while its row still shows its net once. */
  lemma AcknowledgedTwiceCreditsTwice(w: World, e: Event, i: nat, a: Answers, b: Answers, id1: Id, id2: Id)
    requires e.kind.ChargeSucceeded? && ParsedCharge(e).Some? && ParsedCharge(e).value.subscriptionId == ""
    requires IndexOfTx(w.payments, ParsedCharge(e).value.id) == Some(i)
    requires Deliver(w, e, a, id1).1.Ack?
    requires Deliver(Deliver(w, e, a, id1).0, e, b, id2).1.Ack?
    requires a.creditUpdate && a.creditInsert && b.creditUpdate
    ensures
      var k := w.payments[i].Owner();
      var w1 := Deliver(w, e, a, id1).0;
      var w2 := Deliver(w1, e, b, id2).0;
      && |w1.payments| == |w.payments|
      && Get(w1.balances, k).available == Get(w.balances, k).available + w1.payments[i].fees.net
      && Get(w2.balances, k).available == Get(w1.balances, k).available + w1.payments[i].fees.net
      && w2.payments == w1.payments
  {
    var p := w.payments[i];
    var fees := Split(ParsedCharge(e).value, w.tenants[p.tenant]);
    var w1 := Deliver(w, e, a, id1).0;
    assert w1 == SettleRow(w, i, fees, p.Owner(), true);
    SettledRowIsFoundAgain(w.payments, i, fees, ParsedCharge(e).value.id);
    var w2 := Deliver(w1, e, b, id2).0;
    assert w2 == SettleRow(w1, i, fees, p.Owner(), true);
    assert w1.payments[i := Settled(w1.payments[i], fees)] == w1.payments;
  }

  lemma SettledRowIsFoundAgain(rows: seq<Payment>, i: nat, fees: PaymentFees, tx: string)
    requires IndexOfTx(rows, tx) == Some(i)
    ensures i < |rows| && IndexOfTx(rows[i := Settled(rows[i], fees)], tx) == Some(i)
  {
    FoundAgain(rows, rows[i := Settled(rows[i], fees)], (p: Payment) => p.tx == tx);
  }

  lemma {:induction false} FoundAgain<T>(rows: seq<T>, rows': seq<T>, has: T -> bool)
    requires |rows| == |rows'| && forall i :: 0 <= i < |rows| ==> has(rows[i]) == has(rows'[i])
    ensures IndexWhere(rows, has) == IndexWhere(rows', has)
  {
    if rows != [] {
      FoundAgain(rows[..|rows| - 1], rows'[..|rows'| - 1], has);
    }
  }

  // ── Exactly when a charge can be acknowledged ──

  predicate ChargeFits(c: Charge, config: TenantConfig) {
    FeesFit(c.amount, if c.fee.Some? then c.fee.value else 0, config.fee, config.feeType)
  }

  /** The row of a one-time charge belongs to a known tenant whose fees fit. */
  predicate Settleable(w: World, c: Charge) {
    exists i :: 0 <= i < |w.payments| && w.payments[i].tx == c.id
      && w.payments[i].tenant in w.tenants && ChargeFits(c, w.tenants[w.payments[i].tenant])
  }

  /** The subscription of a billing cycle belongs to a known tenant whose fees fit. */
  predicate CycleFits(w: World, c: Charge, s: nat) {
    && s < |w.subs| && w.subs[s].openpaySubId == c.subscriptionId
    && w.subs[s].tenant in w.tenants && ChargeFits(c, w.tenants[w.subs[s].tenant])
  }

  predicate HasTx(rows: seq<Payment>, tx: string) {
    exists i :: 0 <= i < |rows| && rows[i].tx == tx
  }

  /** And its row is there or can be created. */
  predicate CycleSettleable(w: World, c: Charge, newId: Id) {
    exists s :: 0 <= s < |w.subs| && CycleFits(w, c, s)
      && (HasTx(w.payments, c.id) || CanCreate(w.payments, BillingCycleRow(newId, w.subs[s], c)))
  }

  /** The payload is a charge with an id. */
  predicate Parses(e: Event) {
    e.charge.Some? && e.charge.value.id != ""
  }

  /** A subscription with this OpenPay id can count one more failure. */
  predicate CanFail(w: World, openpaySubId: string) {
    exists s :: 0 <= s < |w.subs| && w.subs[s].openpaySubId == openpaySubId && w.subs[s].failedChargeCount < 32_767
  }

  predicate HasSub(w: World, openpaySubId: string) {
    exists s :: 0 <= s < |w.subs| && w.subs[s].openpaySubId == openpaySubId
  }

  /** What the tables must hold for an event to be acknowledged. The status of a payment does not matter. */
  predicate Acceptable(w: World, e: Event, newId: Id) {
    match e.kind
    case Verification => true
    case Unknown(_) => true
    case ChargeSucceeded =>
      && Parses(e)
      && (if e.charge.value.subscriptionId == "" then Settleable(w, e.charge.value)
          else CycleSettleable(w, e.charge.value, newId))
    case SubscriptionChargeSucceeded =>
      Parses(e) && e.charge.value.subscriptionId != "" && CycleSettleable(w, e.charge.value, newId)
    case ChargeFailed =>
      && Parses(e)
      && (if e.charge.value.subscriptionId == "" then HasTx(w.payments, e.charge.value.id)
          else CanFail(w, e.charge.value.subscriptionId))
    case SubscriptionChargeFailed =>
      Parses(e) && e.charge.value.subscriptionId != "" && CanFail(w, e.charge.value.subscriptionId)
    case ChargeCancelled => Parses(e) && HasTx(w.payments, e.charge.value.id)
    case ChargeRefunded => Parses(e) && HasTx(w.payments, e.charge.value.id)
    case ChargebackAccepted => Parses(e) && HasTx(w.payments, e.charge.value.id)
    case SubscriptionCancelled => e.subscriptionRef.Some? && HasSub(w, e.subscriptionRef.value)
    case SubscriptionDeactivated => e.subscriptionRef.Some? && HasSub(w, e.subscriptionRef.value)
  }

  lemma SplitPassesIff(c: Charge, config: TenantConfig)
    ensures PassesChecks(Split(c, config)) <==> ChargeFits(c, config)
  {
    SettlementPassesIff(c.amount, if c.fee.Some? then c.fee.value else 0, config.fee, config.feeType);
  }

  lemma FoundTx(rows: seq<Payment>, tx: string, i: nat)
    requires RowsValid(rows) && i < |rows| && rows[i].tx == tx
    ensures IndexOfTx(rows, tx) == Some(i)
  {
    var found := IndexOfTx(rows, tx).value;
    assert i < found ==> Collide(rows[i], rows[found]);
    assert found < i ==> Collide(rows[found], rows[i]);
  }

  lemma FoundSub(rows: seq<Subs.Subscription>, openpaySubId: string, s: nat)
    requires Subs.SubIdsUnique(rows) && s < |rows| && rows[s].openpaySubId == openpaySubId
    ensures Subs.IndexOfSub(rows, openpaySubId) == Some(s)
  {
  }

  lemma ChargeAcceptable(w: World, e: Event, a: Answers, newId: Id)
    requires IsCharge(e) && Deliver(w, e, a, newId).1.Ack?
    ensures Acceptable(w, e, newId)
  {
    var c := ParsedCharge(e).value;
    var found := IndexOfTx(w.payments, c.id);
    if c.subscriptionId == "" {
      SplitPassesIff(c, w.tenants[w.payments[found.value].tenant]);
    } else {
      var s := Subs.IndexOfSub(w.subs, c.subscriptionId).value;
      SplitPassesIff(c, w.tenants[w.subs[s].tenant]);
      assert CycleFits(w, c, s);
      assert found.Some? ==> HasTx(w.payments, c.id);
    }
  }

  lemma FailureAcceptable(w: World, e: Event, a: Answers)
    requires HandleSubscriptionChargeFailed(w, e, a).1.Ack?
    ensures Parses(e) && e.charge.value.subscriptionId != "" && CanFail(w, e.charge.value.subscriptionId)
  {
    assert w.subs[Subs.IndexOfSub(w.subs, e.charge.value.subscriptionId).value].failedChargeCount < 32_767;
  }

  lemma StatusAcceptable(w: World, e: Event, status: PaymentStatus, a: Answers)
    requires HandleChargeStatus(w, e, status, a).1.Ack?
    ensures Parses(e)
    ensures
      if e.charge.value.subscriptionId != "" && status.Failed? then CanFail(w, e.charge.value.subscriptionId)
      else HasTx(w.payments, e.charge.value.id)
  {
    if e.charge.value.subscriptionId != "" && status.Failed? {
      FailureAcceptable(w, e, a);
    }
  }

  /** Whichever calls fail, only an acceptable event is acknowledged. */
  lemma AcknowledgedOnlyIf(w: World, e: Event, a: Answers, newId: Id)
    requires Deliver(w, e, a, newId).1.Ack?
    ensures Acceptable(w, e, newId)
  {
    match e.kind
    case ChargeSucceeded => ChargeAcceptable(w, e, a, newId);
    case SubscriptionChargeSucceeded => ChargeAcceptable(w, e, a, newId);
    case ChargeFailed => StatusAcceptable(w, e, Failed, a);
    case ChargeCancelled => StatusAcceptable(w, e, Cancelled, a);
    case ChargeRefunded => StatusAcceptable(w, e, Refunded, a);
    case ChargebackAccepted => StatusAcceptable(w, e, Chargeback, a);
    case SubscriptionChargeFailed => FailureAcceptable(w, e, a);
    case SubscriptionCancelled => assert HasSub(w, e.subscriptionRef.value);
    case SubscriptionDeactivated => assert HasSub(w, e.subscriptionRef.value);
    case _ =>
  }

  lemma ChargeAccepted(w: World, e: Event, newId: Id, i: nat)
    requires Books(w) && e.kind.ChargeSucceeded? && ParsedCharge(e).Some?
    requires ParsedCharge(e).value.subscriptionId == ""
    requires i < |w.payments| && w.payments[i].tx == ParsedCharge(e).value.id
    requires w.payments[i].tenant in w.tenants && ChargeFits(ParsedCharge(e).value, w.tenants[w.payments[i].tenant])
    ensures Deliver(w, e, ALL_ANSWERED, newId).1.Ack?
  {
    FoundTx(w.payments, ParsedCharge(e).value.id, i);
    SplitPassesIff(ParsedCharge(e).value, w.tenants[w.payments[i].tenant]);
  }

  lemma CycleAccepted(w: World, e: Event, newId: Id, s: nat)
    requires Books(w) && IsCharge(e) && ParsedCharge(e).Some? && ParsedCharge(e).value.subscriptionId != ""
    requires CycleFits(w, ParsedCharge(e).value, s)
    requires
      || HasTx(w.payments, ParsedCharge(e).value.id)
      || CanCreate(w.payments, BillingCycleRow(newId, w.subs[s], ParsedCharge(e).value))
    ensures Deliver(w, e, ALL_ANSWERED, newId).1.Ack?
  {
    FoundSub(w.subs, ParsedCharge(e).value.subscriptionId, s);
    SplitPassesIff(ParsedCharge(e).value, w.tenants[w.subs[s].tenant]);
  }

  lemma AcceptableCharge(w: World, e: Event, newId: Id)
    requires Books(w) && IsCharge(e) && Acceptable(w, e, newId)
    ensures Deliver(w, e, ALL_ANSWERED, newId).1.Ack?
  {
    var c := e.charge.value;
    if c.subscriptionId == "" {
      var i :| 0 <= i < |w.payments| && w.payments[i].tx == c.id
        && w.payments[i].tenant in w.tenants && ChargeFits(c, w.tenants[w.payments[i].tenant]);
      ChargeAccepted(w, e, newId, i);
    } else {
      var s :| 0 <= s < |w.subs| && CycleFits(w, c, s)
        && (HasTx(w.payments, c.id) || CanCreate(w.payments, BillingCycleRow(newId, w.subs[s], c)));
      CycleAccepted(w, e, newId, s);
    }
  }

  lemma AcceptableFailure(w: World, e: Event)
    requires Books(w) && Parses(e) && e.charge.value.subscriptionId != "" && CanFail(w, e.charge.value.subscriptionId)
    ensures HandleSubscriptionChargeFailed(w, e, ALL_ANSWERED).1.Ack?
  {
    var id := e.charge.value.subscriptionId;
    var s :| 0 <= s < |w.subs| && w.subs[s].openpaySubId == id && w.subs[s].failedChargeCount < 32_767;
    FoundSub(w.subs, id, s);
  }

  lemma AcceptableStatus(w: World, e: Event, status: PaymentStatus)
    requires Books(w) && Parses(e)
    requires
      if e.charge.value.subscriptionId != "" && status.Failed? then CanFail(w, e.charge.value.subscriptionId)
      else HasTx(w.payments, e.charge.value.id)
    ensures HandleChargeStatus(w, e, status, ALL_ANSWERED).1.Ack?
  {
    if e.charge.value.subscriptionId != "" && status.Failed? {
      AcceptableFailure(w, e);
    }
  }

  lemma AcceptableChange(w: World, e: Event, status: Subs.SubscriptionStatus)
    requires Books(w) && e.subscriptionRef.Some? && HasSub(w, e.subscriptionRef.value)
    ensures HandleSubscriptionStatusChange(w, e, status, ALL_ANSWERED).1.Ack?
  {
  }

  lemma AcceptableIsAcknowledged(w: World, e: Event, newId: Id)
    requires Books(w) && Acceptable(w, e, newId)
    ensures Deliver(w, e, ALL_ANSWERED, newId).1.Ack?
  {
    match e.kind
    case ChargeSucceeded => AcceptableCharge(w, e, newId);
    case SubscriptionChargeSucceeded => AcceptableCharge(w, e, newId);
    case ChargeFailed => AcceptableStatus(w, e, Failed);
    case ChargeCancelled => AcceptableStatus(w, e, Cancelled);
    case ChargeRefunded => AcceptableStatus(w, e, Refunded);
    case ChargebackAccepted => AcceptableStatus(w, e, Chargeback);
    case SubscriptionChargeFailed => AcceptableFailure(w, e);
    case SubscriptionCancelled => AcceptableChange(w, e, Subs.Cancelled);
    case SubscriptionDeactivated => AcceptableChange(w, e, Subs.Unpaid);
    case _ =>
  }

  /** The calls without which the event is answered 500; a failure of any other is only logged. */
  predicate CallsAnswered(w: World, e: Event, a: Answers) {
    match e.kind
    case Verification => true
    case Unknown(_) => true
    case ChargeSucceeded => ChargeAnswered(w, e, a)
    case SubscriptionChargeSucceeded => ChargeAnswered(w, e, a)
    case ChargeFailed =>
      if e.charge.Some? && e.charge.value.subscriptionId != "" then a.getSubscription && a.increment
      else a.getPayment && a.updateStatus
    case SubscriptionChargeFailed => a.getSubscription && a.increment
    case ChargeCancelled => a.getPayment && a.updateStatus
    case ChargeRefunded => a.getPayment && a.updateStatus
    case ChargebackAccepted => a.getPayment && a.updateStatus
    case SubscriptionCancelled => a.getSubscription && a.updateStatus
    case SubscriptionDeactivated => a.getSubscription && a.updateStatus
  }

  predicate ChargeAnswered(w: World, e: Event, a: Answers) {
    && a.getPayment && a.getTenant && a.settle
    && (e.charge.Some? && e.charge.value.subscriptionId != "" ==>
         a.getSubscription && (HasTx(w.payments, e.charge.value.id) || a.create))
  }

  lemma CycleNeeds(w: World, e: Event, a: Answers, newId: Id)
    requires ParsedCharge(e).Some? && ParsedCharge(e).value.subscriptionId != ""
    ensures HandleSubscriptionChargeSucceeded(w, e, a, newId).1.Ack? <==>
      HandleSubscriptionChargeSucceeded(w, e, ALL_ANSWERED, newId).1.Ack? && ChargeAnswered(w, e, a)
  {
    var c := ParsedCharge(e).value;
    assert IndexOfTx(w.payments, c.id).Some? <==> HasTx(w.payments, c.id);
  }

  lemma ChargeNeeds(w: World, e: Event, a: Answers, newId: Id)
    ensures HandleChargeSucceeded(w, e, a, newId).1.Ack? <==>
      HandleChargeSucceeded(w, e, ALL_ANSWERED, newId).1.Ack? && ChargeAnswered(w, e, a)
  {
    if ParsedCharge(e).Some? && ParsedCharge(e).value.subscriptionId != "" {
      CycleNeeds(w, e, a, newId);
    }
  }

  lemma FailureNeeds(w: World, e: Event, a: Answers)
    ensures HandleSubscriptionChargeFailed(w, e, a).1.Ack? <==>
      HandleSubscriptionChargeFailed(w, e, ALL_ANSWERED).1.Ack? && a.getSubscription && a.increment
  {
  }

  lemma StatusNeeds(w: World, e: Event, status: PaymentStatus, a: Answers)
    ensures HandleChargeStatus(w, e, status, a).1.Ack? <==>
      && HandleChargeStatus(w, e, status, ALL_ANSWERED).1.Ack?
      && (if e.charge.Some? && e.charge.value.subscriptionId != "" && status.Failed? then
            a.getSubscription && a.increment
          else a.getPayment && a.updateStatus)
  {
    FailureNeeds(w, e, a);
  }

  lemma DeliveryNeeds(w: World, e: Event, a: Answers, newId: Id)
    ensures Deliver(w, e, a, newId).1.Ack? <==>
      Deliver(w, e, ALL_ANSWERED, newId).1.Ack? && CallsAnswered(w, e, a)
  {
    match e.kind
    case ChargeSucceeded => ChargeNeeds(w, e, a, newId);
    case SubscriptionChargeSucceeded =>
      if ParsedCharge(e).Some? && ParsedCharge(e).value.subscriptionId != "" {
        CycleNeeds(w, e, a, newId);
      }
    case ChargeFailed => StatusNeeds(w, e, Failed, a);
    case ChargeCancelled => StatusNeeds(w, e, Cancelled, a);
    case ChargeRefunded => StatusNeeds(w, e, Refunded, a);
    case ChargebackAccepted => StatusNeeds(w, e, Chargeback, a);
    case SubscriptionChargeFailed => FailureNeeds(w, e, a);
    case _ =>
  }

  /** An event of any kind is acknowledged if and only if the tables hold what it needs and the calls it
      cannot do without are answered. */
  lemma AcknowledgedIff(w: World, e: Event, a: Answers, newId: Id)
    requires Books(w)
    ensures Deliver(w, e, a, newId).1.Ack? <==> Acceptable(w, e, newId) && CallsAnswered(w, e, a)
  {
    DeliveryNeeds(w, e, a, newId);
    if Deliver(w, e, ALL_ANSWERED, newId).1.Ack? {
      AcknowledgedOnlyIf(w, e, ALL_ANSWERED, newId);
    }
    if Acceptable(w, e, newId) {
      AcceptableIsAcknowledged(w, e, newId);
    }
  }

  /** Verifications and unknown events change nothing. */
  lemma OthersAreIgnored(w: World, e: Event, a: Answers, newId: Id)
    requires e.kind.Verification? || e.kind.Unknown?
    ensures Deliver(w, e, a, newId) == (w, Ack)
  {
  }

  /** No row or subscription the charge could settle has a tenant whose fees fit: for example an
      inclusive tenant whose constant is below OpenPay's fee. */
  ghost predicate Hopeless(w: World, e: Event) {
    ParsedCharge(e).Some? ==>
      var c := ParsedCharge(e).value;
      if c.subscriptionId == "" then !Settleable(w, c) else forall s :: 0 <= s < |w.subs| ==> !CycleFits(w, c, s)
  }

  lemma HopelessIsRefused(w: World, e: Event, a: Answers, newId: Id)
    requires IsCharge(e) && Hopeless(w, e)
    ensures Deliver(w, e, a, newId).1.Retry?
  {
    if Deliver(w, e, a, newId).1.Ack? {
      AcknowledgedOnlyIf(w, e, a, newId);
      assert false;
    }
  }

  lemma StillHopeless(w: World, w': World, e: Event, row: Payment)
    requires Hopeless(w, e) && LeftOneRow(w, w', e, row)
    ensures Hopeless(w', e)
  {
    var c := ParsedCharge(e).value;
    forall s | 0 <= s < |w'.subs| ensures !CycleFits(w', c, s) {
      assert !CycleFits(w, c, s);
    }
  }
}
