/** Redelivery while the rest of the service goes on: other steps come between the deliveries of one
    charge. */
module Interleaved {
  import opened Wrappers
  import opened Balances
  import opened Fees
  import opened Payments
  import Subs = Subscriptions
  import opened Ledger
  import opened LedgerRuns
  import opened Acknowledged
  import opened Redelivery

  // ── A charge that can never be acknowledged ──

  /** The step does not add the row or the subscription the charge is missing, and configures no tenant
      so that its fees fit. */
  predicate LeavesHopeless(s: Step, e: Event) {
    match s
    case Delivery(e', _, _) => e' == e || Transaction(e') != Transaction(e)
    case NewCharge(d, _) => d.tx != Transaction(e)
    case NewSubscription(sub, _) => e.charge.Some? ==> sub.openpaySubId != e.charge.value.subscriptionId
    case ConfigureTenant(_, config) => e.charge.Some? ==> !ChargeFits(e.charge.value, config)
    case _ => true
  }

  lemma StepKeepsSubscriptions(w: World, s: Step)
    ensures |w.subs| <= |Next(w, s).subs|
    ensures forall n :: 0 <= n < |w.subs| ==> SameSubscription(w.subs[n], Next(w, s).subs[n])
  {
    if s.Delivery? {
      DeliveryIsFramed(w, s.e, s.a, s.id);
    }
  }

  lemma OtherDeliveryLeavesHopeless(w: World, e: Event, e': Event, a: Answers, newId: Id)
    requires Hopeless(w, e) && Transaction(e') != Transaction(e)
    ensures Hopeless(Deliver(w, e', a, newId).0, e)
  {
    var w' := Deliver(w, e', a, newId).0;
    DeliveryIsFramed(w, e', a, newId);
    if ParsedCharge(e).Some? {
      var c := ParsedCharge(e).value;
      forall s | 0 <= s < |w'.subs| && c.subscriptionId != "" ensures !CycleFits(w', c, s) {
        assert !CycleFits(w, c, s);
      }
    }
  }

  lemma StepLeavesHopeless(w: World, s: Step, e: Event)
    requires IsCharge(e) && Hopeless(w, e) && LeavesHopeless(s, e)
    ensures Hopeless(Next(w, s), e)
  {
    match s
    case Delivery(e', a, id) =>
      if e' == e {
        HopelessIsRefused(w, e, a, id);
        RetryChangesLittle(w, e, a, id);
        if Next(w, s) != w {
          var row :| LeftOneRow(w, Next(w, s), e, row);
          StillHopeless(w, Next(w, s), e, row);
        }
      } else {
        OtherDeliveryLeavesHopeless(w, e, e', a, id);
      }
    case _ => OtherStepLeavesHopeless(w, s, e);
  }

  lemma OtherStepLeavesHopeless(w: World, s: Step, e: Event)
    requires !s.Delivery? && Hopeless(w, e) && LeavesHopeless(s, e)
    ensures Hopeless(Next(w, s), e)
  {
    var w' := Next(w, s);
    if ParsedCharge(e).Some? {
      var c := ParsedCharge(e).value;
      forall n | 0 <= n < |w'.subs| && c.subscriptionId != "" ensures !CycleFits(w', c, n) {
        assert n < |w.subs| ==> !CycleFits(w, c, n);
      }
    }
  }

  /** Such a charge is answered 500 every time, whatever is answered and done in between, until a step
      adds what is missing or configures a tenant whose fees fit. */
  lemma {:induction false} RefusedEveryTime(w: World, e: Event, steps: seq<Step>)
    requires IsCharge(e) && Hopeless(w, e)
    requires forall n :: 0 <= n < |steps| ==> LeavesHopeless(steps[n], e)
    ensures Hopeless(Run(w, steps), e)
    ensures forall a, newId :: Deliver(Run(w, steps), e, a, newId).1.Retry?
  {
    if steps != [] {
      RefusedEveryTime(w, e, steps[..|steps| - 1]);
      StepLeavesHopeless(Run(w, steps[..|steps| - 1]), steps[|steps| - 1], e);
    }
    forall a, newId ensures Deliver(Run(w, steps), e, a, newId).1.Retry? {
      HopelessIsRefused(Run(w, steps), e, a, newId);
    }
  }

  // ── The tables without the rows of one transaction ──

  function Drop(rows: seq<Payment>, tx: string): seq<Payment> {
    if rows == [] then []
    else
      var last := rows[|rows| - 1];
      Drop(rows[..|rows| - 1], tx) + if last.tx == tx then [] else [last]
  }

  function Without(w: World, tx: string): World {
    w.(payments := Drop(w.payments, tx))
  }

  /** Where row i stands once the rows of the transaction are gone. */
  function Place(rows: seq<Payment>, tx: string, i: nat): nat
    requires i <= |rows|
  {
    |Drop(rows[..i], tx)|
  }

  lemma DropAppend(rows: seq<Payment>, tx: string, p: Payment)
    ensures Drop(rows + [p], tx) == if p.tx == tx then Drop(rows, tx) else Drop(rows, tx) + [p]
  {
    assert (rows + [p])[..|rows|] == rows;
  }

  lemma {:induction false} DropAt(rows: seq<Payment>, tx: string, i: nat, p: Payment)
    requires i < |rows| && rows[i].tx != tx && p.tx != tx
    ensures
      var j := Place(rows, tx, i);
      j < |Drop(rows, tx)| && Drop(rows, tx)[j] == rows[i] && Drop(rows[i := p], tx) == Drop(rows, tx)[j := p]
  {
    var q := rows[..|rows| - 1];
    if i == |q| {
      assert rows[i := p][..|q|] == q;
    } else {
      DropAt(q, tx, i, p);
      assert q[..i] == rows[..i] && rows[i := p][..|q|] == q[i := p];
    }
  }

  /** Changing a row of the transaction itself does not show. */
  lemma {:induction false} DropHides(rows: seq<Payment>, tx: string, i: nat, p: Payment)
    requires i < |rows| && rows[i].tx == tx && p.tx == tx
    ensures Drop(rows[i := p], tx) == Drop(rows, tx)
  {
    var q := rows[..|rows| - 1];
    if i == |q| {
      assert rows[i := p][..|q|] == q;
    } else {
      DropHides(q, tx, i, p);
      assert rows[i := p][..|q|] == q[i := p];
    }
  }

  lemma {:induction false} DropNothing(rows: seq<Payment>, tx: string)
    requires forall i :: 0 <= i < |rows| ==> rows[i].tx != tx
    ensures Drop(rows, tx) == rows
  {
    if rows != [] {
      DropNothing(rows[..|rows| - 1], tx);
    }
  }

  lemma {:induction false} DropKeeps(rows: seq<Payment>, tx: string, p: Payment)
    ensures p in Drop(rows, tx) <==> p in rows && p.tx != tx
  {
    if rows != [] {
      DropKeeps(rows[..|rows| - 1], tx, p);
    }
  }

  /** A search that no row of the transaction answers finds the same row. */
  lemma {:induction false} SearchDropped(rows: seq<Payment>, tx: string, has: Payment -> bool)
    requires forall i :: 0 <= i < |rows| && has(rows[i]) ==> rows[i].tx != tx
    ensures
      var found := IndexWhere(rows, has);
      IndexWhere(Drop(rows, tx), has) == if found.Some? then Some(Place(rows, tx, found.value)) else None
  {
    if rows != [] {
      var q := rows[..|rows| - 1];
      SearchDropped(q, tx, has);
      assert rows == q + [rows[|q|]];
      DropAppend(q, tx, rows[|q|]);
      if !has(rows[|q|]) && IndexWhere(q, has).Some? {
        assert q[..IndexWhere(q, has).value] == rows[..IndexWhere(q, has).value];
      }
      if rows[|q|].tx != tx {
        SearchAppended(Drop(q, tx), rows[|q|], has);
      }
    }
  }

  lemma SearchAppended(rows: seq<Payment>, p: Payment, has: Payment -> bool)
    ensures IndexWhere(rows + [p], has) == if has(p) then Some(|rows|) else IndexWhere(rows, has)
  {
    assert (rows + [p])[..|rows|] == rows;
  }

  // ── Steps apart from the transaction ──

  /** No row of the transaction has this id or this idempotency key. */
  predicate FreshBeside(rows: seq<Payment>, tx: string, id: Id, key: string) {
    forall i :: 0 <= i < |rows| && rows[i].tx == tx ==> rows[i].id != id && rows[i].idempotencyKey != key
  }

  /** The step does not name the transaction, refund it, or collide with a row of it. */
  predicate Apart(w: World, s: Step, tx: string) {
    match s
    case Delivery(e, _, id) => Transaction(e) != tx && FreshBeside(w.payments, tx, id, "sub:" + Transaction(e))
    case NewCharge(d, _) => d.tx != tx && FreshBeside(w.payments, tx, d.id, d.idempotencyKey)
    case Refund(_, payment, _, _, _) =>
      forall i :: 0 <= i < |w.payments| && w.payments[i].tx == tx ==> w.payments[i].id != payment
    case _ => true
  }

  lemma CanCreateBeside(rows: seq<Payment>, tx: string, p: Payment)
    requires p.tx != tx && FreshBeside(rows, tx, p.id, p.idempotencyKey)
    ensures CanCreate(Drop(rows, tx), p) <==> CanCreate(rows, p)
  {
    forall q | q in rows && q.tx != tx ensures q in Drop(rows, tx) {
      DropKeeps(rows, tx, q);
    }
    forall q | q in Drop(rows, tx) ensures q in rows {
      DropKeeps(rows, tx, q);
    }
    if CanCreate(Drop(rows, tx), p) {
      forall i | 0 <= i < |rows| ensures !Collide(rows[i], p) {
        if rows[i].tx != tx {
          assert rows[i] in Drop(rows, tx);
        }
      }
    }
    if CanCreate(rows, p) {
      forall i | 0 <= i < |Drop(rows, tx)| ensures !Collide(Drop(rows, tx)[i], p) {
        assert Drop(rows, tx)[i] in rows;
      }
    }
  }

  lemma SettleBeside(w: World, tx: string, i: nat, fees: PaymentFees, owner: Key, credited: bool)
    requires i < |w.payments| && w.payments[i].tx != tx
    ensures
      var j := Place(w.payments, tx, i);
      && j < |Without(w, tx).payments| && Without(w, tx).payments[j] == w.payments[i]
      && Without(SettleRow(w, i, fees, owner, credited), tx) == SettleRow(Without(w, tx), j, fees, owner, credited)
  {
    DropAt(w.payments, tx, i, Settled(w.payments[i], fees));
  }

  lemma CloseBeside(
    w: World, tx: string, i: nat, marked: bool, status: PaymentStatus, message: string, owner: Key, done: bool)
    requires i < |w.payments| && w.payments[i].tx != tx
    ensures
      var j := Place(w.payments, tx, i);
      && j < |Without(w, tx).payments| && Without(w, tx).payments[j] == w.payments[i]
      && Without(CloseRow(w, i, marked, status, message, owner, done), tx)
         == CloseRow(Without(w, tx), j, marked, status, message, owner, done)
  {
    DropAt(w.payments, tx, i, WithStatus(w.payments[i], status, message));
  }

  lemma FindBeside(rows: seq<Payment>, tx: string, t: string)
    requires t != tx
    ensures
      var found := IndexOfTx(rows, t);
      IndexOfTx(Drop(rows, tx), t) == if found.Some? then Some(Place(rows, tx, found.value)) else None
  {
    SearchDropped(rows, tx, (p: Payment) => p.tx == t);
  }

  lemma CycleBeside(w: World, tx: string, c: Charge, s: nat, i: nat, a: Answers)
    requires i < |w.payments| && w.payments[i].tx != tx && s < |w.subs| && w.subs[s].tenant in w.tenants
    ensures
      var (w', reply) := SettleBillingCycle(w, c, s, i, a);
      var j := Place(w.payments, tx, i);
      && j < |Without(w, tx).payments|
      && SettleBillingCycle(Without(w, tx), c, s, j, a) == (Without(w', tx), reply)
  {
    var owner := Key(w.subs[s].tenant, w.payments[i].currency);
    SettleBeside(w, tx, i, Split(c, w.tenants[w.subs[s].tenant]), owner, CreditAnswered(w, owner, a));
  }

  lemma MadeCycleBeside(w: World, tx: string, row: Payment, c: Charge, s: nat, a: Answers)
    requires row.tx != tx && s < |w.subs| && w.subs[s].tenant in w.tenants
    ensures
      var (w', reply) := SettleBillingCycle(CreateRow(w, row), c, s, |w.payments|, a);
      var u := Without(w, tx);
      SettleBillingCycle(CreateRow(u, row), c, s, |u.payments|, a) == (Without(w', tx), reply)
  {
    DropAppend(w.payments, tx, row);
    assert (w.payments + [row])[..|w.payments|] == w.payments;
    CycleBeside(CreateRow(w, row), tx, c, s, |w.payments|, a);
  }

  lemma SubscriptionChargeBeside(w: World, tx: string, e: Event, a: Answers, newId: Id)
    requires Apart(w, Delivery(e, a, newId), tx)
    ensures
      var (w', reply) := HandleSubscriptionChargeSucceeded(w, e, a, newId);
      HandleSubscriptionChargeSucceeded(Without(w, tx), e, a, newId) == (Without(w', tx), reply)
  {
    if ParsedCharge(e).Some? && Subs.IndexOfSub(w.subs, ParsedCharge(e).value.subscriptionId).Some? {
      var c := ParsedCharge(e).value;
      var s := Subs.IndexOfSub(w.subs, c.subscriptionId).value;
      FindBeside(w.payments, tx, c.id);
      if w.subs[s].tenant in w.tenants {
        var found := IndexOfTx(w.payments, c.id);
        if found.Some? {
          CycleBeside(w, tx, c, s, found.value, a);
        } else {
          CanCreateBeside(w.payments, tx, BillingCycleRow(newId, w.subs[s], c));
          MadeCycleBeside(w, tx, BillingCycleRow(newId, w.subs[s], c), c, s, a);
        }
      }
    }
  }

  lemma ChargeBeside(w: World, tx: string, e: Event, a: Answers, newId: Id)
    requires Apart(w, Delivery(e, a, newId), tx)
    ensures
      var (w', reply) := HandleChargeSucceeded(w, e, a, newId);
      HandleChargeSucceeded(Without(w, tx), e, a, newId) == (Without(w', tx), reply)
  {
    SubscriptionChargeBeside(w, tx, e, a, newId);
    if ParsedCharge(e).Some? && ParsedCharge(e).value.subscriptionId == "" {
      var c := ParsedCharge(e).value;
      FindBeside(w.payments, tx, c.id);
      var found := IndexOfTx(w.payments, c.id);
      if found.Some? {
        var p := w.payments[found.value];
        DropAt(w.payments, tx, found.value, p);
        if p.tenant in w.tenants {
          SettleBeside(w, tx, found.value, Split(c, w.tenants[p.tenant]), p.Owner(), CreditAnswered(w, p.Owner(), a));
        }
      }
    }
  }

  lemma FailureBeside(w: World, tx: string, e: Event, a: Answers)
    requires Transaction(e) != tx
    ensures
      var (w', reply) := HandleSubscriptionChargeFailed(w, e, a);
      HandleSubscriptionChargeFailed(Without(w, tx), e, a) == (Without(w', tx), reply)
  {
    if ParsedCharge(e).Some? && Subs.IndexOfSub(w.subs, ParsedCharge(e).value.subscriptionId).Some? {
      var c := ParsedCharge(e).value;
      var s := Subs.IndexOfSub(w.subs, c.subscriptionId).value;
      FindBeside(w.payments, tx, c.id);
      var found := IndexOfTx(w.payments, c.id);
      if found.Some? {
        var owner := Key(w.subs[s].tenant, w.payments[found.value].currency);
        CloseBeside(MoveSub(w, s, Subs.ChargeFailed), tx, found.value, a.updateStatus, Failed, c.errorMessage, owner,
          CreditAnswered(w, owner, a));
      }
    }
  }

  /** UpdateStatus and the release, once the row is found. */
  lemma ClosedBeside(w: World, tx: string, c: Charge, status: PaymentStatus, a: Answers)
    requires c.id != tx && IndexOfTx(w.payments, c.id).Some?
    ensures
      var i := IndexOfTx(w.payments, c.id).value;
      var j := Place(w.payments, tx, i);
      var owner := w.payments[i].Owner();
      var u := Without(w, tx);
      && IndexOfTx(u.payments, c.id) == Some(j) && u.payments[j] == w.payments[i]
      && CloseRow(u, j, true, status, c.errorMessage, owner, CreditAnswered(u, owner, a))
         == Without(CloseRow(w, i, true, status, c.errorMessage, owner, CreditAnswered(w, owner, a)), tx)
  {
    FindBeside(w.payments, tx, c.id);
    var i := IndexOfTx(w.payments, c.id).value;
    var owner := w.payments[i].Owner();
    CloseBeside(w, tx, i, true, status, c.errorMessage, owner, CreditAnswered(w, owner, a));
  }

  lemma StatusBeside(w: World, tx: string, e: Event, status: PaymentStatus, a: Answers)
    requires Transaction(e) != tx
    ensures
      var (w', reply) := HandleChargeStatus(w, e, status, a);
      HandleChargeStatus(Without(w, tx), e, status, a) == (Without(w', tx), reply)
  {
    if ParsedCharge(e).Some? {
      var c := ParsedCharge(e).value;
      if c.subscriptionId != "" && status.Failed? {
        FailureBeside(w, tx, e, a);
      } else {
        FindBeside(w.payments, tx, c.id);
        if IndexOfTx(w.payments, c.id).Some? {
          ClosedBeside(w, tx, c, status, a);
        }
      }
    }
  }

  lemma ChangeBeside(w: World, tx: string, e: Event, status: Subs.SubscriptionStatus, a: Answers)
    ensures
      var (w', reply) := HandleSubscriptionStatusChange(w, e, status, a);
      HandleSubscriptionStatusChange(Without(w, tx), e, status, a) == (Without(w', tx), reply)
  {
  }

  lemma DeliveryBeside(w: World, tx: string, e: Event, a: Answers, newId: Id)
    requires Apart(w, Delivery(e, a, newId), tx)
    ensures Deliver(Without(w, tx), e, a, newId).0 == Without(Deliver(w, e, a, newId).0, tx)
  {
    match e.kind
    case ChargeSucceeded => ChargeBeside(w, tx, e, a, newId);
    case ChargeFailed => StatusBeside(w, tx, e, Failed, a);
    case ChargeCancelled => StatusBeside(w, tx, e, Cancelled, a);
    case ChargeRefunded => StatusBeside(w, tx, e, Refunded, a);
    case ChargebackAccepted => StatusBeside(w, tx, e, Chargeback, a);
    case SubscriptionChargeSucceeded => SubscriptionChargeBeside(w, tx, e, a, newId);
    case SubscriptionChargeFailed => FailureBeside(w, tx, e, a);
    case SubscriptionCancelled => ChangeBeside(w, tx, e, Subs.Cancelled, a);
    case SubscriptionDeactivated => ChangeBeside(w, tx, e, Subs.Unpaid, a);
    case _ =>
  }

  lemma RefundBeside(w: World, tx: string, s: Step)
    requires s.Refund? && Apart(w, s, tx)
    ensures RefundPayment(Without(w, tx), s) == Without(RefundPayment(w, s), tx)
  {
    SearchDropped(w.payments, tx, (p: Payment) => p.id == s.payment);
    var found := IndexOfId(w.payments, s.payment);
    if found.Some? {
      DropAt(w.payments, tx, found.value, WithStatus(w.payments[found.value], Refunded, ""));
    }
  }

  /** A step apart from a transaction does the same whether its rows are there or not. */
  lemma StepBeside(w: World, tx: string, s: Step)
    requires Apart(w, s, tx)
    ensures Next(Without(w, tx), s) == Without(Next(w, s), tx)
  {
    match s
    case Delivery(e, a, id) => DeliveryBeside(w, tx, e, a, id);
    case Refund(_, _, _, _, _) => RefundBeside(w, tx, s);
    case NewCharge(d, _) =>
      CanCreateBeside(w.payments, tx, NewPayment(d));
      DropAppend(w.payments, tx, NewPayment(d));
    case _ =>
  }

  // ── Retries converge, whatever comes in between ──

  predicate IsTry(s: Step, e: Event) {
    s.Delivery? && s.e == e
  }

  /** The steps between the tries. */
  function Others(steps: seq<Step>, e: Event): seq<Step> {
    if steps == [] then []
    else
      var last := steps[|steps| - 1];
      Others(steps[..|steps| - 1], e) + if IsTry(last, e) then [] else [last]
  }

  /** Deliveries of the event, each answered 500, among steps apart from its transaction. */
  ghost predicate Interleaving(w: World, e: Event, steps: seq<Step>) {
    steps == []
    || (var before, last := steps[..|steps| - 1], steps[|steps| - 1];
        && Interleaving(w, e, before)
        && (if IsTry(last, e) then Deliver(Run(w, before), e, last.a, last.id).1.Retry?
            else Apart(Run(w, before), last, Transaction(e))))
  }

  predicate TryDrew(steps: seq<Step>, e: Event, id: Id) {
    exists n :: 0 <= n < |steps| && IsTry(steps[n], e) && steps[n].id == id
  }

  lemma TryDrewMore(steps: seq<Step>, e: Event, id: Id)
    requires steps != [] && TryDrew(steps[..|steps| - 1], e, id)
    ensures TryDrew(steps, e, id)
  {
    var q := steps[..|steps| - 1];
    var n :| 0 <= n < |q| && IsTry(q[n], e) && q[n].id == id;
    assert steps[n] == q[n];
  }

  lemma OthersNext(steps: seq<Step>, e: Event)
    requires steps != []
    ensures
      var q, last := steps[..|steps| - 1], steps[|steps| - 1];
      && (IsTry(last, e) ==> Others(steps, e) == Others(q, e))
      && (!IsTry(last, e) ==> forall w :: Run(w, Others(steps, e)) == Next(Run(w, Others(q, e)), last))
  {
    var q, last := steps[..|steps| - 1], steps[|steps| - 1];
    if !IsTry(last, e) {
      assert Others(steps, e)[..|Others(steps, e)| - 1] == Others(q, e);
    }
  }

  predicate NoRow(w: World, tx: string) {
    forall i :: 0 <= i < |w.payments| ==> w.payments[i].tx != tx
  }

  /** Row i is the billing cycle's, as it was made. */
  predicate TheRow(w: World, e: Event, i: nat) {
    && ParsedCharge(e).Some? && i < |w.payments|
    && (var c := ParsedCharge(e).value;
        var s := Subs.IndexOfSub(w.subs, c.subscriptionId);
        && c.subscriptionId != "" && s.Some? && w.payments[i].tx == c.id
        && w.payments[i] == BillingCycleRow(w.payments[i].id, w.subs[s.value], c))
  }

  /** The row a refused delivery leaves: made for the billing cycle, in progress, for the charge's amount,
      with no fees yet. */
  lemma LeftRowIs(w: World, w': World, e: Event, row: Payment)
    requires LeftOneRow(w, w', e, row)
    ensures
      && Parses(e) && row.status == InProgress && row.fees == PaymentFees(e.charge.value.amount, 0, 0, 0)
      && exists s :: 0 <= s < |w.subs| && w.subs[s].openpaySubId == e.charge.value.subscriptionId
           && MadeFor(row, row.id, w.subs[s], e.charge.value)
  {
    var s := Subs.IndexOfSub(w.subs, e.charge.value.subscriptionId).value;
    assert MadeFor(row, row.id, w.subs[s], e.charge.value);
  }

  lemma ApartKeepsRows(w: World, s: Step, tx: string)
    requires Apart(w, s, tx)
    ensures |w.payments| <= |Next(w, s).payments|
    ensures forall i :: 0 <= i < |w.payments| && w.payments[i].tx == tx ==> Next(w, s).payments[i] == w.payments[i]
    ensures forall i :: 0 <= i < |Next(w, s).payments| && Next(w, s).payments[i].tx == tx ==>
      i < |w.payments| && w.payments[i].tx == tx
  {
    if s.Delivery? {
      DeliveryIsFramed(w, s.e, s.a, s.id);
    }
  }

  lemma ApartKeepsTheRow(w: World, s: Step, e: Event, i: nat)
    requires Books(w) && Books(Next(w, s)) && TheRow(w, e, i) && Apart(w, s, Transaction(e))
    ensures TheRow(Next(w, s), e, i) && Next(w, s).payments[i] == w.payments[i]
  {
    var c := ParsedCharge(e).value;
    var n := Subs.IndexOfSub(w.subs, c.subscriptionId).value;
    ApartKeepsRows(w, s, Transaction(e));
    StepKeepsSubscriptions(w, s);
    FoundSub(Next(w, s).subs, c.subscriptionId, n);
  }

  /** What the run has left behind: nothing, or the one row of the billing cycle. */
  ghost predicate Behind(v: World, u: World, e: Event, steps: seq<Step>) {
    && Without(v, Transaction(e)) == u
    && ((v == u && NoRow(v, Transaction(e)))
        || exists i :: 0 <= i < |v.payments| && TheRow(v, e, i) && TryDrew(steps, e, v.payments[i].id))
  }

  lemma TryLeavesAtMostOneRow(v: World, u: World, e: Event, steps: seq<Step>)
    requires IsCharge(e) && steps != [] && IsTry(steps[|steps| - 1], e)
    requires Behind(v, u, e, steps[..|steps| - 1])
    requires Deliver(v, e, steps[|steps| - 1].a, steps[|steps| - 1].id).1.Retry?
    ensures Behind(Next(v, steps[|steps| - 1]), u, e, steps)
  {
    var last := steps[|steps| - 1];
    var v' := Next(v, last);
    RetryChangesLittle(v, e, last.a, last.id);
    if v' != v {
      var row: Payment :| row.id == last.id && LeftOneRow(v, v', e, row);
      DropAppend(v.payments, Transaction(e), row);
      assert v'.payments[|v.payments|] == row && TheRow(v', e, |v.payments|);
      assert TryDrew(steps, e, row.id);
    } else if !NoRow(v, Transaction(e)) {
      var i :| 0 <= i < |v.payments| && TheRow(v, e, i) && TryDrew(steps[..|steps| - 1], e, v.payments[i].id);
      TryDrewMore(steps, e, v.payments[i].id);
    }
  }

  lemma ApartLeavesAtMostOneRow(v: World, u: World, e: Event, steps: seq<Step>)
    requires steps != [] && Behind(v, u, e, steps[..|steps| - 1]) && Books(v) && Books(Next(v, steps[|steps| - 1]))
    requires Apart(v, steps[|steps| - 1], Transaction(e))
    ensures Behind(Next(v, steps[|steps| - 1]), Next(u, steps[|steps| - 1]), e, steps)
  {
    var last, tx := steps[|steps| - 1], Transaction(e);
    StepBeside(v, tx, last);
    ApartKeepsRows(v, last, tx);
    if NoRow(v, tx) && v == u {
      DropNothing(Next(v, last).payments, tx);
    } else {
      var i :| 0 <= i < |v.payments| && TheRow(v, e, i) && TryDrew(steps[..|steps| - 1], e, v.payments[i].id);
      ApartKeepsTheRow(v, last, e, i);
      TryDrewMore(steps, e, v.payments[i].id);
      assert TheRow(Next(v, last), e, i);
    }
  }

  lemma {:induction false} RunLeavesAtMostOneRow(w: World, e: Event, steps: seq<Step>)
    requires Books(w) && IsCharge(e) && NoRow(w, Transaction(e)) && Interleaving(w, e, steps)
    ensures Books(Run(w, steps)) && Behind(Run(w, steps), Run(w, Others(steps, e)), e, steps)
  {
    RunKeepsBooks(w, steps);
    if steps == [] {
      DropNothing(w.payments, Transaction(e));
    } else {
      var q, last := steps[..|steps| - 1], steps[|steps| - 1];
      RunLeavesAtMostOneRow(w, e, q);
      OthersNext(steps, e);
      if IsTry(last, e) {
        TryLeavesAtMostOneRow(Run(w, q), Run(w, Others(q, e)), e, steps);
      } else {
        ApartLeavesAtMostOneRow(Run(w, q), Run(w, Others(q, e)), e, steps);
      }
    }
  }

  /** With the row there from the start, a try that is answered 500 changes nothing at all. */
  lemma {:induction false} TriesChangeNothing(w: World, e: Event, steps: seq<Step>, i: nat)
    requires i < |w.payments| && w.payments[i].tx == Transaction(e) && Interleaving(w, e, steps)
    ensures Run(w, steps) == Run(w, Others(steps, e))
  {
    if steps != [] {
      var q, last := steps[..|steps| - 1], steps[|steps| - 1];
      TriesChangeNothing(w, e, q, i);
      OthersNext(steps, e);
      if IsTry(last, e) {
        RunEvolves(w, q);
        var v := Run(w, q);
        assert v.payments[i].tx == Transaction(e);
        RetryChangesLittle(v, e, last.a, last.id);
      }
    }
  }

  // ── The delivery that is acknowledged in the end ──

  /** The same tables and journal, the payment rows in whatever order. */
  ghost predicate SameButOrder(x: World, y: World) {
    && x.balances == y.balances && x.subs == y.subs && x.tenants == y.tenants && x.journal == y.journal
    && multiset(x.payments) == multiset(y.payments)
  }

  /** Row i is the one row of the transaction. */
  predicate OnlyAt(rows: seq<Payment>, tx: string, i: nat) {
    i < |rows| && forall j :: 0 <= j < |rows| ==> (rows[j].tx == tx <==> j == i)
  }

  lemma AppendCounts(rows: seq<Payment>, p: Payment)
    ensures multiset(rows + [p]) == multiset(rows) + multiset{p}
  {
  }

  lemma OnlyAtPrefix(rows: seq<Payment>, tx: string, i: nat)
    requires OnlyAt(rows, tx, i)
    ensures i < |rows| - 1 ==> OnlyAt(rows[..|rows| - 1], tx, i) && rows[|rows| - 1].tx != tx
    ensures i == |rows| - 1 ==> Drop(rows[..|rows| - 1], tx) == rows[..|rows| - 1]
  {
    if i == |rows| - 1 {
      DropNothing(rows[..i], tx);
    }
  }

  lemma {:induction false} OneDropped(rows: seq<Payment>, tx: string, i: nat)
    requires OnlyAt(rows, tx, i)
    ensures multiset(rows) == multiset(Drop(rows, tx)) + multiset{rows[i]}
  {
    var q, last := rows[..|rows| - 1], rows[|rows| - 1];
    assert rows == q + [last];
    OnlyAtPrefix(rows, tx, i);
    DropAppend(q, tx, last);
    AppendCounts(q, last);
    if i < |q| {
      OneDropped(q, tx, i);
      AppendCounts(Drop(q, tx), last);
    }
  }

  lemma RowMoved(rows: seq<Payment>, tx: string, i: nat, p: Payment)
    requires OnlyAt(rows, tx, i)
    ensures multiset(rows[i := p]) == multiset(Drop(rows, tx) + [p])
  {
    OneDropped(rows, tx, i);
    AppendCounts(Drop(rows, tx), p);
  }

  lemma OnlyRow(rows: seq<Payment>, i: nat)
    requires RowsValid(rows) && i < |rows|
    ensures OnlyAt(rows, rows[i].tx, i)
  {
    forall j | 0 <= j < |rows| ensures rows[j].tx == rows[i].tx <==> j == i {
      assert i < j ==> !Collide(rows[i], rows[j]);
      assert j < i ==> !Collide(rows[j], rows[i]);
    }
  }

  lemma CanCreateAgain(rows: seq<Payment>, tx: string, i: nat)
    requires RowsValid(rows) && i < |rows| && rows[i].tx == tx
    ensures CanCreate(Drop(rows, tx), rows[i]) && IndexOfTx(Drop(rows, tx), tx).None?
  {
    var rest := Drop(rows, tx);
    forall j | 0 <= j < |rest| ensures rest[j].tx != tx && !Collide(rest[j], rows[i]) {
      DropKeeps(rows, tx, rest[j]);
      var n :| 0 <= n < |rows| && rows[n] == rest[j];
      assert n < i ==> !Collide(rows[n], rows[i]);
      assert i < n ==> !Collide(rows[i], rows[n]);
    }
  }

  /** Settling the row where it stands, or at the end of the table without it. */
  lemma SettledAtTheEnd(v: World, c: Charge, s: nat, i: nat, a: Answers, b: Answers)
    requires RowsValid(v.payments) && i < |v.payments| && v.payments[i].tx == c.id
    requires s < |v.subs| && v.subs[s].tenant in v.tenants && b == a.(create := true)
    ensures
      var u := Without(v, c.id);
      var x := SettleBillingCycle(CreateRow(u, v.payments[i]), c, s, |u.payments|, b);
      var y := SettleBillingCycle(v, c, s, i, a);
      x.1 == y.1 && (y.1.Ack? ==> SameButOrder(x.0, y.0))
  {
    OnlyRow(v.payments, i);
    var u := Without(v, c.id);
    var p := Settled(v.payments[i], Split(c, v.tenants[v.subs[s].tenant]));
    RowMoved(v.payments, c.id, i, p);
    LastReplaced(u.payments, v.payments[i], p);
  }

  lemma LastReplaced(rows: seq<Payment>, p: Payment, q: Payment)
    ensures (rows + [p])[|rows| := q] == rows + [q]
  {
  }

  lemma TheRowConverges(v: World, e: Event, i: nat, a: Answers, newId: Id)
    requires Books(v) && IsCharge(e) && TheRow(v, e, i) && Deliver(v, e, a, newId).1.Ack?
    ensures
      var one := Deliver(Without(v, Transaction(e)), e, a.(create := true), v.payments[i].id);
      one.1.Ack? && SameButOrder(one.0, Deliver(v, e, a, newId).0)
  {
    var c := ParsedCharge(e).value;
    var s := Subs.IndexOfSub(v.subs, c.subscriptionId).value;
    FoundTx(v.payments, c.id, i);
    CanCreateAgain(v.payments, c.id, i);
    SettledAtTheEnd(v, c, s, i, a, a.(create := true));
  }

  /** Any number of 500s among any steps apart from the transaction, and then a 200: the tables and the
      journal are those of the other steps and one acknowledged delivery, for a payment id that some
      try or the last delivery drew; only the row may stand elsewhere in its table. */
  lemma RetriesConvergeAmongOthers(w: World, e: Event, steps: seq<Step>, a: Answers, newId: Id)
    requires Books(w) && IsCharge(e) && Interleaving(w, e, steps)
    requires Deliver(Run(w, steps), e, a, newId).1.Ack?
    ensures
      var out := Deliver(Run(w, steps), e, a, newId).0;
      var u := Run(w, Others(steps, e));
      exists id :: (id == newId || TryDrew(steps, e, id)) && SameButOrder(Deliver(u, e, a.(create := true), id).0, out)
  {
    var v, u := Run(w, steps), Run(w, Others(steps, e));
    if NoRow(w, Transaction(e)) {
      RunLeavesAtMostOneRow(w, e, steps);
    } else {
      var i :| 0 <= i < |w.payments| && w.payments[i].tx == Transaction(e);
      TriesChangeNothing(w, e, steps, i);
    }
    if v == u {
      CreateFlagIsUnusedOrTrue(v, e, a, newId);
      assert SameButOrder(Deliver(u, e, a.(create := true), newId).0, Deliver(v, e, a, newId).0);
    } else {
      var i :| 0 <= i < |v.payments| && TheRow(v, e, i) && TryDrew(steps, e, v.payments[i].id);
      TheRowConverges(v, e, i, a, newId);
    }
  }
}
