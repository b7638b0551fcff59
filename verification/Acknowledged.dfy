/** What a delivery means for the tables, read off the tables: what an acknowledged event has done
    to its payment, its balance and its subscription, and what no delivery ever touches. */
module Acknowledged {
  import opened Wrappers
  import opened Balances
  import opened Fees
  import opened Payments
  import Subs = Subscriptions
  import opened Journal
  import opened Ledger

  // ── What stays ──

  /** The transaction and the subscription an event speaks of; "" when it names none. */
  function Transaction(e: Event): string {
    if e.charge.Some? then e.charge.value.id else ""
  }

  predicate Names(e: Event, openpaySubId: string) {
    || (e.charge.Some? && e.charge.value.subscriptionId == openpaySubId)
    || e.subscriptionRef == Some(openpaySubId)
  }

  const NOBODY: Key := Key(0, "")

  /** The owner of the transaction's row. */
  function RowAccount(w: World, e: Event): Key {
    var found := IndexOfTx(w.payments, Transaction(e));
    if found.Some? then w.payments[found.value].Owner() else NOBODY
  }

  /** The tenant of the subscription the charge names, in the currency of the transaction's row, or of
      the charge when there is none. */
  function CycleAccount(w: World, e: Event): Key {
    if e.charge.None? then NOBODY
    else
      var s := Subs.IndexOfSub(w.subs, e.charge.value.subscriptionId);
      var found := IndexOfTx(w.payments, e.charge.value.id);
      if s.None? then NOBODY
      else
        Key(w.subs[s.value].tenant,
            if found.Some? then w.payments[found.value].currency else e.charge.value.currency)
  }

  /** A charge of a billing cycle, or its failure. */
  predicate IsCycle(e: Event) {
    && e.charge.Some? && e.charge.value.subscriptionId != ""
    && (IsCharge(e) || e.kind.ChargeFailed? || e.kind.SubscriptionChargeFailed?)
  }

  function Account(w: World, e: Event): Key {
    if IsCycle(e) then CycleAccount(w, e) else RowAccount(w, e)
  }

  ghost predicate OnlyAccount(w: World, w': World, owner: Key) {
    forall k: Key :: k != owner ==> Get(w'.balances, k) == Get(w.balances, k)
  }

  predicate SameSubscription(a: Subs.Subscription, b: Subs.Subscription) {
    a.id == b.id && a.tenant == b.tenant && a.openpaySubId == b.openpaySubId
  }

  /** Rows of other transactions, other subscriptions, other accounts and the tenants are untouched; at
      most one row is added, and it is the transaction's. */
  ghost predicate Framed(w: World, w': World, e: Event, account: Key) {
    && w'.tenants == w.tenants
    && |w.payments| <= |w'.payments| <= |w.payments| + 1
    && (forall i :: 0 <= i < |w.payments| && w.payments[i].tx != Transaction(e) ==> w'.payments[i] == w.payments[i])
    && (forall i :: 0 <= i < |w.payments| ==> w'.payments[i].tx == w.payments[i].tx)
    && (forall i :: |w.payments| <= i < |w'.payments| ==> w'.payments[i].tx == Transaction(e))
    && |w'.subs| == |w.subs|
    && (forall s :: 0 <= s < |w.subs| && !Names(e, w.subs[s].openpaySubId) ==> w'.subs[s] == w.subs[s])
    && (forall s :: 0 <= s < |w.subs| ==> SameSubscription(w.subs[s], w'.subs[s]))
    && OnlyAccount(w, w', account)
  }

  lemma CycleIsFramed(w: World, e: Event, a: Answers, newId: Id)
    ensures Framed(w, HandleSubscriptionChargeSucceeded(w, e, a, newId).0, e, CycleAccount(w, e))
  {
    if ParsedCharge(e).Some? && ParsedCharge(e).value.subscriptionId != "" && a.getSubscription {
      var c := ParsedCharge(e).value;
      var s := Subs.IndexOfSub(w.subs, c.subscriptionId);
      if s.Some? && a.getTenant && w.subs[s.value].tenant in w.tenants && a.getPayment {
        var found := IndexOfTx(w.payments, c.id);
        if found.Some? {
          SettlementIsFramed(w, e, c, s.value, found.value, a);
        } else {
          var row := BillingCycleRow(newId, w.subs[s.value], c);
          if a.create && CanCreate(w.payments, row) {
            MadeCycleIsFramed(w, e, c, s.value, row, a);
          }
        }
      }
    }
  }

  lemma SettlementIsFramed(w: World, e: Event, c: Charge, s: nat, i: nat, a: Answers)
    requires e.charge == Some(c) && i < |w.payments| && w.payments[i].tx == c.id
    requires s < |w.subs| && w.subs[s].tenant in w.tenants && w.subs[s].openpaySubId == c.subscriptionId
    ensures Framed(w, SettleBillingCycle(w, c, s, i, a).0, e, Key(w.subs[s].tenant, w.payments[i].currency))
  {
  }

  lemma MadeCycleIsFramed(w: World, e: Event, c: Charge, s: nat, row: Payment, a: Answers)
    requires e.charge == Some(c) && row.tx == c.id
    requires s < |w.subs| && w.subs[s].tenant in w.tenants && w.subs[s].openpaySubId == c.subscriptionId
    ensures Framed(w, SettleBillingCycle(CreateRow(w, row), c, s, |w.payments|, a).0, e,
                   Key(w.subs[s].tenant, row.currency))
  {
  }

  lemma ClosingIsFramed(
    w: World, e: Event, i: nat, marked: bool, status: PaymentStatus, message: string, owner: Key, done: bool)
    requires i < |w.payments| && w.payments[i].tx == Transaction(e)
    ensures Framed(w, CloseRow(w, i, marked, status, message, owner, done), e, owner)
  {
  }

  lemma FailureIsFramed(w: World, e: Event, a: Answers)
    ensures Framed(w, HandleSubscriptionChargeFailed(w, e, a).0, e, CycleAccount(w, e))
  {
    if HandleSubscriptionChargeFailed(w, e, a).1.Ack? {
      var c := ParsedCharge(e).value;
      var s := Subs.IndexOfSub(w.subs, c.subscriptionId).value;
      var found := IndexOfTx(w.payments, c.id);
      if found.Some? {
        var owner := Key(w.subs[s].tenant, w.payments[found.value].currency);
        FailedCycleIsFramed(w, e, s, found.value, a.updateStatus, c.errorMessage, owner, CreditAnswered(w, owner, a));
      }
    }
  }

  lemma FailedCycleIsFramed(
    w: World, e: Event, s: nat, i: nat, marked: bool, message: string, owner: Key, done: bool)
    requires i < |w.payments| && w.payments[i].tx == Transaction(e)
    requires s < |w.subs| && Names(e, w.subs[s].openpaySubId)
    ensures Framed(w, CloseRow(MoveSub(w, s, Subs.ChargeFailed), i, marked, Failed, message, owner, done), e, owner)
  {
  }

  lemma StatusIsFramed(w: World, e: Event, status: PaymentStatus, a: Answers)
    requires e.charge.Some? ==> e.charge.value.subscriptionId == "" || !status.Failed?
    ensures Framed(w, HandleChargeStatus(w, e, status, a).0, e, RowAccount(w, e))
  {
    if ParsedCharge(e).Some? && IndexOfTx(w.payments, ParsedCharge(e).value.id).Some? {
      var c := ParsedCharge(e).value;
      var i := IndexOfTx(w.payments, c.id).value;
      var owner := w.payments[i].Owner();
      ClosingIsFramed(w, e, i, true, status, c.errorMessage, owner, CreditAnswered(w, owner, a));
    }
  }

  lemma ChargeIsFramed(w: World, e: Event, a: Answers, newId: Id)
    requires e.charge.Some? ==> e.charge.value.subscriptionId == ""
    ensures Framed(w, HandleChargeSucceeded(w, e, a, newId).0, e, RowAccount(w, e))
  {
  }

  lemma ChangeIsFramed(w: World, e: Event, status: Subs.SubscriptionStatus, a: Answers)
    ensures Framed(w, HandleSubscriptionStatusChange(w, e, status, a).0, e, RowAccount(w, e))
  {
  }

  lemma CycleDeliveryIsFramed(w: World, e: Event, a: Answers, newId: Id)
    requires IsCycle(e)
    ensures Framed(w, Deliver(w, e, a, newId).0, e, CycleAccount(w, e))
  {
    if IsCharge(e) {
      CycleIsFramed(w, e, a, newId);
    } else {
      FailureIsFramed(w, e, a);
    }
  }

  /** Whatever is delivered and whichever calls fail, only rows of the event's transaction, the
      subscription it names, and one account can change: for a billing cycle that of the
      subscription's tenant in the row's currency, else that of the row's owner. */
  lemma DeliveryIsFramed(w: World, e: Event, a: Answers, newId: Id)
    ensures Framed(w, Deliver(w, e, a, newId).0, e, Account(w, e))
  {
    if IsCycle(e) {
      CycleDeliveryIsFramed(w, e, a, newId);
    } else {
      OtherDeliveryIsFramed(w, e, a, newId);
    }
  }

  lemma OtherDeliveryIsFramed(w: World, e: Event, a: Answers, newId: Id)
    requires !IsCycle(e)
    ensures Framed(w, Deliver(w, e, a, newId).0, e, RowAccount(w, e))
  {
    match e.kind
    case ChargeSucceeded => ChargeIsFramed(w, e, a, newId);
    case ChargeFailed => StatusIsFramed(w, e, Failed, a);
    case ChargeCancelled => StatusIsFramed(w, e, Cancelled, a);
    case ChargeRefunded => StatusIsFramed(w, e, Refunded, a);
    case ChargebackAccepted => StatusIsFramed(w, e, Chargeback, a);
    case SubscriptionCancelled => ChangeIsFramed(w, e, Subs.Cancelled, a);
    case SubscriptionDeactivated => ChangeIsFramed(w, e, Subs.Unpaid, a);
    case _ =>
  }

  // ── What stays over a run ──

  /** The steps that may change a payment row: a delivery of its transaction, or its refund. */
  predicate TouchesPayment(s: Step, p: Payment) {
    match s
    case Delivery(e, _, _) => Transaction(e) == p.tx
    case Refund(_, payment, _, _, _) => payment == p.id
    case _ => false
  }

  /** And those that may change the subscription row at position n. */
  predicate TouchesSubscription(s: Step, sub: Subs.Subscription, n: nat) {
    match s
    case Delivery(e, _, _) => Names(e, sub.openpaySubId)
    case ScheduleCancel(m, _) => m == n
    case _ => false
  }

  lemma StepKeepsPayment(w: World, s: Step, i: nat)
    requires i < |w.payments| && !TouchesPayment(s, w.payments[i])
    ensures i < |Next(w, s).payments| && Next(w, s).payments[i] == w.payments[i]
  {
    if s.Delivery? {
      DeliveryIsFramed(w, s.e, s.a, s.id);
    }
  }

  lemma StepKeepsSubscription(w: World, s: Step, n: nat)
    requires n < |w.subs| && !TouchesSubscription(s, w.subs[n], n)
    ensures n < |Next(w, s).subs| && Next(w, s).subs[n] == w.subs[n]
  {
    if s.Delivery? {
      DeliveryIsFramed(w, s.e, s.a, s.id);
    }
  }

  /** A payment row stays as it is, for instance as an acknowledged delivery left it, until a step
      names its transaction or refunds it. */
  lemma {:induction false} PaymentStays(w: World, steps: seq<Step>, i: nat)
    requires i < |w.payments|
    requires forall n :: 0 <= n < |steps| ==> !TouchesPayment(steps[n], w.payments[i])
    ensures i < |Run(w, steps).payments| && Run(w, steps).payments[i] == w.payments[i]
  {
    if steps != [] {
      var q := steps[..|steps| - 1];
      PaymentStays(w, q, i);
      StepKeepsPayment(Run(w, q), steps[|steps| - 1], i);
    }
  }

  /** So does a subscription row, until a step names it. */
  lemma {:induction false} SubscriptionStays(w: World, steps: seq<Step>, s: nat)
    requires s < |w.subs|
    requires forall n :: 0 <= n < |steps| ==> !TouchesSubscription(steps[n], w.subs[s], s)
    ensures s < |Run(w, steps).subs| && Run(w, steps).subs[s] == w.subs[s]
  {
    if steps != [] {
      var q := steps[..|steps| - 1];
      SubscriptionStays(w, q, s);
      StepKeepsSubscription(Run(w, q), steps[|steps| - 1], s);
    }
  }

  // ── What an acknowledged event has done, whichever calls failed ──

  /** The account got the net and lost the hold of the gross as far as it was there; or the credit
      failed, no balance changed, and the journal says so. */
  ghost predicate Credited(w: World, w': World, entry: Entry, credited: bool) {
    && entry.Settlement? && entry.credited == credited
    && |w'.journal| > |w.journal| && w'.journal[|w.journal|] == entry
    && (credited ==>
         var was := Get(w.balances, entry.owner);
         Get(w'.balances, entry.owner) == Bal(was.available + entry.fees.net, Max0(was.pending - entry.fees.gross)))
    && (!credited ==> w'.balances == w.balances)
  }

  /** Row i is completed with the shares of the charge that the tenant's configuration gives, and
      credited to the owner or not. */
  ghost predicate Paid(
    w: World, w': World, c: Charge, i: nat, owner: Key, credited: bool, tenant: TenantConfig)
  {
    && i < |w'.payments| && w'.payments[i].tx == c.id && w'.payments[i].status.Completed?
    && (i < |w.payments| ==>
         w'.payments[i] == w.payments[i].(fees := w'.payments[i].fees, status := Completed))
    && (var fees := w'.payments[i].fees;
        var oldNet := if i < |w.payments| then w.payments[i].fees.net else 0;
        && PassesChecks(fees)
        && fees.gross == c.amount == fees.openpayFee + fees.platformFee + fees.net
        && fees.openpayFee == (if c.fee.Some? then c.fee.value else 0)
        && Shares(fees, tenant.fee, tenant.feeType)
        && var entry := Settlement(w'.payments[i].id, w'.payments[i].Owner(), oldNet, owner, fees, credited);
           Credited(w, w', entry, credited))
  }

  /** A one-time charge: paid, on the row that was there. */
  lemma ChargePaid(w: World, e: Event, a: Answers, newId: Id)
    requires e.kind.ChargeSucceeded? && ParsedCharge(e).Some? && ParsedCharge(e).value.subscriptionId == ""
    requires Deliver(w, e, a, newId).1.Ack?
    ensures
      var w' := Deliver(w, e, a, newId).0;
      exists i :: 0 <= i < |w.payments| && w.payments[i].tenant in w.tenants
        && w'.payments[i].Owner() == w.payments[i].Owner()
        && Paid(w, w', ParsedCharge(e).value, i, w.payments[i].Owner(), CreditAnswered(w, w.payments[i].Owner(), a),
                w.tenants[w.payments[i].tenant])
  {
    var c := ParsedCharge(e).value;
    var i := IndexOfTx(w.payments, c.id).value;
    var k := w.payments[i].Owner();
    assert Paid(w, Deliver(w, e, a, newId).0, c, i, k, CreditAnswered(w, k, a), w.tenants[w.payments[i].tenant]);
  }

  /** The subscription has no open failures, remembers the payment, and is out of trial and
      past_due; if the charge could not be recorded it is as before. */
  predicate Renewed(before: Subs.Subscription, after: Subs.Subscription, payment: Id, recorded: bool) {
    if recorded then
      && after.failedChargeCount == 0 && after.lastCharge == Some(payment)
      && !after.status.Trial? && !after.status.PastDue?
      && (before.status.Trial? || before.status.PastDue? || after.status == before.status)
      && after.id == before.id && after.openpaySubId == before.openpaySubId
    else after == before
  }

  lemma CyclePaid(w: World, v: World, c: Charge, s: nat, i: nat, a: Answers)
    requires i < |v.payments| && s < |v.subs| && v.subs[s].tenant in v.tenants && v.payments[i].tx == c.id
    requires v == w || (i == |w.payments| && v == CreateRow(w, v.payments[i]) && v.payments[i].fees.net == 0)
    requires SettleBillingCycle(v, c, s, i, a).1.Ack?
    ensures
      var w' := SettleBillingCycle(v, c, s, i, a).0;
      var owner := Key(v.subs[s].tenant, v.payments[i].currency);
      && |w'.payments| == |v.payments| && |w'.subs| == |v.subs|
      && Paid(w, w', c, i, owner, CreditAnswered(w, owner, a), v.tenants[v.subs[s].tenant])
      && w'.payments[i].Owner() == v.payments[i].Owner()
      && Renewed(v.subs[s], w'.subs[s], w'.payments[i].id, a.recordCharge)
  {
  }

  /** The row made for a billing cycle: of the subscription and its tenant, in the charge's currency, under
      a key of its own. */
  predicate MadeFor(p: Payment, newId: Id, sub: Subs.Subscription, c: Charge) {
    && p.id == newId && p.tenant == sub.tenant && p.subscription == Some(sub.id) && p.tx == c.id
    && p.currency == c.currency && p.idempotencyKey == "sub:" + c.id && p.errorMessage == ""
  }

  /** Rows made for two billing cycles, of one subscription or of two, are both accepted unless they share
      the id or the transaction. */
  lemma CyclesCollideIff(
    p: Payment, q: Payment, id1: Id, id2: Id, sub1: Subs.Subscription, sub2: Subs.Subscription, c1: Charge, c2: Charge)
    requires MadeFor(p, id1, sub1, c1) && MadeFor(q, id2, sub2, c2)
    ensures Collide(p, q) <==> id1 == id2 || c1.id == c2.id
  {
    assert p.idempotencyKey[4..] == c1.id && q.idempotencyKey[4..] == c2.id;
  }

  /** A billing cycle: paid, on a row that was there or was made for it, to the subscription's
      tenant, and the subscription renewed by that payment. */
  lemma BillingCyclePaid(w: World, e: Event, a: Answers, newId: Id) returns (i: nat, s: nat)
    requires e.kind.SubscriptionChargeSucceeded? || e.kind.ChargeSucceeded?
    requires ParsedCharge(e).Some? && ParsedCharge(e).value.subscriptionId != ""
    requires Deliver(w, e, a, newId).1.Ack?
    ensures
      var c := ParsedCharge(e).value;
      var w' := Deliver(w, e, a, newId).0;
      && s < |w.subs| && s < |w'.subs| && w.subs[s].openpaySubId == c.subscriptionId && w.subs[s].tenant in w.tenants
      && i < |w'.payments|
      && (var owner := Key(w.subs[s].tenant, w'.payments[i].currency);
          Paid(w, w', c, i, owner, CreditAnswered(w, owner, a), w.tenants[w.subs[s].tenant]))
      && Renewed(w.subs[s], w'.subs[s], w'.payments[i].id, a.recordCharge)
      && (i == |w.payments| ==> MadeFor(w'.payments[i], newId, w.subs[s], c))
  {
    var c := ParsedCharge(e).value;
    s := Subs.IndexOfSub(w.subs, c.subscriptionId).value;
    var found := IndexOfTx(w.payments, c.id);
    if found.Some? {
      i := found.value;
      CyclePaid(w, w, c, s, i, a);
    } else {
      i := |w.payments|;
      CyclePaid(w, CreateRow(w, BillingCycleRow(newId, w.subs[s], c)), c, s, i, a);
    }
  }

  /** The status each event gives to a payment. */
  function ClosedAs(kind: Kind): Option<PaymentStatus> {
    match kind
    case ChargeFailed => Some(Failed)
    case ChargeCancelled => Some(Cancelled)
    case ChargeRefunded => Some(Refunded)
    case ChargebackAccepted => Some(Chargeback)
    case _ => None
  }

  /** The gross of row i is out of the owner's pending and available stays; or the release failed,
      no balance changed, and the journal says so; a row without gross releases nothing. */
  ghost predicate Released(w: World, w': World, i: nat, owner: Key, done: bool) {
    && i < |w.payments|
    && (var gross := w.payments[i].fees.gross;
        && (gross <= 0 ==> w'.balances == w.balances)
        && (gross > 0 ==>
             && |w'.journal| > 0 && w'.journal[|w'.journal| - 1] == Release(owner, gross, done)
             && (if done then
                   var was := Get(w.balances, owner);
                   Get(w'.balances, owner) == Bal(was.available, Max0(was.pending - gross))
                 else w'.balances == w.balances)))
  }

  /** Row i has the status and the message, if one is given, unless that write failed, and keeps its
      amounts. */
  ghost predicate Closed(
    w: World, w': World, i: nat, status: PaymentStatus, message: string, marked: bool)
  {
    && i < |w.payments| == |w'.payments|
    && (if marked then
          var kept := w.payments[i].errorMessage;
          w'.payments == w.payments[i := w.payments[i].(
            status := status, errorMessage := if message == "" then kept else message)]
        else w'.payments == w.payments)
  }

  ghost predicate ClosedBy(w: World, w': World, i: nat, kind: Kind, message: string, a: Answers) {
    && i < |w.payments| && ClosedAs(kind).Some?
    && Closed(w, w', i, ClosedAs(kind).value, message, true)
    && Released(w, w', i, w.payments[i].Owner(), CreditAnswered(w, w.payments[i].Owner(), a))
  }

  /** A one-time charge that failed, or any charge cancelled, refunded or charged back: its row is
      closed as the event says, and its hold released. */
  lemma PaymentClosed(w: World, e: Event, a: Answers, newId: Id)
    requires ClosedAs(e.kind).Some? && ParsedCharge(e).Some?
    requires ParsedCharge(e).value.subscriptionId == "" || !e.kind.ChargeFailed?
    requires Deliver(w, e, a, newId).1.Ack?
    ensures
      var w' := Deliver(w, e, a, newId).0;
      var c := ParsedCharge(e).value;
      exists i :: 0 <= i < |w.payments| && w.payments[i].tx == c.id && ClosedBy(w, w', i, e.kind, c.errorMessage, a)
  {
    var i := IndexOfTx(w.payments, ParsedCharge(e).value.id).value;
    var owner := w.payments[i].Owner();
    var message := ParsedCharge(e).value.errorMessage;
    ClosedRow(w, i, true, ClosedAs(e.kind).value, message, owner, CreditAnswered(w, owner, a));
    assert ClosedBy(w, Deliver(w, e, a, newId).0, i, e.kind, message, a);
  }

  lemma ClosedRow(w: World, i: nat, marked: bool, status: PaymentStatus, message: string, owner: Key, done: bool)
    requires i < |w.payments|
    ensures
      var w' := CloseRow(w, i, marked, status, message, owner, done);
      Closed(w, w', i, status, message, marked) && Released(w, w', i, owner, done)
  {
  }

  /** A failed billing cycle: one more failure, past_due whatever the status was; and the payment,
      if the lookup finds one, failed unless that write was lost, its hold released on the
      subscription's tenant or the release lost. */
  ghost predicate FailedAs(w: World, w': World, c: Charge, s: nat, a: Answers) {
    && s < |w.subs| == |w'.subs| && w.subs[s].openpaySubId == c.subscriptionId
    && w'.subs[s] == w.subs[s].(failedChargeCount := w.subs[s].failedChargeCount + 1, status := Subs.PastDue)
    && (var found := IndexOfTx(w.payments, c.id);
        if !a.getPayment || found.None? then w'.payments == w.payments && w'.balances == w.balances
        else
          var owner := Key(w.subs[s].tenant, w.payments[found.value].currency);
          && Closed(w, w', found.value, Failed, c.errorMessage, a.updateStatus)
          && Released(w, w', found.value, owner, CreditAnswered(w, owner, a)))
  }

  lemma BillingCycleFailed(w: World, e: Event, a: Answers, newId: Id) returns (s: nat)
    requires e.kind.SubscriptionChargeFailed? || e.kind.ChargeFailed?
    requires ParsedCharge(e).Some? && ParsedCharge(e).value.subscriptionId != ""
    requires Deliver(w, e, a, newId).1.Ack?
    ensures FailedAs(w, Deliver(w, e, a, newId).0, ParsedCharge(e).value, s, a)
  {
    s := CycleFailed(w, e, a);
  }

  lemma CycleFailed(w: World, e: Event, a: Answers) returns (s: nat)
    requires ParsedCharge(e).Some? && ParsedCharge(e).value.subscriptionId != ""
    requires HandleSubscriptionChargeFailed(w, e, a).1.Ack?
    ensures FailedAs(w, HandleSubscriptionChargeFailed(w, e, a).0, ParsedCharge(e).value, s, a)
  {
    var c := ParsedCharge(e).value;
    s := Subs.IndexOfSub(w.subs, c.subscriptionId).value;
    var found := IndexOfTx(w.payments, c.id);
    if found.Some? {
      var w1 := MoveSub(w, s, Subs.ChargeFailed);
      var owner := Key(w.subs[s].tenant, w.payments[found.value].currency);
      ClosedRow(w1, found.value, a.updateStatus, Failed, c.errorMessage, owner, CreditAnswered(w, owner, a));
    }
  }

  /** A subscription event: that subscription has the status, no other changed, no money moved. */
  lemma SubscriptionClosed(w: World, e: Event, a: Answers, newId: Id)
    requires e.kind.SubscriptionCancelled? || e.kind.SubscriptionDeactivated?
    requires Deliver(w, e, a, newId).1.Ack?
    ensures
      var w' := Deliver(w, e, a, newId).0;
      && w'.payments == w.payments && w'.balances == w.balances
      && e.subscriptionRef.Some?
      && exists s :: 0 <= s < |w.subs| && w.subs[s].openpaySubId == e.subscriptionRef.value
           && w'.subs == w.subs[s := w.subs[s].(
                status := if e.kind.SubscriptionCancelled? then Subs.Cancelled else Subs.Unpaid)]
  {
    var s := Subs.IndexOfSub(w.subs, e.subscriptionRef.value).value;
    assert Deliver(w, e, a, newId).0.subs == w.subs[s := w.subs[s].(
      status := if e.kind.SubscriptionCancelled? then Subs.Cancelled else Subs.Unpaid)];
  }
}
