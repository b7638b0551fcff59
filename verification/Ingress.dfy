/** The webhook ingress handler over its repositories (internal/webhook/ingress.go): each handler
    issues the same repository calls in the same order as the Go code, and is proved to have the
    effect on the tables that the state machine of Ledger describes. */
module Ingress {
  import opened Wrappers
  import opened Balances
  import opened Payments
  import Subs = Subscriptions
  import opened Journal
  import opened Ledger

  class IngressHandler {
    const payments: PaymentRepo
    const balances: BalanceRepo
    const subscriptions: Subs.SubscriptionRepo
    var tenants: map<Id, TenantConfig>
    ghost var journal: seq<Entry>

    ghost predicate Valid()
      reads payments, balances, subscriptions
    {
      payments.Valid() && balances.Valid() && subscriptions.Valid()
    }

    ghost function State(): World
      reads this, payments, balances, subscriptions
    {
      World(payments.rows, Table(balances.rows), subscriptions.rows, tenants, journal)
    }

    constructor (payments: PaymentRepo, balances: BalanceRepo, subscriptions: Subs.SubscriptionRepo)
      ensures this.payments == payments && this.balances == balances && this.subscriptions == subscriptions
      ensures journal == [] && tenants == map[]
    {
      this.payments, this.balances, this.subscriptions := payments, balances, subscriptions;
      tenants, journal := map[], [];
    }

    /** The dispatch of ServeHTTP: a handler error is answered 500. */
    method ServeEvent(e: Event, a: Answers, newId: Id) returns (reply: Reply)
      requires Valid()
      modifies payments, balances, subscriptions, this`journal
      ensures Valid()
      ensures (State(), reply) == Deliver(old(State()), e, a, newId)
    {
      match e.kind {
        case Verification => reply := Ack;
        case ChargeSucceeded => reply := OnChargeSucceeded(e, a, newId);
        case ChargeFailed => reply := OnChargeStatus(e, Failed, a);
        case ChargeCancelled => reply := OnChargeStatus(e, Cancelled, a);
        case ChargeRefunded => reply := OnChargeStatus(e, Refunded, a);
        case ChargebackAccepted => reply := OnChargeStatus(e, Chargeback, a);
        case SubscriptionChargeSucceeded => reply := OnSubscriptionChargeSucceeded(e, a, newId);
        case SubscriptionChargeFailed => reply := OnSubscriptionChargeFailed(e, a);
        case SubscriptionCancelled => reply := OnSubscriptionStatusChange(e, Subs.Cancelled, a);
        case SubscriptionDeactivated => reply := OnSubscriptionStatusChange(e, Subs.Unpaid, a);
        case Unknown(_) => reply := Ack;
      }
    }

    method OnChargeSucceeded(e: Event, a: Answers, newId: Id) returns (reply: Reply)
      requires Valid()
      modifies payments, balances, subscriptions, this`journal
      ensures Valid()
      ensures (State(), reply) == HandleChargeSucceeded(old(State()), e, a, newId)
    {
      var parsed := ParsedCharge(e);
      if parsed.None? {
        return Retry;
      }
      var charge := parsed.value;
      if charge.subscriptionId != "" {
        reply := OnSubscriptionChargeSucceeded(e, a, newId);
        return;
      }
      var got, at := payments.GetByOpenpayTransactionID(charge.id, a.getPayment);
      if got.Err? {
        return Retry;
      }
      var payment := got.value;
      if !a.getTenant || payment.tenant !in tenants {
        return Retry;
      }
      var fees := Split(charge, tenants[payment.tenant]);
      var settled := payments.SettlePayment(payment.id, fees, a.settle);
      if settled.Err? {
        return Retry;
      }
      var credit := balances.CreditSettlement(payment.Owner(), fees.gross, fees.net, a.creditUpdate, a.creditInsert);
      var owner := payment.Owner();
      journal := journal + [Settlement(payment.id, owner, payment.fees.net, owner, fees, credit.Ok?)];
      return Ack;
    }

    method OnChargeStatus(e: Event, status: PaymentStatus, a: Answers) returns (reply: Reply)
      requires Valid()
      modifies payments, balances, subscriptions, this`journal
      ensures Valid()
      ensures (State(), reply) == HandleChargeStatus(old(State()), e, status, a)
    {
      var parsed := ParsedCharge(e);
      if parsed.None? {
        return Retry;
      }
      var charge := parsed.value;
      if charge.subscriptionId != "" && status == Failed {
        reply := OnSubscriptionChargeFailed(e, a);
        return;
      }
      var got, at := payments.GetByOpenpayTransactionID(charge.id, a.getPayment);
      if got.Err? {
        return Retry;
      }
      var payment := got.value;
      var updated := payments.UpdateStatus(payment.id, status, charge.errorMessage, a.updateStatus);
      if updated.Err? {
        return Retry;
      }
      ReleaseHold(payment, payment.Owner(), a);
      return Ack;
    }

    /** Releases the gross of a payment as it was before its status changed. */
    method ReleaseHold(payment: Payment, owner: Key, a: Answers)
      requires Valid()
      modifies balances, this`journal
      ensures Valid()
      ensures
        var w := old(State());
        State() == if payment.fees.gross > 0 then
          w.(balances :=
               if CreditAnswered(w, owner, a) then CreditTo(w.balances, owner, payment.fees.gross, 0) else w.balances,
             journal := w.journal + [Release(owner, payment.fees.gross, CreditAnswered(w, owner, a))])
        else w
    {
      if payment.fees.gross > 0 {
        var released := balances.CreditSettlement(owner, payment.fees.gross, 0, a.creditUpdate, a.creditInsert);
        journal := journal + [Release(owner, payment.fees.gross, released.Ok?)];
      }
    }

    method OnSubscriptionChargeSucceeded(e: Event, a: Answers, newId: Id) returns (reply: Reply)
      requires Valid()
      modifies payments, balances, subscriptions, this`journal
      ensures Valid()
      ensures (State(), reply) == HandleSubscriptionChargeSucceeded(old(State()), e, a, newId)
    {
      var parsed := ParsedCharge(e);
      if parsed.None? || parsed.value.subscriptionId == "" {
        return Retry;
      }
      var charge := parsed.value;
      var gotSub, s := subscriptions.GetByOpenpaySubID(charge.subscriptionId, a.getSubscription);
      if gotSub.Err? {
        return Retry;
      }
      var sub := gotSub.value;
      if !a.getTenant || sub.tenant !in tenants {
        return Retry;
      }
      var got, at := payments.GetByOpenpayTransactionID(charge.id, a.getPayment);
      var payment: Payment;
      if got.Ok? {
        payment := got.value;
      } else {
        if got.error != ErrNotFound {
          return Retry;
        }
        payment := BillingCycleRow(newId, sub, charge);
        at := |payments.rows|;
        var created := payments.Create(payment, a.create);
        if created.Err? {
          return Retry;
        }
      }
      reply := SettleCycle(payment, at, sub, s, charge, a);
    }

    method SettleCycle(
      payment: Payment, ghost i: nat, sub: Subs.Subscription, ghost s: nat, charge: Charge, a: Answers)
      returns (reply: Reply)
      requires Valid() && sub.tenant in tenants
      requires i < |payments.rows| && payments.rows[i] == payment
      requires s < |subscriptions.rows| && subscriptions.rows[s] == sub
      modifies payments, balances, subscriptions, this`journal
      ensures Valid()
      ensures (State(), reply) == SettleBillingCycle(old(State()), charge, s, i, a)
    {
      var fees := Split(charge, tenants[sub.tenant]);
      var settled := payments.SettlePayment(payment.id, fees, a.settle);
      if settled.Err? {
        return Retry;
      }
      var owner := Key(sub.tenant, payment.currency);
      var credit := balances.CreditSettlement(owner, fees.gross, fees.net, a.creditUpdate, a.creditInsert);
      journal := journal + [Settlement(payment.id, payment.Owner(), payment.fees.net, owner, fees, credit.Ok?)];
      var recorded := subscriptions.RecordCharge(sub.id, payment.id, a.recordCharge);
      if recorded.Ok? {
        journal := journal + [SubMoved(s, Subs.ChargeRecorded(payment.id))];
      }
      return Ack;
    }

    method OnSubscriptionChargeFailed(e: Event, a: Answers) returns (reply: Reply)
      requires Valid()
      modifies payments, balances, subscriptions, this`journal
      ensures Valid()
      ensures (State(), reply) == HandleSubscriptionChargeFailed(old(State()), e, a)
    {
      var parsed := ParsedCharge(e);
      if parsed.None? || parsed.value.subscriptionId == "" {
        return Retry;
      }
      var charge := parsed.value;
      var gotSub, s := subscriptions.GetByOpenpaySubID(charge.subscriptionId, a.getSubscription);
      if gotSub.Err? {
        return Retry;
      }
      var sub := gotSub.value;
      var bumped := subscriptions.IncrementFailedCharge(sub.id, a.increment);
      if bumped.Err? {
        return Retry;
      }
      journal := journal + [SubMoved(s, Subs.ChargeFailed)];
      var got, at := payments.GetByOpenpayTransactionID(charge.id, a.getPayment);
      if got.Ok? {
        var payment := got.value;
        var _ := payments.UpdateStatus(payment.id, Failed, charge.errorMessage, a.updateStatus);
        ReleaseHold(payment, Key(sub.tenant, payment.currency), a);
      }
      return Ack;
    }

    method OnSubscriptionStatusChange(e: Event, status: Subs.SubscriptionStatus, a: Answers) returns (reply: Reply)
      requires Valid()
      modifies subscriptions, this`journal
      ensures Valid()
      ensures (State(), reply) == HandleSubscriptionStatusChange(old(State()), e, status, a)
    {
      if e.subscriptionRef.None? {
        return Retry;
      }
      var gotSub, s := subscriptions.GetByOpenpaySubID(e.subscriptionRef.value, a.getSubscription);
      if gotSub.Err? {
        return Retry;
      }
      var updated := subscriptions.UpdateStatus(gotSub.value.id, status, a.updateStatus);
      if updated.Err? {
        return Retry;
      }
      journal := journal + [SubMoved(s, Subs.StatusSet(status))];
      return Ack;
    }
  }
}
