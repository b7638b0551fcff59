/** Refunds through the payment service (internal/service/payment_service.go). */
module PaymentService {
  import opened Wrappers
  import opened Balances
  import opened Payments
  import opened Ledger

  /** A completed payment of the tenant. */
  predicate Refundable(p: Payment, tenant: Id, payment: Id) {
    p.id == payment && p.tenant == tenant && p.status.Completed?
  }

  predicate BelongsTo(rows: seq<Payment>, tenant: Id, payment: Id) {
    exists i :: 0 <= i < |rows| && rows[i].id == payment && rows[i].tenant == tenant
  }

  /** Nobody refunds another tenant's payment, or one that is not completed. */
  lemma OnlyOwnCompletedPayments(w: World, tenant: Id, payment: Id, getOk: bool, upstreamOk: bool, updateOk: bool)
    requires forall i :: 0 <= i < |w.payments| ==> !Refundable(w.payments[i], tenant, payment)
    ensures Next(w, Refund(tenant, payment, getOk, upstreamOk, updateOk)) == w
  {
  }

  /** A refundable payment becomes refunded when the three calls succeed, and nothing else changes. */
  lemma RefundIff(
    w: World, tenant: Id, payment: Id, getOk: bool, upstreamOk: bool, updateOk: bool, i: nat)
    requires RowsValid(w.payments) && i < |w.payments| && Refundable(w.payments[i], tenant, payment)
    ensures Next(w, Refund(tenant, payment, getOk, upstreamOk, updateOk)) ==
      if getOk && upstreamOk && updateOk then
        w.(payments := w.payments[i := w.payments[i].(status := Payments.Refunded)])
      else w
  {
    OnlyId(w.payments, i);
  }

  lemma OnlyId(rows: seq<Payment>, i: nat)
    requires RowsValid(rows) && i < |rows|
    ensures IndexOfId(rows, rows[i].id) == Some(i)
    ensures forall j :: 0 <= j < |rows| && rows[j].id == rows[i].id ==> j == i
  {
  }

  datatype RefundReply = Refunded | NotFound | FailedPrecondition | Internal

  class PaymentService {
    const payments: PaymentRepo

    constructor (payments: PaymentRepo)
      ensures this.payments == payments
    {
      this.payments := payments;
    }

    /** Only a completed payment of the caller's tenant is refunded. A refund OpenPay accepted whose
        local update failed answers Internal and leaves the row completed. */
    method RefundPayment(tenant: Id, payment: Id, getOk: bool, upstreamOk: bool, updateOk: bool)
      returns (reply: RefundReply)
      requires payments.Valid()
      modifies payments
      ensures payments.Valid()
      ensures forall w: World :: w.payments == old(payments.rows) ==>
        Next(w, Refund(tenant, payment, getOk, upstreamOk, updateOk)) == w.(payments := payments.rows)
      ensures reply.Refunded? <==>
        && getOk && upstreamOk && updateOk
        && exists i :: 0 <= i < |old(payments.rows)| && Refundable(old(payments.rows)[i], tenant, payment)
      ensures forall i :: 0 <= i < |old(payments.rows)| && Refundable(old(payments.rows)[i], tenant, payment) ==>
        payments.rows ==
          if reply.Refunded? then old(payments.rows)[i := old(payments.rows)[i].(status := Payments.Refunded)]
          else old(payments.rows)
      ensures !reply.Refunded? ==> payments.rows == old(payments.rows)
      ensures reply.NotFound? <==> getOk && !BelongsTo(old(payments.rows), tenant, payment)
      ensures reply.FailedPrecondition? <==>
        && getOk && BelongsTo(old(payments.rows), tenant, payment)
        && forall i :: 0 <= i < |old(payments.rows)| ==> !Refundable(old(payments.rows)[i], tenant, payment)
    {
      var found := IndexOfId(payments.rows, payment);
      if !getOk {
        return Internal;
      }
      if found.None? || payments.rows[found.value].tenant != tenant {
        return NotFound;
      }
      OnlyId(payments.rows, found.value);
      var p := payments.rows[found.value];
      if !p.status.Completed? {
        return FailedPrecondition;
      }
      if !upstreamOk {
        return Internal;
      }
      var updated := payments.UpdateStatus(p.id, Payments.Refunded, "", updateOk);
      reply := if updated.Ok? then RefundReply.Refunded else Internal;
    }
  }
}
