/** The settlement service as a state machine over its tables: what one OpenPay delivery, and
    every other writer of the same tables, does to them (internal/webhook/ingress.go).
    Every repository call may fail; a call that fails changes nothing. */
module Ledger {
  import opened Wrappers
  import opened Balances
  import opened Fees
  import opened Payments
  import Subs = Subscriptions
  import opened Journal

  datatype TenantConfig = TenantConfig(fee: PlatformFeeConfig, feeType: FeeType)

  datatype World = World(
    payments: seq<Payment>,
    balances: BalanceTable,
    subs: seq<Subs.Subscription>,
    tenants: map<Id, TenantConfig>,
    journal: seq<Entry>)

  const EMPTY: World := World([], map[], [], map[], [])

  // ── What OpenPay sends ──

  /** A parsed charge; the peso amounts are already centavos (floatToCentavos). An absent
      subscription_id is the empty string. */
  datatype Charge = Charge(
    id: string,
    amount: int,
    fee: Option<int>,
    currency: string,
    subscriptionId: string,
    errorMessage: string)

  datatype Kind =
    | Verification
    | ChargeSucceeded | ChargeFailed | ChargeCancelled | ChargeRefunded | ChargebackAccepted
    | SubscriptionChargeSucceeded | SubscriptionChargeFailed
    | SubscriptionCancelled | SubscriptionDeactivated
    | Unknown(name: string)

  /** charge is None when the transaction payload is missing or is not a charge;
      subscriptionRef is what parseSubscriptionID finds in the payload. */
  datatype Event = Event(kind: Kind, charge: Option<Charge>, subscriptionRef: Option<string>)

  /** 200, or 500 so that OpenPay delivers again. */
  datatype Reply = Ack | Retry

  /** Which repository calls of one delivery the database answers. */
  datatype Answers = Answers(
    getSubscription: bool, getTenant: bool, getPayment: bool,
    create: bool, settle: bool, creditUpdate: bool, creditInsert: bool,
    recordCharge: bool, increment: bool, updateStatus: bool)

  const ALL_ANSWERED: Answers := Answers(true, true, true, true, true, true, true, true, true, true)

  function ParsedCharge(e: Event): Option<Charge> {
    if e.charge.Some? && e.charge.value.id != "" then e.charge else None
  }

  /** The events that settle. */
  predicate IsCharge(e: Event) {
    e.kind.ChargeSucceeded? || e.kind.SubscriptionChargeSucceeded?
  }

  // ── The writes ──

  function Split(c: Charge, config: TenantConfig): PaymentFees {
    NetAmountForCharge(c.amount, if c.fee.Some? then c.fee.value else 0, config.fee, config.feeType)
  }

  function CreditAnswered(w: World, owner: Key, a: Answers): bool {
    a.creditUpdate && (owner in w.balances || a.creditInsert)
  }

  /** SettlePayment on row i, then CreditSettlement on owner; a failed credit is only logged. */
  function SettleRow(w: World, i: nat, fees: PaymentFees, owner: Key, credited: bool): World
    requires i < |w.payments|
  {
    var p := w.payments[i];
    w.(payments := w.payments[i := Settled(p, fees)],
       balances := if credited then CreditTo(w.balances, owner, fees.gross, fees.net) else w.balances,
       journal := w.journal + [Settlement(p.id, p.Owner(), p.fees.net, owner, fees, credited)])
  }

  /** UpdateStatus on row i (unless `marked` is false: it failed and the failure was ignored),
      then the release of its hold; a failed release is only logged. */
  function CloseRow(
    w: World, i: nat, marked: bool, status: PaymentStatus, message: string, owner: Key, done: bool): World
    requires i < |w.payments|
  {
    var p := w.payments[i];
    var w1 := if marked then w.(payments := w.payments[i := WithStatus(p, status, message)]) else w;
    if p.fees.gross > 0 then
      w1.(balances := if done then CreditTo(w.balances, owner, p.fees.gross, 0) else w.balances,
          journal := w.journal + [Release(owner, p.fees.gross, done)])
    else w1
  }

  function MoveSub(w: World, s: nat, ev: Subs.SubEvent): World
    requires s < |w.subs|
  {
    w.(subs := w.subs[s := Subs.Apply(w.subs[s], ev)], journal := w.journal + [SubMoved(s, ev)])
  }

  function CreateRow(w: World, p: Payment): World {
    w.(payments := w.payments + [p])
  }

  function Hold(w: World, payment: Option<Id>, owner: Key, amount: int): World {
    w.(balances := AddPendingTo(w.balances, owner, amount), journal := w.journal + [Added(payment, owner, amount)])
  }

  function Debit(w: World, owner: Key, amount: int): World
    requires owner in w.balances
  {
    w.(balances := DebitFrom(w.balances, owner, amount), journal := w.journal + [Debited(owner, amount)])
  }

  // ── The handlers ──

  function HandleChargeSucceeded(w: World, e: Event, a: Answers, newId: Id): (World, Reply) {
    var parsed := ParsedCharge(e);
    if parsed.None? then (w, Retry)
    else
      var c := parsed.value;
      if c.subscriptionId != "" then HandleSubscriptionChargeSucceeded(w, e, a, newId)
      else if !a.getPayment then (w, Retry)
      else
        var found := IndexOfTx(w.payments, c.id);
        if found.None? then (w, Retry)
        else
          var p := w.payments[found.value];
          if !a.getTenant || p.tenant !in w.tenants then (w, Retry)
          else
            var fees := Split(c, w.tenants[p.tenant]);
            if !a.settle || !PassesChecks(fees) then (w, Retry)
            else (SettleRow(w, found.value, fees, p.Owner(), CreditAnswered(w, p.Owner(), a)), Ack)
  }

  function HandleChargeStatus(w: World, e: Event, status: PaymentStatus, a: Answers): (World, Reply) {
    var parsed := ParsedCharge(e);
    if parsed.None? then (w, Retry)
    else
      var c := parsed.value;
      if c.subscriptionId != "" && status.Failed? then HandleSubscriptionChargeFailed(w, e, a)
      else if !a.getPayment then (w, Retry)
      else
        var found := IndexOfTx(w.payments, c.id);
        if found.None? || !a.updateStatus then (w, Retry)
        else
          var owner := w.payments[found.value].Owner();
          (CloseRow(w, found.value, true, status, c.errorMessage, owner, CreditAnswered(w, owner, a)), Ack)
  }

  /** The row created on the fly for a billing cycle OpenPay charged by itself. */
  function BillingCycleRow(newId: Id, sub: Subs.Subscription, c: Charge): Payment {
    Payment(newId, sub.tenant, Some(sub.id), c.id, "sub:" + c.id,
            PaymentFees(c.amount, 0, 0, 0), c.currency, InProgress, "")
  }

  function HandleSubscriptionChargeSucceeded(w: World, e: Event, a: Answers, newId: Id): (World, Reply) {
    var parsed := ParsedCharge(e);
    if parsed.None? || parsed.value.subscriptionId == "" || !a.getSubscription then (w, Retry)
    else
      var c := parsed.value;
      var s := Subs.IndexOfSub(w.subs, c.subscriptionId);
      if s.None? || !a.getTenant || w.subs[s.value].tenant !in w.tenants || !a.getPayment then (w, Retry)
      else
        var found := IndexOfTx(w.payments, c.id);
        if found.Some? then SettleBillingCycle(w, c, s.value, found.value, a)
        else
          var row := BillingCycleRow(newId, w.subs[s.value], c);
          if !a.create || !CanCreate(w.payments, row) then (w, Retry)
          else SettleBillingCycle(CreateRow(w, row), c, s.value, |w.payments|, a)
  }

  /** Settle row i, credit the subscription's tenant, record the charge on the subscription. */
  function SettleBillingCycle(w: World, c: Charge, s: nat, i: nat, a: Answers): (World, Reply)
    requires i < |w.payments| && s < |w.subs| && w.subs[s].tenant in w.tenants
  {
    var p := w.payments[i];
    var owner := Key(w.subs[s].tenant, p.currency);
    var fees := Split(c, w.tenants[w.subs[s].tenant]);
    if !a.settle || !PassesChecks(fees) then (w, Retry)
    else
      var w1 := SettleRow(w, i, fees, owner, CreditAnswered(w, owner, a));
      (if a.recordCharge then MoveSub(w1, s, Subs.ChargeRecorded(p.id)) else w1, Ack)
  }

  function HandleSubscriptionChargeFailed(w: World, e: Event, a: Answers): (World, Reply) {
    var parsed := ParsedCharge(e);
    if parsed.None? || parsed.value.subscriptionId == "" || !a.getSubscription then (w, Retry)
    else
      var c := parsed.value;
      var s := Subs.IndexOfSub(w.subs, c.subscriptionId);
      if s.None? || !a.increment || !Subs.Accepts(w.subs[s.value], Subs.ChargeFailed) then (w, Retry)
      else
        var w1 := MoveSub(w, s.value, Subs.ChargeFailed);
        var found := IndexOfTx(w.payments, c.id);
        if !a.getPayment || found.None? then (w1, Ack)
        else
          var owner := Key(w.subs[s.value].tenant, w.payments[found.value].currency);
          (CloseRow(w1, found.value, a.updateStatus, Failed, c.errorMessage, owner, CreditAnswered(w, owner, a)), Ack)
  }

  function HandleSubscriptionStatusChange(
    w: World, e: Event, status: Subs.SubscriptionStatus, a: Answers): (World, Reply)
  {
    if e.subscriptionRef.None? || !a.getSubscription then (w, Retry)
    else
      var s := Subs.IndexOfSub(w.subs, e.subscriptionRef.value);
      if s.None? || !a.updateStatus then (w, Retry)
      else (MoveSub(w, s.value, Subs.StatusSet(status)), Ack)
  }

  function Deliver(w: World, e: Event, a: Answers, newId: Id): (World, Reply) {
    match e.kind
    case Verification => (w, Ack)
    case ChargeSucceeded => HandleChargeSucceeded(w, e, a, newId)
    case ChargeFailed => HandleChargeStatus(w, e, Failed, a)
    case ChargeCancelled => HandleChargeStatus(w, e, Cancelled, a)
    case ChargeRefunded => HandleChargeStatus(w, e, Refunded, a)
    case ChargebackAccepted => HandleChargeStatus(w, e, Chargeback, a)
    case SubscriptionChargeSucceeded => HandleSubscriptionChargeSucceeded(w, e, a, newId)
    case SubscriptionChargeFailed => HandleSubscriptionChargeFailed(w, e, a)
    case SubscriptionCancelled => HandleSubscriptionStatusChange(w, e, Subs.Cancelled, a)
    case SubscriptionDeactivated => HandleSubscriptionStatusChange(w, e, Subs.Unpaid, a)
    case Unknown(_) => (w, Ack)
  }

  // ── The other writers of the same tables ──

  /** What the services put into a new payment row: no fees yet. */
  datatype Draft = Draft(
    id: Id, tenant: Id, tx: string, idempotencyKey: string, gross: int, currency: string, status: PaymentStatus)

  function NewPayment(d: Draft): Payment {
    Payment(d.id, d.tenant, None, d.tx, d.idempotencyKey, PaymentFees(d.gross, 0, 0, 0), d.currency, d.status, "")
  }

  function IndexOfId(rows: seq<Payment>, id: Id): (r: Option<nat>)
    ensures r.Some? ==> r.value < |rows| && rows[r.value].id == id
    ensures r.None? ==> forall i :: 0 <= i < |rows| ==> rows[i].id != id
  {
    IndexWhere(rows, (p: Payment) => p.id == id)
  }

  datatype Step =
      /** One webhook delivery; uuid.New() draws the id. */
    | Delivery(e: Event, a: Answers, id: Id)
      /** A charge is initiated and its row created. */
    | NewCharge(d: Draft, createOk: bool)
      /** AddPending, its own call: for a payment or for nothing in particular, at any time. */
    | HoldFunds(hold: Option<Id>, owner: Key, amount: int, ok: bool)
      /** DebitAvailable for a payout. */
    | PayOut(owner: Key, amount: int, ok: bool)
      /** PaymentService.RefundPayment. */
    | Refund(tenant: Id, payment: Id, getOk: bool, upstreamOk: bool, updateOk: bool)
    | NewSubscription(s: Subs.Subscription, insertOk: bool)
    | ScheduleCancel(sub: nat, ok: bool)
    | ConfigureTenant(tenant: Id, config: TenantConfig)

  function RefundPayment(w: World, s: Step): World
    requires s.Refund?
  {
    var found := IndexOfId(w.payments, s.payment);
    if !s.getOk || found.None? || w.payments[found.value].tenant != s.tenant then w
    else if !w.payments[found.value].status.Completed? || !s.upstreamOk || !s.updateOk then w
    else w.(payments := w.payments[found.value := WithStatus(w.payments[found.value], Refunded, "")])
  }

  function Next(w: World, s: Step): World {
    match s
    case Delivery(e, a, id) => Deliver(w, e, a, id).0
    case NewCharge(d, createOk) =>
      if createOk && CanCreate(w.payments, NewPayment(d)) then CreateRow(w, NewPayment(d)) else w
    case HoldFunds(hold, owner, amount, ok) => if ok then Hold(w, hold, owner, amount) else w
    case PayOut(owner, amount, ok) => if ok && owner in w.balances then Debit(w, owner, amount) else w
    case Refund(_, _, _, _, _) => RefundPayment(w, s)
    case NewSubscription(sub, insertOk) =>
      if insertOk && Subs.CanInsert(w.subs, sub) then w.(subs := w.subs + [sub]) else w
    case ScheduleCancel(sub, ok) => if ok && sub < |w.subs| then MoveSub(w, sub, Subs.CancelScheduled) else w
    case ConfigureTenant(tenant, config) => w.(tenants := w.tenants[tenant := config])
  }

  function Run(w: World, steps: seq<Step>): World {
    if steps == [] then w else Next(Run(w, steps[..|steps| - 1]), steps[|steps| - 1])
  }
}
