/** Every step of the service is a short sequence of database writes, and every write keeps
    the books. The run theorems need nothing else about the handlers. */
module LedgerWrites {
  import opened Wrappers
  import opened Balances
  import opened Fees
  import opened Payments
  import Subs = Subscriptions
  import opened Ledger
  import opened Held

  datatype Write =
    | WCreate(p: Payment)
    | WSettle(i: nat, fees: PaymentFees, owner: Key, credited: bool)
    | WClose(i: nat, marked: bool, status: PaymentStatus, message: string, owner: Key, done: bool)
    | WRefund(i: nat)
    | WMove(s: nat, ev: Subs.SubEvent)
    | WHold(hold: Option<Id>, owner: Key, amount: int)
    | WDebit(owner: Key, amount: int)
    | WNewSub(sub: Subs.Subscription)
    | WConfigure(tenant: Id, config: TenantConfig)

  predicate Closing(status: PaymentStatus) {
    status.Failed? || status.Cancelled? || status.Refunded? || status.Chargeback?
  }

  ghost predicate Allowed(w: World, x: Write) {
    match x
    case WCreate(p) => CanCreate(w.payments, p) && p.fees == PaymentFees(p.fees.gross, 0, 0, 0)
    case WSettle(i, fees, _, _) =>
      i < |w.payments| && PassesChecks(fees) && fees.openpayFee + fees.platformFee + fees.net == fees.gross
    case WClose(i, _, status, _, _, _) => i < |w.payments| && Closing(status)
    case WRefund(i) => i < |w.payments| && w.payments[i].status.Completed?
    case WMove(s, ev) => s < |w.subs| && Subs.Accepts(w.subs[s], ev) && Subs.FromIngress([ev])
    case WHold(_, _, _) => true
    case WDebit(owner, _) => owner in w.balances
    case WNewSub(sub) => Subs.CanInsert(w.subs, sub)
    case WConfigure(_, _) => true
  }

  function Do(w: World, x: Write): World
    requires Allowed(w, x)
  {
    match x
    case WCreate(p) => CreateRow(w, p)
    case WSettle(i, fees, owner, credited) => SettleRow(w, i, fees, owner, credited)
    case WClose(i, marked, status, message, owner, done) => CloseRow(w, i, marked, status, message, owner, done)
    case WRefund(i) => w.(payments := w.payments[i := WithStatus(w.payments[i], Refunded, "")])
    case WMove(s, ev) => MoveSub(w, s, ev)
    case WHold(hold, owner, amount) => Hold(w, hold, owner, amount)
    case WDebit(owner, amount) => Debit(w, owner, amount)
    case WNewSub(sub) => w.(subs := w.subs + [sub])
    case WConfigure(tenant, config) => w.(tenants := w.tenants[tenant := config])
  }

  ghost predicate AllowedAll(w: World, xs: seq<Write>)
    decreases |xs|
  {
    xs == [] || (Allowed(w, xs[0]) && AllowedAll(Do(w, xs[0]), xs[1..]))
  }

  ghost function DoAll(w: World, xs: seq<Write>): World
    requires AllowedAll(w, xs)
    decreases |xs|
  {
    if xs == [] then w else DoAll(Do(w, xs[0]), xs[1..])
  }

  // ── Discipline: the hypotheses about callers and about OpenPay ──

  /** A hold for the gross of a payment that is still open, on its owner, and its first one. */
  ghost predicate TimelyHold(w: World, hold: Option<Id>, owner: Key, amount: int) {
    && hold.Some? && hold.value !in Holds(w.journal)
    && exists i :: 0 <= i < |w.payments| && HoldsRow(w.payments[i], hold.value, owner, amount)
  }

  predicate HoldsRow(p: Payment, id: Id, owner: Key, amount: int) {
    p.id == id && p.Open() && p.Owner() == owner && p.fees.gross == amount
  }

  /** A hold is timely; a settlement has the gross its row records; money moves on the account
      that owns the row, unless that account can spare what the row was held for. */
  ghost predicate DisciplinedWrite(w: World, x: Write) {
    match x
    case WSettle(i, fees, owner, _) =>
      i < |w.payments| && OwnedOrSpared(w, i, owner) && fees.gross == w.payments[i].fees.gross
    case WClose(i, _, _, _, owner, _) => i < |w.payments| && OwnedOrSpared(w, i, owner)
    case WHold(hold, owner, amount) => TimelyHold(w, hold, owner, amount)
    case _ => true
  }

  ghost predicate OwnedOrSpared(w: World, i: nat, owner: Key)
    requires i < |w.payments|
  {
    owner == w.payments[i].Owner() || SpareFor(w, i)
  }

  ghost predicate DisciplinedAll(w: World, xs: seq<Write>)
    requires AllowedAll(w, xs)
    decreases |xs|
  {
    xs == [] || (DisciplinedWrite(w, xs[0]) && DisciplinedAll(Do(w, xs[0]), xs[1..]))
  }

  /** The amount OpenPay reports for a transaction is the one its row records. */
  ghost predicate AmountsAgree(w: World, e: Event) {
    e.charge.Some? ==>
      (forall i :: 0 <= i < |w.payments| && w.payments[i].tx == e.charge.value.id ==>
        w.payments[i].fees.gross == e.charge.value.amount)
  }

  /** A subscription's charge has the row of the subscription's tenant. */
  ghost predicate OwnersAgree(w: World, e: Event) {
    e.charge.Some? && e.charge.value.subscriptionId != "" ==>
      (forall i, s | 0 <= i < |w.payments| && 0 <= s < |w.subs| ::
        w.payments[i].tx == e.charge.value.id && w.subs[s].openpaySubId == e.charge.value.subscriptionId ==>
          w.payments[i].tenant == w.subs[s].tenant)
  }

  /** Or the row's owner can spare what the row was held for. */
  ghost predicate OwnersAgreeOrSpare(w: World, e: Event) {
    e.charge.Some? && e.charge.value.subscriptionId != "" ==>
      (forall i, s | 0 <= i < |w.payments| && 0 <= s < |w.subs| ::
        w.payments[i].tx == e.charge.value.id && w.subs[s].openpaySubId == e.charge.value.subscriptionId ==>
          w.payments[i].tenant == w.subs[s].tenant || SpareFor(w, i))
  }

  ghost predicate Disciplined(w: World, s: Step) {
    match s
    case Delivery(e, _, _) => AmountsAgree(w, e) && OwnersAgreeOrSpare(w, e)
    case HoldFunds(hold, owner, amount, _) => TimelyHold(w, hold, owner, amount)
    case _ => true
  }

  // ── The decomposition ──

  lemma OneWrite(w: World, x: Write)
    requires Allowed(w, x)
    ensures AllowedAll(w, [x]) && DoAll(w, [x]) == Do(w, x)
    ensures DisciplinedAll(w, [x]) <==> DisciplinedWrite(w, x)
  {
    var none: seq<Write> := [x][1..];
    assert none == [];
  }

  lemma ThenWrites(w: World, x: Write, xs: seq<Write>)
    requires Allowed(w, x) && AllowedAll(Do(w, x), xs)
    ensures AllowedAll(w, [x] + xs) && DoAll(w, [x] + xs) == DoAll(Do(w, x), xs)
    ensures DisciplinedAll(w, [x] + xs) <==> DisciplinedWrite(w, x) && DisciplinedAll(Do(w, x), xs)
  {
    assert ([x] + xs)[1..] == xs;
  }

  lemma SettleBillingCycleWrites(w: World, c: Charge, s: nat, i: nat, a: Answers) returns (xs: seq<Write>)
    requires i < |w.payments| && s < |w.subs| && w.subs[s].tenant in w.tenants
    ensures AllowedAll(w, xs) && DoAll(w, xs) == SettleBillingCycle(w, c, s, i, a).0
    ensures
      (w.payments[i].tenant == w.subs[s].tenant || SpareFor(w, i)) && w.payments[i].fees.gross == c.amount ==>
        DisciplinedAll(w, xs)
  {
    var owner := Key(w.subs[s].tenant, w.payments[i].currency);
    var fees := Split(c, w.tenants[w.subs[s].tenant]);
    if !a.settle || !PassesChecks(fees) {
      xs := [];
    } else {
      var settle := WSettle(i, fees, owner, CreditAnswered(w, owner, a));
      if a.recordCharge {
        var move := WMove(s, Subs.ChargeRecorded(w.payments[i].id));
        OneWrite(Do(w, settle), move);
        ThenWrites(w, settle, [move]);
        xs := [settle] + [move];
      } else {
        OneWrite(w, settle);
        xs := [settle];
      }
    }
  }

  lemma SubscriptionChargeWrites(w: World, e: Event, a: Answers, newId: Id) returns (xs: seq<Write>)
    ensures AllowedAll(w, xs) && DoAll(w, xs) == HandleSubscriptionChargeSucceeded(w, e, a, newId).0
    ensures AmountsAgree(w, e) && OwnersAgreeOrSpare(w, e) ==> DisciplinedAll(w, xs)
  {
    var parsed := ParsedCharge(e);
    xs := [];
    if parsed.None? || parsed.value.subscriptionId == "" || !a.getSubscription {
    } else {
      var c := parsed.value;
      var s := Subs.IndexOfSub(w.subs, c.subscriptionId);
      if s.None? || !a.getTenant || w.subs[s.value].tenant !in w.tenants || !a.getPayment {
      } else {
        var found := IndexOfTx(w.payments, c.id);
        if found.Some? {
          xs := SettleBillingCycleWrites(w, c, s.value, found.value, a);
        } else {
          var row := BillingCycleRow(newId, w.subs[s.value], c);
          if a.create && CanCreate(w.payments, row) {
            var create := WCreate(row);
            var rest := SettleBillingCycleWrites(CreateRow(w, row), c, s.value, |w.payments|, a);
            ThenWrites(w, create, rest);
            xs := [create] + rest;
          }
        }
      }
    }
  }

  lemma SubscriptionFailureWrites(w: World, e: Event, a: Answers) returns (xs: seq<Write>)
    ensures AllowedAll(w, xs) && DoAll(w, xs) == HandleSubscriptionChargeFailed(w, e, a).0
    ensures OwnersAgreeOrSpare(w, e) ==> DisciplinedAll(w, xs)
  {
    var parsed := ParsedCharge(e);
    xs := [];
    if parsed.None? || parsed.value.subscriptionId == "" || !a.getSubscription {
    } else {
      var c := parsed.value;
      var s := Subs.IndexOfSub(w.subs, c.subscriptionId);
      if s.None? || !a.increment || !Subs.Accepts(w.subs[s.value], Subs.ChargeFailed) {
      } else {
        var move := WMove(s.value, Subs.ChargeFailed);
        var found := IndexOfTx(w.payments, c.id);
        if !a.getPayment || found.None? {
          OneWrite(w, move);
          xs := [move];
        } else {
          var owner := Key(w.subs[s.value].tenant, w.payments[found.value].currency);
          var close := WClose(found.value, a.updateStatus, Failed, c.errorMessage, owner, CreditAnswered(w, owner, a));
          SpareAfterMove(w, s.value, Subs.ChargeFailed, found.value);
          OneWrite(Do(w, move), close);
          ThenWrites(w, move, [close]);
          xs := [move] + [close];
        }
      }
    }
  }

  lemma DeliveryWrites(w: World, e: Event, a: Answers, newId: Id) returns (xs: seq<Write>)
    ensures AllowedAll(w, xs) && DoAll(w, xs) == Deliver(w, e, a, newId).0
    ensures AmountsAgree(w, e) && OwnersAgreeOrSpare(w, e) ==> DisciplinedAll(w, xs)
  {
    xs := [];
    match e.kind
    case Verification =>
    case Unknown(_) =>
    case ChargeSucceeded =>
      if ParsedCharge(e).Some? && ParsedCharge(e).value.subscriptionId != "" {
        xs := SubscriptionChargeWrites(w, e, a, newId);
      } else if Deliver(w, e, a, newId).1.Ack? {
        var c := ParsedCharge(e).value;
        var i := IndexOfTx(w.payments, c.id).value;
        var p := w.payments[i];
        var x := WSettle(i, Split(c, w.tenants[p.tenant]), p.Owner(), CreditAnswered(w, p.Owner(), a));
        OneWrite(w, x);
        xs := [x];
      }
    case ChargeFailed => xs := ChargeStatusWrites(w, e, Failed, a);
    case ChargeCancelled => xs := ChargeStatusWrites(w, e, Cancelled, a);
    case ChargeRefunded => xs := ChargeStatusWrites(w, e, Refunded, a);
    case ChargebackAccepted => xs := ChargeStatusWrites(w, e, Chargeback, a);
    case SubscriptionChargeSucceeded => xs := SubscriptionChargeWrites(w, e, a, newId);
    case SubscriptionChargeFailed => xs := SubscriptionFailureWrites(w, e, a);
    case SubscriptionCancelled => xs := StatusChangeWrites(w, e, Subs.Cancelled, a);
    case SubscriptionDeactivated => xs := StatusChangeWrites(w, e, Subs.Unpaid, a);
  }

  lemma ChargeStatusWrites(w: World, e: Event, status: PaymentStatus, a: Answers) returns (xs: seq<Write>)
    requires Closing(status)
    ensures AllowedAll(w, xs) && DoAll(w, xs) == HandleChargeStatus(w, e, status, a).0
    ensures OwnersAgreeOrSpare(w, e) ==> DisciplinedAll(w, xs)
  {
    xs := [];
    var parsed := ParsedCharge(e);
    if parsed.Some? && parsed.value.subscriptionId != "" && status.Failed? {
      xs := SubscriptionFailureWrites(w, e, a);
    } else if HandleChargeStatus(w, e, status, a).1.Ack? {
      var c := parsed.value;
      var i := IndexOfTx(w.payments, c.id).value;
      var owner := w.payments[i].Owner();
      var x := WClose(i, true, status, c.errorMessage, owner, CreditAnswered(w, owner, a));
      OneWrite(w, x);
      xs := [x];
    }
  }

  lemma StatusChangeWrites(w: World, e: Event, status: Subs.SubscriptionStatus, a: Answers) returns (xs: seq<Write>)
    requires status.Cancelled? || status.Unpaid?
    ensures AllowedAll(w, xs) && DoAll(w, xs) == HandleSubscriptionStatusChange(w, e, status, a).0
    ensures DisciplinedAll(w, xs)
  {
    xs := [];
    if HandleSubscriptionStatusChange(w, e, status, a).1.Ack? {
      var x := WMove(Subs.IndexOfSub(w.subs, e.subscriptionRef.value).value, Subs.StatusSet(status));
      OneWrite(w, x);
      xs := [x];
    }
  }

  /** Every step is a sequence of allowed writes; a disciplined step, of disciplined ones. */
  lemma StepWrites(w: World, s: Step) returns (xs: seq<Write>)
    ensures AllowedAll(w, xs) && DoAll(w, xs) == Next(w, s)
    ensures Disciplined(w, s) ==> DisciplinedAll(w, xs)
  {
    xs := [];
    match s
    case Delivery(e, a, id) => xs := DeliveryWrites(w, e, a, id);
    case NewCharge(d, createOk) =>
      if createOk && CanCreate(w.payments, NewPayment(d)) {
        OneWrite(w, WCreate(NewPayment(d)));
        xs := [WCreate(NewPayment(d))];
      }
    case HoldFunds(hold, owner, amount, ok) =>
      if ok {
        OneWrite(w, WHold(hold, owner, amount));
        xs := [WHold(hold, owner, amount)];
      }
    case PayOut(owner, amount, ok) =>
      if ok && owner in w.balances {
        OneWrite(w, WDebit(owner, amount));
        xs := [WDebit(owner, amount)];
      }
    case Refund(_, _, _, _, _) =>
      if Next(w, s) != w {
        var i := IndexOfId(w.payments, s.payment).value;
        OneWrite(w, WRefund(i));
        xs := [WRefund(i)];
      }
    case NewSubscription(sub, _) =>
      if Next(w, s) != w {
        OneWrite(w, WNewSub(sub));
        xs := [WNewSub(sub)];
      }
    case ScheduleCancel(sub, ok) =>
      if ok && sub < |w.subs| {
        OneWrite(w, WMove(sub, Subs.CancelScheduled));
        xs := [WMove(sub, Subs.CancelScheduled)];
      }
    case ConfigureTenant(tenant, config) =>
      OneWrite(w, WConfigure(tenant, config));
      xs := [WConfigure(tenant, config)];
  }
}
