/** When a balance agrees with the payment rows it was credited for: what every settlement does to the
    difference, and what must hold before each delivery for the two to agree after every run. */
module Agreement {
  import opened Wrappers
  import opened Balances
  import opened Fees
  import opened Payments
  import Subs = Subscriptions
  import opened Journal
  import opened Ledger
  import opened LedgerWrites
  import opened LedgerRuns

  // ── What a delivery writes into the journal ──

  /** The net the row of the transaction shows before the delivery; 0 when there is no row. */
  function RecordedNet(w: World, e: Event): int {
    if ParsedCharge(e).None? then 0
    else
      var found := IndexOfTx(w.payments, ParsedCharge(e).value.id);
      if found.Some? then w.payments[found.value].fees.net else 0
  }

  /** A settlement is written only by an acknowledged charge; it overwrites the recorded net, and it
      credits the row's owner if the owners agree. */
  ghost predicate SettledBy(w: World, e: Event, acked: bool, x: Entry) {
    x.Settlement? ==>
      IsCharge(e) && acked && x.oldNet == RecordedNet(w, e) && (OwnersAgree(w, e) ==> x.row == x.owner)
  }

  ghost predicate Appends(w: World, e: Event, acked: bool, j: seq<Entry>) {
    && |w.journal| <= |j| && j[..|w.journal|] == w.journal
    && forall n :: |w.journal| <= n < |j| ==> SettledBy(w, e, acked, j[n])
  }

  lemma CycleAppends(w: World, v: World, e: Event, c: Charge, s: nat, i: nat, a: Answers)
    requires IsCharge(e) && ParsedCharge(e) == Some(c) && c.subscriptionId != ""
    requires Subs.IndexOfSub(w.subs, c.subscriptionId) == Some(s) && v.subs == w.subs && v.journal == w.journal
    requires v.tenants == w.tenants && w.subs[s].tenant in w.tenants && i < |v.payments|
    requires v.payments[i].fees.net == RecordedNet(w, e)
    requires OwnersAgree(w, e) ==> v.payments[i].tenant == w.subs[s].tenant
    ensures
      var (w', reply) := SettleBillingCycle(v, c, s, i, a);
      Appends(w, e, reply.Ack?, w'.journal)
  {
  }

  lemma BillingCycleAppends(w: World, e: Event, a: Answers, newId: Id)
    requires IsCharge(e)
    ensures
      var (w', reply) := HandleSubscriptionChargeSucceeded(w, e, a, newId);
      Appends(w, e, reply.Ack?, w'.journal)
  {
    if ParsedCharge(e).Some? && ParsedCharge(e).value.subscriptionId != "" {
      var c := ParsedCharge(e).value;
      var s := Subs.IndexOfSub(w.subs, c.subscriptionId);
      if s.Some? && w.subs[s.value].tenant in w.tenants {
        var found := IndexOfTx(w.payments, c.id);
        if found.Some? {
          CycleAppends(w, w, e, c, s.value, found.value, a);
        } else {
          var v := CreateRow(w, BillingCycleRow(newId, w.subs[s.value], c));
          CycleAppends(w, v, e, c, s.value, |w.payments|, a);
        }
      }
    }
  }

  lemma ChargeAppends(w: World, e: Event, a: Answers, newId: Id)
    requires IsCharge(e)
    ensures
      var (w', reply) := HandleChargeSucceeded(w, e, a, newId);
      Appends(w, e, reply.Ack?, w'.journal)
  {
    BillingCycleAppends(w, e, a, newId);
  }

  lemma FailureAppends(w: World, e: Event, a: Answers, acked: bool)
    ensures Appends(w, e, acked, HandleSubscriptionChargeFailed(w, e, a).0.journal)
  {
  }

  lemma StatusAppends(w: World, e: Event, status: PaymentStatus, a: Answers, acked: bool)
    ensures Appends(w, e, acked, HandleChargeStatus(w, e, status, a).0.journal)
  {
    FailureAppends(w, e, a, acked);
  }

  lemma OtherAppends(w: World, e: Event, a: Answers, newId: Id, acked: bool)
    requires !IsCharge(e)
    ensures Appends(w, e, acked, Deliver(w, e, a, newId).0.journal)
  {
    match e.kind
    case ChargeFailed => StatusAppends(w, e, Failed, a, acked);
    case ChargeCancelled => StatusAppends(w, e, Cancelled, a, acked);
    case ChargeRefunded => StatusAppends(w, e, Refunded, a, acked);
    case ChargebackAccepted => StatusAppends(w, e, Chargeback, a, acked);
    case SubscriptionChargeFailed => FailureAppends(w, e, a, acked);
    case _ =>
  }

  lemma DeliveryAppends(w: World, e: Event, a: Answers, newId: Id)
    ensures Appends(w, e, Deliver(w, e, a, newId).1.Ack?, Deliver(w, e, a, newId).0.journal)
  {
    if e.kind.ChargeSucceeded? {
      ChargeAppends(w, e, a, newId);
    } else if e.kind.SubscriptionChargeSucceeded? {
      BillingCycleAppends(w, e, a, newId);
    } else {
      OtherAppends(w, e, a, newId, Deliver(w, e, a, newId).1.Ack?);
    }
  }

  // ── Credits follow the rows ──

  /** Before every delivery of the run, the row of its transaction and the subscription it names
      belong to the same tenant. */
  ghost predicate OwnersAgreeThroughout(w: World, steps: seq<Step>) {
    forall n :: 0 <= n < |steps| && steps[n].Delivery? ==> OwnersAgree(Run(w, steps[..n]), steps[n].e)
  }

  lemma StepFollows(w: World, s: Step)
    requires SameOwner(w.journal) && (s.Delivery? ==> OwnersAgree(w, s.e))
    ensures SameOwner(Next(w, s).journal)
  {
    if s.Delivery? {
      DeliveryAppends(w, s.e, s.a, s.id);
      var j := Next(w, s).journal;
      forall n | 0 <= n < |j| && j[n].Settlement? ensures j[n].row == j[n].owner {
        if n < |w.journal| {
          assert j[n] == j[..|w.journal|][n];
        }
      }
    }
  }

  lemma {:induction false} CreditsFollowRows(w: World, steps: seq<Step>)
    requires SameOwner(w.journal) && OwnersAgreeThroughout(w, steps)
    ensures SameOwner(Run(w, steps).journal)
  {
    if steps != [] {
      var n := |steps| - 1;
      var q := steps[..n];
      assert forall m :: 0 <= m < n ==> q[..m] == steps[..m];
      CreditsFollowRows(w, q);
      StepFollows(Run(w, q), steps[n]);
    }
  }

  /** When the row of a billing cycle and its subscription are found, its credit goes to the row's
      owner if and only if their tenants agree; otherwise the row shows the new net and its owner's
      balance does not move. */
  lemma CreditFollowsRowIff(w: World, e: Event, a: Answers, newId: Id, i: nat, s: nat)
    requires Books(w)
    requires e.kind.ChargeSucceeded? || e.kind.SubscriptionChargeSucceeded?
    requires ParsedCharge(e).Some? && ParsedCharge(e).value.subscriptionId != ""
    requires IndexOfTx(w.payments, ParsedCharge(e).value.id) == Some(i)
    requires Subs.IndexOfSub(w.subs, ParsedCharge(e).value.subscriptionId) == Some(s)
    requires Deliver(w, e, a, newId).1.Ack?
    ensures
      var w' := Deliver(w, e, a, newId).0;
      var k := w.payments[i].Owner();
      && |w'.journal| > |w.journal| && i < |w'.payments|
      && w'.journal[|w.journal|].Settlement? && w'.journal[|w.journal|].row == k
      && (w'.journal[|w.journal|].owner == k <==> w.payments[i].tenant == w.subs[s].tenant)
      && NetOfRows(w'.payments, k) == NetOfRows(w.payments, k) - w.payments[i].fees.net + w'.payments[i].fees.net
      && (w.payments[i].tenant != w.subs[s].tenant ==> Get(w'.balances, k) == Get(w.balances, k))
  {
    var w' := Deliver(w, e, a, newId).0;
    var c := ParsedCharge(e).value;
    assert (w', Ack) == SettleBillingCycle(w, c, s, i, a);
    NetOfRowsUpdate(w.payments, i, w'.payments[i], w.payments[i].Owner());
    assert w'.payments == w.payments[i := w'.payments[i]];
  }

  // ── Settlements of rows that show no net yet ──

  /** The delivery settles: it is a charge and is acknowledged. */
  ghost predicate Settling(w: World, s: Step) {
    s.Delivery? && IsCharge(s.e) && Deliver(w, s.e, s.a, s.id).1.Ack?
  }

  /** Before every delivery that settles, the row of its transaction shows no net. */
  ghost predicate FreshThroughout(w: World, steps: seq<Step>) {
    forall n :: 0 <= n < |steps| && Settling(Run(w, steps[..n]), steps[n]) ==>
      RecordedNet(Run(w, steps[..n]), steps[n].e) == 0
  }

  lemma StepOverwritesNothing(w: World, s: Step)
    requires NothingOverwritten(w.journal) && (Settling(w, s) ==> RecordedNet(w, s.e) == 0)
    ensures NothingOverwritten(Next(w, s).journal)
  {
    if s.Delivery? {
      DeliveryAppends(w, s.e, s.a, s.id);
      var j := Next(w, s).journal;
      forall n | 0 <= n < |j| && j[n].Settlement? ensures j[n].oldNet == 0 {
        if n < |w.journal| {
          assert j[n] == j[..|w.journal|][n];
        }
      }
    }
  }

  lemma {:induction false} FreshRunsOverwriteNothing(w: World, steps: seq<Step>)
    requires NothingOverwritten(w.journal) && FreshThroughout(w, steps)
    ensures NothingOverwritten(Run(w, steps).journal)
  {
    if steps != [] {
      var n := |steps| - 1;
      var q := steps[..n];
      assert forall m :: 0 <= m < n ==> q[..m] == steps[..m];
      FreshRunsOverwriteNothing(w, q);
      StepOverwritesNothing(Run(w, q), steps[n]);
    }
  }

  /** What an account has over the net its rows show. */
  function Gap(w: World, k: Key): int {
    Get(w.balances, k).available - NetOfRows(w.payments, k)
  }

  /** Settling a row on its owner's account keeps the gap if and only if the row showed no net and the
      credit went through, or the row already showed this net and it did not. */
  lemma SettlementGapIff(w: World, i: nat, fees: PaymentFees, credited: bool)
    requires i < |w.payments|
    ensures
      var p := w.payments[i];
      var w' := SettleRow(w, i, fees, p.Owner(), credited);
      Gap(w', p.Owner()) == Gap(w, p.Owner()) <==> p.fees.net == if credited then 0 else fees.net
  {
    NetOfRowsUpdate(w.payments, i, Settled(w.payments[i], fees), w.payments[i].Owner());
  }

  /** For an acknowledged one-time charge. */
  lemma ChargeGapIff(w: World, e: Event, a: Answers, newId: Id, i: nat)
    requires e.kind.ChargeSucceeded? && ParsedCharge(e).Some? && ParsedCharge(e).value.subscriptionId == ""
    requires IndexOfTx(w.payments, ParsedCharge(e).value.id) == Some(i) && Deliver(w, e, a, newId).1.Ack?
    ensures
      var w' := Deliver(w, e, a, newId).0;
      var k := w.payments[i].Owner();
      && i < |w'.payments|
      && (Gap(w', k) == Gap(w, k) <==>
           RecordedNet(w, e) == if CreditAnswered(w, k, a) then 0 else w'.payments[i].fees.net)
  {
    var fees := Split(ParsedCharge(e).value, w.tenants[w.payments[i].tenant]);
    SettlementGapIff(w, i, fees, CreditAnswered(w, w.payments[i].Owner(), a));
  }

  lemma CycleGap(v: World, c: Charge, s: nat, i: nat, a: Answers)
    requires i < |v.payments| && s < |v.subs| && v.subs[s].tenant in v.tenants
    requires v.payments[i].tenant == v.subs[s].tenant && SettleBillingCycle(v, c, s, i, a).1.Ack?
    ensures
      var w' := SettleBillingCycle(v, c, s, i, a).0;
      var k := v.payments[i].Owner();
      && |w'.payments| == |v.payments|
      && (Gap(w', k) == Gap(v, k) <==>
           v.payments[i].fees.net == if CreditAnswered(v, k, a) then 0 else w'.payments[i].fees.net)
  {
    SettlementGapIff(v, i, Split(c, v.tenants[v.subs[s].tenant]), CreditAnswered(v, v.payments[i].Owner(), a));
  }

  /** For an acknowledged billing cycle whose row was there, of the subscription's tenant, or was made
      for it and so showed no net. */
  lemma CycleGapIff(w: World, e: Event, a: Answers, newId: Id, s: nat)
    requires IsCharge(e) && ParsedCharge(e).Some? && ParsedCharge(e).value.subscriptionId != ""
    requires OwnersAgree(w, e) && Subs.IndexOfSub(w.subs, ParsedCharge(e).value.subscriptionId) == Some(s)
    requires Deliver(w, e, a, newId).1.Ack?
    ensures
      var c := ParsedCharge(e).value;
      var w' := Deliver(w, e, a, newId).0;
      var found := IndexOfTx(w.payments, c.id);
      var i := if found.Some? then found.value else |w.payments|;
      && i < |w'.payments|
      && (var k := w'.payments[i].Owner();
          Gap(w', k) == Gap(w, k) <==>
            RecordedNet(w, e) == if CreditAnswered(w, k, a) then 0 else w'.payments[i].fees.net)
  {
    var c := ParsedCharge(e).value;
    var found := IndexOfTx(w.payments, c.id);
    if found.Some? {
      CycleGap(w, c, s, found.value, a);
    } else {
      MadeCycleGap(w, c, s, newId, a);
    }
  }

  lemma MadeCycleGap(w: World, c: Charge, s: nat, newId: Id, a: Answers)
    requires s < |w.subs| && w.subs[s].tenant in w.tenants
    requires
      var v := CreateRow(w, BillingCycleRow(newId, w.subs[s], c));
      SettleBillingCycle(v, c, s, |w.payments|, a).1.Ack?
    ensures
      var v := CreateRow(w, BillingCycleRow(newId, w.subs[s], c));
      var w' := SettleBillingCycle(v, c, s, |w.payments|, a).0;
      var k := v.payments[|w.payments|].Owner();
      && |w'.payments| == |v.payments| && w'.payments[|w.payments|].Owner() == k
      && (Gap(w', k) == Gap(w, k) <==> 0 == if CreditAnswered(w, k, a) then 0 else w'.payments[|w.payments|].fees.net)
  {
    var row := BillingCycleRow(newId, w.subs[s], c);
    SumsAppend(w.payments, row, row.Owner());
    CycleGap(CreateRow(w, row), c, s, |w.payments|, a);
  }

  // ── Whole runs ──

  /** When before each delivery the owners agree, before each that settles the row shows no net, and no
      credit fails, a balance is the sum of net_amount over its payment rows minus its debits. */
  lemma AvailableAgreesWithRows(steps: seq<Step>, k: Key)
    requires OwnersAgreeThroughout(EMPTY, steps) && FreshThroughout(EMPTY, steps)
    requires AllCredited(Run(EMPTY, steps).journal)
    ensures
      var w := Run(EMPTY, steps);
      Get(w.balances, k).available == NetOfRows(w.payments, k) - Total(DebitColumn, w.journal, k)
  {
    CreditsFollowRows(EMPTY, steps);
    FreshRunsOverwriteNothing(EMPTY, steps);
    AvailableAgainstRows(steps, k);
    CleanJournalHasNoDrift(Run(EMPTY, steps).journal, k);
  }

  /** In particular when each transaction is settled at most once. */
  lemma AvailableWhenSettledOnce(steps: seq<Step>, k: Key)
    requires OwnersAgreeThroughout(EMPTY, steps)
    requires AtMostOnce(Run(EMPTY, steps).journal) && AllCredited(Run(EMPTY, steps).journal)
    ensures
      var w := Run(EMPTY, steps);
      Get(w.balances, k).available == NetOfRows(w.payments, k) - Total(DebitColumn, w.journal, k)
  {
    EmptyBooks();
    RunKeepsBooks(EMPTY, steps);
    CreditsFollowRows(EMPTY, steps);
    SettledOnceOverwritesNothing(Run(EMPTY, steps).journal);
    AvailableAgainstRows(steps, k);
    CleanJournalHasNoDrift(Run(EMPTY, steps).journal, k);
  }
}
