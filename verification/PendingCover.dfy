/** How far pending can run ahead of the charges it was held for: never, while every hold is placed
    once, for the gross of a row still open, and released on that row's account; and exactly when, if
    the hold comes late or the release goes astray. */
module PendingCover {
  import opened Wrappers
  import opened Balances
  import opened Fees
  import opened Payments
  import Subs = Subscriptions
  import opened Journal
  import opened Ledger
  import opened Held
  import opened LedgerWrites
  import opened LedgerRuns

  // ── The cover ──

  /** pending never exceeds the gross of the open rows held for, plus the holds whose release was
      only logged. */
  ghost predicate CoveredFor(w: World, k: Key) {
    0 <= Get(w.balances, k).pending <= Cover(w, k)
  }

  ghost predicate Covered(w: World) {
    HoldsNonNegative(w.journal) && forall k: Key :: CoveredFor(w, k)
  }

  lemma {:induction false} LostHoldsNonNegative(j: seq<Entry>, k: Key)
    requires Sound(j)
    ensures Total(LostHoldColumn, j, k) >= 0
  {
    if j != [] {
      PrefixSound(j);
      LostHoldsNonNegative(j[..|j| - 1], k);
    }
  }

  lemma CoverNonNegative(w: World, k: Key)
    requires Books(w)
    ensures Cover(w, k) >= 0
  {
    HeldGrossBounds(w.payments, Holds(w.journal), k);
    LostHoldsNonNegative(w.journal, k);
  }

  /** An entry that lowers the held gross by no more than it lowers pending keeps the cover. */
  lemma CoveredAt(w: World, w': World, e: Entry, k: Key)
    requires Books(w) && Covered(w) && Books(w')
    requires w'.journal == w.journal + [e]
    requires e.Added? ==> e.amount >= 0
    requires HeldGross(w'.payments, Holds(w'.journal), k)
             >= HeldGross(w.payments, Holds(w.journal), k) + Move(e, k) - Amount(LostHoldColumn, e, k)
    ensures CoveredFor(w', k)
  {
    BalAfterAppend(w.journal, e, k);
    TotalAppend(LostHoldColumn, w.journal, e, k);
    assert Get(w.balances, k) == BalAfter(w.journal, k) && Get(w'.balances, k) == BalAfter(w'.journal, k);
    assert w'.journal[|w.journal|] == e;
    assert EntrySound(e);
    assert CoveredFor(w, k);
    PostReflects(Get(w.balances, k), e, k);
    CoverNonNegative(w', k);
  }

  lemma HoldsStayNonNegative(j: seq<Entry>, e: Entry)
    requires HoldsNonNegative(j) && (e.Added? ==> e.amount >= 0)
    ensures HoldsNonNegative(j + [e])
  {
  }

  lemma SettleKeepsCover(w: World, x: Write)
    requires Books(w) && Covered(w) && x.WSettle? && Allowed(w, x)
    requires x.owner == w.payments[x.i].Owner() && x.fees.gross == w.payments[x.i].fees.gross
    ensures Covered(Do(w, x))
  {
    var w' := Do(w, x);
    WriteKeepsBooks(w, x);
    var p := w.payments[x.i];
    var e := Settlement(p.id, p.Owner(), p.fees.net, x.owner, x.fees, x.credited);
    HoldsAppend(w.journal, e);
    HoldsStayNonNegative(w.journal, e);
    forall k: Key ensures CoveredFor(w', k) {
      HeldGrossUpdate(w.payments, x.i, Settled(p, x.fees), Holds(w.journal), k);
      CoveredAt(w, w', e, k);
    }
  }

  lemma CloseKeepsCover(w: World, x: Write)
    requires Books(w) && Covered(w) && x.WClose? && Allowed(w, x)
    requires x.owner == w.payments[x.i].Owner()
    ensures Covered(Do(w, x))
  {
    var w' := Do(w, x);
    WriteKeepsBooks(w, x);
    var p := w.payments[x.i];
    var e := Release(x.owner, p.fees.gross, x.done);
    if p.fees.gross > 0 {
      HoldsAppend(w.journal, e);
      HoldsStayNonNegative(w.journal, e);
      forall k: Key ensures CoveredFor(w', k) {
        HeldGrossUpdate(w.payments, x.i, WithStatus(p, x.status, x.message), Holds(w.journal), k);
        CoveredAt(w, w', e, k);
      }
    } else {
      CloseOfNothing(w, x);
    }
  }

  lemma CloseOfNothing(w: World, x: Write)
    requires Books(w) && Covered(w) && x.WClose? && Allowed(w, x) && w.payments[x.i].fees.gross <= 0
    ensures Covered(Do(w, x))
  {
    var w' := Do(w, x);
    var p := w.payments[x.i];
    assert PassesChecks(p.fees);
    forall k: Key ensures CoveredFor(w', k) {
      assert CoveredFor(w, k);
      HeldGrossUpdate(w.payments, x.i, WithStatus(p, x.status, x.message), Holds(w.journal), k);
    }
  }

  lemma RefundKeepsCover(w: World, x: Write)
    requires Books(w) && Covered(w) && x.WRefund? && Allowed(w, x)
    ensures Covered(Do(w, x))
  {
    var w' := Do(w, x);
    forall k: Key ensures CoveredFor(w', k) {
      assert CoveredFor(w, k);
      HeldGrossUpdate(w.payments, x.i, WithStatus(w.payments[x.i], Refunded, ""), Holds(w.journal), k);
    }
  }

  lemma CreateKeepsCover(w: World, p: Payment)
    requires Books(w) && Covered(w) && Allowed(w, WCreate(p))
    ensures Covered(CreateRow(w, p))
  {
    forall k: Key ensures CoveredFor(CreateRow(w, p), k) {
      assert CoveredFor(w, k);
      HeldGrossAppend(w.payments, p, Holds(w.journal), k);
    }
  }

  lemma HoldKeepsCover(w: World, hold: Option<Id>, owner: Key, amount: int)
    requires Books(w) && Covered(w) && TimelyHold(w, hold, owner, amount)
    ensures Covered(Hold(w, hold, owner, amount))
  {
    var w', e := Hold(w, hold, owner, amount), Added(hold, owner, amount);
    var i :| 0 <= i < |w.payments| && HoldsRow(w.payments[i], hold.value, owner, amount);
    HoldKeepsBooks(w, hold, owner, amount);
    HoldsAppend(w.journal, e);
    assert PassesChecks(w.payments[i].fees);
    HoldsStayNonNegative(w.journal, e);
    forall k: Key ensures CoveredFor(w', k) {
      HeldGrossGrows(w.payments, Holds(w.journal), i, k);
      CoveredAt(w, w', e, k);
    }
  }

  lemma EntryKeepsCover(w: World, w': World, e: Entry)
    requires Books(w) && Covered(w) && Books(w') && w'.payments == w.payments
    requires w'.journal == w.journal + [e] && (e.Debited? || e.SubMoved?)
    ensures Covered(w')
  {
    HoldsAppend(w.journal, e);
    HoldsStayNonNegative(w.journal, e);
    forall k: Key ensures CoveredFor(w', k) {
      CoveredAt(w, w', e, k);
    }
  }

  // ── The release that goes astray ──

  /** Row i changes to p and the entry e is posted: away from the entry's owner pending stays, and the
      cover loses what the row was held for. */
  lemma CoverElsewhere(w: World, w': World, i: nat, p: Payment, e: Entry, k: Key)
    requires Books(w) && Books(w') && i < |w.payments|
    requires w'.payments == w.payments[i := p] && w'.journal == w.journal + [e]
    requires (e.Settlement? || e.Release?) && e.owner != k && !p.Open()
    ensures Get(w'.balances, k).pending == Get(w.balances, k).pending
    ensures Cover(w', k) == Cover(w, k) - HeldGrossOf(w.payments[i], Holds(w.journal), k)
  {
    HoldsAppend(w.journal, e);
    HeldGrossUpdate(w.payments, i, p, Holds(w.journal), k);
    TotalAppend(LostHoldColumn, w.journal, e, k);
    BalAfterAppend(w.journal, e, k);
    assert Get(w.balances, k) == BalAfter(w.journal, k) && Get(w'.balances, k) == BalAfter(w'.journal, k);
  }

  /** An entry that takes the row's gross from an account that does not own the row: that account
      stays covered, and so does every other but the owner's. */
  lemma OthersStayCovered(w: World, w': World, i: nat, p: Payment, e: Entry, k: Key)
    requires Books(w) && Covered(w) && Books(w') && i < |w.payments| && w.payments[i].Owner() != k
    requires w'.payments == w.payments[i := p] && w'.journal == w.journal + [e]
    requires (e.Settlement? || e.Release?) && p.Owner() == w.payments[i].Owner()
    ensures CoveredFor(w', k)
  {
    HoldsAppend(w.journal, e);
    HeldGrossUpdate(w.payments, i, p, Holds(w.journal), k);
    assert w'.journal[|w.journal|] == e && EntrySound(e);
    CoveredAt(w, w', e, k);
  }

  lemma AstrayIff(w: World, w': World, i: nat, p: Payment, e: Entry)
    requires Books(w) && Covered(w) && Books(w') && i < |w.payments|
    requires w'.payments == w.payments[i := p] && w'.journal == w.journal + [e]
    requires (e.Settlement? || e.Release?) && !p.Open() && p.Owner() == w.payments[i].Owner()
    requires e.owner != p.Owner()
    ensures Covered(w') <==> SpareFor(w, i)
  {
    var k := p.Owner();
    CoverElsewhere(w, w', i, p, e, k);
    HoldsStayNonNegative(w.journal, e);
    assert CoveredFor(w, k);
    assert CoveredFor(w', k) <==> SpareFor(w, i);
    forall x: Key | x != k ensures CoveredFor(w', x) {
      OthersStayCovered(w, w', i, p, e, x);
    }
  }

  /** Closing a row keeps the cover if and only if the release goes to the row's owner, or the owner's
      cover can spare what the row was held for. */
  lemma CloseKeepsCoverIff(w: World, x: Write)
    requires Books(w) && Covered(w) && x.WClose? && Allowed(w, x)
    requires x.marked && w.payments[x.i].fees.gross > 0
    ensures Covered(Do(w, x)) <==> x.owner == w.payments[x.i].Owner() || SpareFor(w, x.i)
  {
    var p := w.payments[x.i];
    WriteKeepsBooks(w, x);
    if x.owner == p.Owner() {
      CloseKeepsCover(w, x);
    } else {
      var q := WithStatus(p, x.status, x.message);
      AstrayIff(w, Do(w, x), x.i, q, Release(x.owner, p.fees.gross, x.done));
    }
  }

  /** So does settling a row for the gross it records. */
  lemma SettleKeepsCoverIff(w: World, x: Write)
    requires Books(w) && Covered(w) && x.WSettle? && Allowed(w, x)
    requires x.fees.gross == w.payments[x.i].fees.gross
    ensures Covered(Do(w, x)) <==> x.owner == w.payments[x.i].Owner() || SpareFor(w, x.i)
  {
    var p := w.payments[x.i];
    WriteKeepsBooks(w, x);
    if x.owner == p.Owner() {
      SettleKeepsCover(w, x);
    } else {
      var e := Settlement(p.id, p.Owner(), p.fees.net, x.owner, x.fees, x.credited);
      AstrayIff(w, Do(w, x), x.i, Settled(p, x.fees), e);
    }
  }

  /** A release whose status write was lost leaves the row held for. */
  lemma UnmarkedKeepsCover(w: World, x: Write)
    requires Books(w) && Covered(w) && x.WClose? && Allowed(w, x)
    requires !x.marked && w.payments[x.i].fees.gross > 0
    ensures Covered(Do(w, x))
  {
    var w', e := Do(w, x), Release(x.owner, w.payments[x.i].fees.gross, x.done);
    WriteKeepsBooks(w, x);
    HoldsAppend(w.journal, e);
    HoldsStayNonNegative(w.journal, e);
    forall k: Key ensures CoveredFor(w', k) {
      CoveredAt(w, w', e, k);
    }
  }

  lemma CloseCovered(w: World, x: Write)
    requires Books(w) && Covered(w) && x.WClose? && Allowed(w, x) && DisciplinedWrite(w, x)
    ensures Covered(Do(w, x))
  {
    if w.payments[x.i].fees.gross <= 0 {
      CloseOfNothing(w, x);
    } else if x.marked {
      CloseKeepsCoverIff(w, x);
    } else {
      UnmarkedKeepsCover(w, x);
    }
  }

  // ── Every write, every run ──

  lemma WriteKeepsCover(w: World, x: Write)
    requires Books(w) && Covered(w) && Allowed(w, x) && DisciplinedWrite(w, x)
    ensures Covered(Do(w, x))
  {
    WriteKeepsBooks(w, x);
    match x
    case WCreate(p) => CreateKeepsCover(w, p);
    case WSettle(_, _, _, _) => SettleKeepsCoverIff(w, x);
    case WClose(_, _, _, _, _, _) => CloseCovered(w, x);
    case WRefund(_) => RefundKeepsCover(w, x);
    case WMove(s, ev) => EntryKeepsCover(w, Do(w, x), SubMoved(s, ev));
    case WHold(hold, owner, amount) => HoldKeepsCover(w, hold, owner, amount);
    case WDebit(owner, amount) => EntryKeepsCover(w, Do(w, x), Debited(owner, amount));
    case WNewSub(_) => SameLedger(w, Do(w, x));
    case WConfigure(_, _) => SameLedger(w, Do(w, x));
  }

  lemma SameLedger(w: World, w': World)
    requires Covered(w) && w'.payments == w.payments && w'.balances == w.balances && w'.journal == w.journal
    ensures Covered(w')
  {
    forall k: Key ensures CoveredFor(w', k) {
      assert CoveredFor(w, k);
    }
  }

  lemma {:induction false} WritesKeepCover(w: World, xs: seq<Write>)
    requires Books(w) && Covered(w) && AllowedAll(w, xs) && DisciplinedAll(w, xs)
    ensures Covered(DoAll(w, xs))
    decreases |xs|
  {
    if xs != [] {
      WriteKeepsCover(w, xs[0]);
      WriteKeepsBooks(w, xs[0]);
      WritesKeepCover(Do(w, xs[0]), xs[1..]);
    }
  }

  ghost predicate DisciplinedRun(w: World, steps: seq<Step>) {
    forall n :: 0 <= n < |steps| ==> Disciplined(Run(w, steps[..n]), steps[n])
  }

  /** In every run whose holds are timely, whose amounts agree, and whose owners agree or have cover to
      spare, pending is covered by the gross of the open rows held for and of the releases that
      failed. */
  lemma {:induction false} PendingIsCovered(steps: seq<Step>)
    requires DisciplinedRun(EMPTY, steps)
    ensures Covered(Run(EMPTY, steps))
  {
    EmptyBooks();
    if steps != [] {
      var n := |steps| - 1;
      var q := steps[..n];
      assert forall m :: 0 <= m < n ==> q[..m] == steps[..m];
      PendingIsCovered(q);
      RunKeepsBooks(EMPTY, q);
      assert Disciplined(Run(EMPTY, q), steps[n]);
      var xs := StepWrites(Run(EMPTY, q), steps[n]);
      WritesKeepCover(Run(EMPTY, q), xs);
    }
  }

  /** A fortiori by the gross of all rows still pending or in progress. */
  lemma PendingWithinOpenGross(steps: seq<Step>, k: Key)
    requires DisciplinedRun(EMPTY, steps)
    ensures
      var w := Run(EMPTY, steps);
      0 <= Get(w.balances, k).pending <= OpenGross(w.payments, k) + Total(LostHoldColumn, w.journal, k)
  {
    var w := Run(EMPTY, steps);
    EmptyBooks();
    RunKeepsBooks(EMPTY, steps);
    PendingIsCovered(steps);
    assert CoveredFor(w, k);
    HeldGrossBounds(w.payments, Holds(w.journal), k);
  }

  // ── The hold that comes late ──

  /** The first hold for the gross of a row keeps the cover if and only if the row is still open, or
      the cover had that much to spare. */
  lemma HoldKeepsCoverIff(w: World, i: nat)
    requires Books(w) && Covered(w) && i < |w.payments| && w.payments[i].id !in Holds(w.journal)
    ensures
      var p := w.payments[i];
      Covered(Hold(w, Some(p.id), p.Owner(), p.fees.gross)) <==>
        p.Open() || Get(w.balances, p.Owner()).pending + p.fees.gross <= Cover(w, p.Owner())
  {
    var p := w.payments[i];
    var k, e := p.Owner(), Added(Some(p.id), p.Owner(), p.fees.gross);
    var w' := Hold(w, Some(p.id), k, p.fees.gross);
    if p.Open() {
      assert HoldsRow(p, p.id, k, p.fees.gross);
      HoldKeepsCover(w, Some(p.id), k, p.fees.gross);
    } else {
      HoldsAppend(w.journal, e);
      assert PassesChecks(p.fees);
      HoldsStayNonNegative(w.journal, e);
      forall x: Key ensures Cover(w', x) == Cover(w, x) {
        HeldGrossGrows(w.payments, Holds(w.journal), i, x);
        TotalAppend(LostHoldColumn, w.journal, e, x);
      }
      forall x: Key | x != k ensures CoveredFor(w', x) {
        assert CoveredFor(w, x);
      }
      assert CoveredFor(w, k);
      assert CoveredFor(w', k) <==> Get(w.balances, k).pending + p.fees.gross <= Cover(w, k);
    }
  }

  // ── Two runs that leave pending uncovered ──

  const LATE_KEY: Key := Key(1, "MXN")

  const LATE_TENANT: TenantConfig := TenantConfig(PlatformFeeConfig(0, 0), FeeTypeAdded)

  function LateDraft(gross: int): Draft {
    Draft(7, 1, "tx", "key", gross, "MXN", Pending)
  }

  function LateDelivery(gross: int): Step {
    Delivery(Event(ChargeSucceeded, Some(Charge("tx", gross, None, "MXN", "", "")), None), ALL_ANSWERED, 8)
  }

  /** A charge is created and OpenPay settles it ... */
  function BeforeTheHold(gross: int): seq<Step> {
    [ConfigureTenant(1, LATE_TENANT), NewCharge(LateDraft(gross), true), LateDelivery(gross)]
  }

  /** ... and only then its hold is placed. */
  function LateHold(gross: int): seq<Step> {
    BeforeTheHold(gross) + [HoldFunds(Some(7), LATE_KEY, gross, true)]
  }

  function Charged(gross: int): World {
    World([NewPayment(LateDraft(gross))], map[], [], map[1 := LATE_TENANT], [])
  }

  lemma RunAppend(w: World, steps: seq<Step>, s: Step)
    ensures Run(w, steps + [s]) == Next(Run(w, steps), s)
  {
    assert (steps + [s])[..|steps|] == steps;
  }

  lemma RunOfThree(w: World, a: Step, b: Step, c: Step)
    ensures Run(w, [a, b, c]) == Next(Next(Next(w, a), b), c)
  {
    assert [] + [a] == [a] && [a] + [b] == [a, b] && [a, b] + [c] == [a, b, c];
    RunAppend(w, [], a);
    RunAppend(w, [a], b);
    RunAppend(w, [a, b], c);
  }

  lemma ChargeIsMade(gross: int)
    requires gross > 0
    ensures Next(Next(EMPTY, ConfigureTenant(1, LATE_TENANT)), NewCharge(LateDraft(gross), true)) == Charged(gross)
  {
    var w := Next(EMPTY, ConfigureTenant(1, LATE_TENANT));
    assert w == World([], map[], [], map[1 := LATE_TENANT], []);
    assert CanCreate(w.payments, NewPayment(LateDraft(gross)));
    assert [] + [NewPayment(LateDraft(gross))] == [NewPayment(LateDraft(gross))];
  }

  /** The row is completed, its net credited, and nothing is pending. */
  ghost predicate SettledForGood(w: World, gross: int) {
    && |w.payments| == 1 && w.payments[0].id == 7 && w.payments[0].status.Completed?
    && w.payments[0].fees.gross == gross && w.payments[0].Owner() == LATE_KEY
    && |w.journal| == 1 && w.journal[0].Settlement? && w.journal[0].credited
    && Get(w.balances, LATE_KEY) == Bal(gross, 0)
  }

  lemma ChargeIsSettled(gross: int)
    requires gross > 0
    ensures SettledForGood(Next(Charged(gross), LateDelivery(gross)), gross)
  {
    assert IndexOfTx(Charged(gross).payments, "tx") == Some(0);
  }

  lemma SettledBeforeTheHold(gross: int)
    requires gross > 0
    ensures SettledForGood(Run(EMPTY, BeforeTheHold(gross)), gross)
  {
    RunOfThree(EMPTY, ConfigureTenant(1, LATE_TENANT), NewCharge(LateDraft(gross), true), LateDelivery(gross));
    ChargeIsMade(gross);
    ChargeIsSettled(gross);
  }

  /** The input that breaks the cover: held once, for its gross, but after the settlement. */
  lemma LateHoldUncovers(gross: int)
    requires gross > 0
    ensures !Covered(Run(EMPTY, LateHold(gross)))
  {
    var steps := BeforeTheHold(gross);
    var w := Run(EMPTY, steps);
    SettledBeforeTheHold(gross);
    RunAppend(EMPTY, steps, HoldFunds(Some(7), LATE_KEY, gross, true));
    EmptyBooks();
    RunKeepsBooks(EMPTY, steps);
    var w' := Run(EMPTY, LateHold(gross));
    var held := Holds(w'.journal);
    assert w'.payments[..0] == [] && w.journal[..0] == [];
    assert HeldGross(w'.payments, held, LATE_KEY) == 0;
    TotalAppend(LostHoldColumn, w.journal, Added(Some(7), LATE_KEY, gross), LATE_KEY);
    assert Total(LostHoldColumn, w.journal, LATE_KEY) == 0;
    assert !CoveredFor(w', LATE_KEY);
  }

  const STRAY_SUB: Subs.Subscription := Subs.Subscription(3, 2, "sub", Subs.Active, 0, None, false)

  function StrayFailure(gross: int): Step {
    Delivery(Event(SubscriptionChargeFailed, Some(Charge("tx", gross, None, "MXN", "sub", "")), None), ALL_ANSWERED, 8)
  }

  /** A payment of tenant 1 is created and held for in time; a failed charge of tenant 2's subscription
      names its transaction. */
  function StrayRelease(gross: int): seq<Step> {
    [ NewSubscription(STRAY_SUB, true), NewCharge(LateDraft(gross), true),
      HoldFunds(Some(7), LATE_KEY, gross, true), StrayFailure(gross) ]
  }

  function HeldInTime(gross: int): World {
    World([NewPayment(LateDraft(gross))], map[LATE_KEY := Bal(0, gross)], [STRAY_SUB], map[],
          [Added(Some(7), LATE_KEY, gross)])
  }

  lemma HoldIsMade(gross: int)
    requires gross > 0
    ensures
      var w := Next(Next(EMPTY, NewSubscription(STRAY_SUB, true)), NewCharge(LateDraft(gross), true));
      Next(w, HoldFunds(Some(7), LATE_KEY, gross, true)) == HeldInTime(gross)
  {
    var w1 := Next(EMPTY, NewSubscription(STRAY_SUB, true));
    assert w1 == World([], map[], [STRAY_SUB], map[], []);
    assert CanCreate(w1.payments, NewPayment(LateDraft(gross)));
    var w2 := Next(w1, NewCharge(LateDraft(gross), true));
    assert w2 == World([NewPayment(LateDraft(gross))], map[], [STRAY_SUB], map[], []);
  }

  lemma FailureStrays(gross: int)
    requires gross > 0
    ensures
      var w := Next(HeldInTime(gross), StrayFailure(gross));
      && |w.payments| == 1 && w.payments[0].status.Failed?
      && Get(w.balances, LATE_KEY) == Bal(0, gross)
      && |w.journal| == 3 && w.journal[0].Added? && w.journal[1].SubMoved?
      && w.journal[2] == Release(Key(2, "MXN"), gross, true)
  {
    var w := HeldInTime(gross);
    assert IndexOfTx(w.payments, "tx") == Some(0);
    assert Subs.IndexOfSub(w.subs, "sub") == Some(0);
  }

  /** The other input that breaks the cover: held in time and once, but released on another tenant. */
  lemma StrayReleaseUncovers(gross: int)
    requires gross > 0
    ensures !Covered(Run(EMPTY, StrayRelease(gross)))
  {
    var s := StrayRelease(gross);
    assert [s[0], s[1], s[2]] + [s[3]] == s;
    RunOfThree(EMPTY, s[0], s[1], s[2]);
    RunAppend(EMPTY, [s[0], s[1], s[2]], s[3]);
    HoldIsMade(gross);
    FailureStrays(gross);
    NothingCovers(Run(EMPTY, s), gross);
  }

  lemma NothingCovers(w: World, gross: int)
    requires gross > 0 && |w.payments| == 1 && !w.payments[0].Open() && Get(w.balances, LATE_KEY) == Bal(0, gross)
    requires |w.journal| == 3 && w.journal[0].Added? && w.journal[1].SubMoved?
    requires w.journal[2] == Release(Key(2, "MXN"), gross, true)
    ensures !Covered(w)
  {
    var j := w.journal;
    assert w.payments[..0] == [] && j == [] + [j[0]] + [j[1]] + [j[2]];
    TotalAppend(LostHoldColumn, [], j[0], LATE_KEY);
    TotalAppend(LostHoldColumn, [] + [j[0]], j[1], LATE_KEY);
    TotalAppend(LostHoldColumn, [] + [j[0]] + [j[1]], j[2], LATE_KEY);
    assert HeldGross(w.payments, Holds(j), LATE_KEY) == 0;
    assert !CoveredFor(w, LATE_KEY);
  }
}
