/** What holds after every run of the service, whatever OpenPay sends, whichever calls fail
    and however the other writers interleave. */
module LedgerRuns {
  import opened Wrappers
  import opened Balances
  import opened Fees
  import opened Payments
  import Subs = Subscriptions
  import opened Journal
  import opened Ledger
  import opened LedgerWrites

  // ── The books ──

  /** The tables are what the journal says they are. */
  ghost predicate Books(w: World) {
    && RowsValid(w.payments)
    && Subs.SubIdsUnique(w.subs)
    && Sound(w.journal)
    && OldNetExplained(w.journal)
    && (forall k: Key :: Get(w.balances, k) == BalAfter(w.journal, k))
    && (forall k: Key :: NetOfRows(w.payments, k) == Total(RowNetColumn, w.journal, k))
    && (forall i :: 0 <= i < |w.payments| && w.payments[i].fees.net != 0 ==> SettledIn(w.journal, w.payments[i].id))
  }

  lemma SettledInAppend(j: seq<Entry>, e: Entry, payment: Id)
    ensures SettledIn(j + [e], payment) <==> SettledIn(j, payment) || Settles(e, payment)
  {
    var all := j + [e];
    if SettledIn(j, payment) {
      var i :| 0 <= i < |j| && Settles(j[i], payment);
      assert Settles(all[i], payment);
    }
    if Settles(e, payment) {
      assert Settles(all[|j|], payment);
    }
    if SettledIn(all, payment) {
      var i :| 0 <= i < |all| && Settles(all[i], payment);
      assert i < |j| ==> Settles(j[i], payment);
    }
  }

  lemma OldNetExplainedAppend(j: seq<Entry>, e: Entry)
    requires OldNetExplained(j)
    requires e.Settlement? && e.oldNet != 0 ==> SettledIn(j, e.payment)
    ensures OldNetExplained(j + [e])
  {
    var all := j + [e];
    forall b | 0 <= b < |all| && all[b].Settlement? && all[b].oldNet != 0
      ensures SettledIn(all[..b], all[b].payment)
    {
      if b < |j| {
        assert all[..b] == j[..b];
      } else {
        assert all[..b] == j;
      }
    }
  }

  /** An entry and the change of the balance table that goes with it. */
  ghost predicate Posted(t: BalanceTable, t': BalanceTable, e: Entry) {
    forall k: Key :: Get(t', k) == Post(Get(t, k), e, k)
  }

  lemma BooksPosted(w: World, w': World, e: Entry)
    requires Books(w)
    requires w'.journal == w.journal + [e] && EntrySound(e) && Posted(w.balances, w'.balances, e)
    requires e.Settlement? && e.oldNet != 0 ==> SettledIn(w.journal, e.payment)
    ensures Sound(w'.journal) && OldNetExplained(w'.journal)
    ensures forall k: Key :: Get(w'.balances, k) == BalAfter(w'.journal, k)
    ensures forall k: Key :: Total(RowNetColumn, w'.journal, k) == NetOfRows(w.payments, k) + Amount(RowNetColumn, e, k)
    ensures forall id :: SettledIn(w'.journal, id) <==> SettledIn(w.journal, id) || Settles(e, id)
  {
    OldNetExplainedAppend(w.journal, e);
    forall k: Key
      ensures Get(w'.balances, k) == BalAfter(w'.journal, k)
      ensures Total(RowNetColumn, w'.journal, k) == NetOfRows(w.payments, k) + Amount(RowNetColumn, e, k)
    {
      BalAfterAppend(w.journal, e, k);
      TotalAppend(RowNetColumn, w.journal, e, k);
    }
    forall id ensures SettledIn(w'.journal, id) <==> SettledIn(w.journal, id) || Settles(e, id) {
      SettledInAppend(w.journal, e, id);
    }
  }

  lemma SettlementPosted(w: World, x: Write)
    requires Books(w) && x.WSettle? && Allowed(w, x)
    ensures
      var p := w.payments[x.i];
      Posted(w.balances, Do(w, x).balances,
             Settlement(p.id, p.Owner(), p.fees.net, x.owner, x.fees, x.credited))
  {
  }

  lemma SettleKeepsRows(w: World, x: Write)
    requires Books(w) && x.WSettle? && Allowed(w, x)
    ensures RowsValid(Do(w, x).payments)
    ensures forall k: Key ::
      NetOfRows(Do(w, x).payments, k) ==
        NetOfRows(w.payments, k) - NetOf(w.payments[x.i], k) + NetOf(Settled(w.payments[x.i], x.fees), k)
  {
    UpdateKeepsValid(w.payments, x.i, Settled(w.payments[x.i], x.fees));
    forall k: Key
      ensures NetOfRows(Do(w, x).payments, k) ==
        NetOfRows(w.payments, k) - NetOf(w.payments[x.i], k) + NetOf(Settled(w.payments[x.i], x.fees), k)
    {
      NetOfRowsUpdate(w.payments, x.i, Settled(w.payments[x.i], x.fees), k);
    }
  }

  lemma SettleKeepsBooks(w: World, x: Write)
    requires Books(w) && x.WSettle? && Allowed(w, x)
    ensures Books(Do(w, x))
  {
    var p := w.payments[x.i];
    SettleKeepsRows(w, x);
    SettlementPosted(w, x);
    BooksPosted(w, Do(w, x), Settlement(p.id, p.Owner(), p.fees.net, x.owner, x.fees, x.credited));
  }

  /** An entry that settles nothing, beside a change of rows that leaves their nets alone. */
  lemma BooksAfterMove(w: World, w': World, e: Entry)
    requires Books(w) && !e.Settlement?
    requires w'.journal == w.journal + [e] && EntrySound(e) && Posted(w.balances, w'.balances, e)
    requires forall k: Key :: NetOfRows(w'.payments, k) == NetOfRows(w.payments, k)
    ensures forall k: Key :: Total(RowNetColumn, w'.journal, k) == NetOfRows(w'.payments, k)
    ensures Sound(w'.journal) && OldNetExplained(w'.journal)
    ensures forall k: Key :: Get(w'.balances, k) == BalAfter(w'.journal, k)
    ensures forall id :: SettledIn(w'.journal, id) <==> SettledIn(w.journal, id)
  {
    BooksPosted(w, w', e);
  }

  lemma CloseKeepsRows(w: World, x: Write)
    requires Books(w) && x.WClose? && Allowed(w, x)
    ensures RowsValid(Do(w, x).payments)
    ensures forall k: Key :: NetOfRows(Do(w, x).payments, k) == NetOfRows(w.payments, k)
    ensures forall i :: 0 <= i < |w.payments| ==>
      Do(w, x).payments[i].fees == w.payments[i].fees && Do(w, x).payments[i].id == w.payments[i].id
  {
    var p := WithStatus(w.payments[x.i], x.status, x.message);
    assert PassesChecks(w.payments[x.i].fees);
    UpdateKeepsValid(w.payments, x.i, p);
    forall k: Key ensures NetOfRows(Do(w, x).payments, k) == NetOfRows(w.payments, k) {
      NetOfRowsUpdate(w.payments, x.i, p, k);
    }
  }

  lemma CloseKeepsBooks(w: World, x: Write)
    requires Books(w) && x.WClose? && Allowed(w, x)
    ensures Books(Do(w, x))
  {
    var p := w.payments[x.i];
    CloseKeepsRows(w, x);
    if p.fees.gross > 0 {
      BooksAfterMove(w, Do(w, x), Release(x.owner, p.fees.gross, x.done));
    }
  }

  lemma CreateKeepsBooks(w: World, p: Payment)
    requires Books(w) && Allowed(w, WCreate(p))
    ensures Books(CreateRow(w, p))
  {
    forall k: Key ensures NetOfRows(w.payments + [p], k) == NetOfRows(w.payments, k) {
      SumsAppend(w.payments, p, k);
    }
  }

  lemma HoldKeepsBooks(w: World, hold: Option<Id>, owner: Key, amount: int)
    requires Books(w)
    ensures Books(Hold(w, hold, owner, amount))
  {
    BooksPosted(w, Hold(w, hold, owner, amount), Added(hold, owner, amount));
  }

  lemma WriteKeepsBooks(w: World, x: Write)
    requires Books(w) && Allowed(w, x)
    ensures Books(Do(w, x))
  {
    var w' := Do(w, x);
    match x
    case WCreate(p) => CreateKeepsBooks(w, p);
    case WSettle(_, _, _, _) => SettleKeepsBooks(w, x);
    case WClose(_, _, _, _, _, _) => CloseKeepsBooks(w, x);
    case WRefund(i) =>
      forall k: Key ensures NetOfRows(w'.payments, k) == NetOfRows(w.payments, k) {
        NetOfRowsUpdate(w.payments, i, WithStatus(w.payments[i], Refunded, ""), k);
      }
    case WMove(s, ev) => BooksPosted(w, w', SubMoved(s, ev));
    case WHold(hold, owner, amount) => HoldKeepsBooks(w, hold, owner, amount);
    case WDebit(owner, amount) => BooksPosted(w, w', Debited(owner, amount));
    case WNewSub(_) =>
    case WConfigure(_, _) =>
  }

  lemma {:induction false} WritesKeepBooks(w: World, xs: seq<Write>)
    requires Books(w) && AllowedAll(w, xs)
    ensures Books(DoAll(w, xs))
    decreases |xs|
  {
    if xs != [] {
      WriteKeepsBooks(w, xs[0]);
      WritesKeepBooks(Do(w, xs[0]), xs[1..]);
    }
  }

  /** Every run keeps the books. */
  lemma {:induction false} RunKeepsBooks(w: World, steps: seq<Step>)
    requires Books(w)
    ensures Books(Run(w, steps))
  {
    if steps != [] {
      var q := steps[..|steps| - 1];
      RunKeepsBooks(w, q);
      var xs := StepWrites(Run(w, q), steps[|steps| - 1]);
      WritesKeepBooks(Run(w, q), xs);
    }
  }

  lemma EmptyBooks()
    ensures Books(EMPTY)
  {
  }

  // ── Whole-run theorems ──

  /** With no hypothesis at all: available plus the debits is the net shown by the payment rows,
      off by exactly three things that went wrong on the way. */
  lemma AvailableAgainstRows(steps: seq<Step>, k: Key)
    ensures
      var w := Run(EMPTY, steps);
      Get(w.balances, k).available + Total(DebitColumn, w.journal, k)
      == NetOfRows(w.payments, k) + Total(ResettledColumn, w.journal, k)
       - Total(LostNetColumn, w.journal, k) + Total(MisdirectedColumn, w.journal, k)
  {
    var w := Run(EMPTY, steps);
    EmptyBooks();
    RunKeepsBooks(EMPTY, steps);
    assert Get(w.balances, k) == BalAfter(w.journal, k);
    assert NetOfRows(w.payments, k) == Total(RowNetColumn, w.journal, k);
    AvailableIsNetMinusDebits(w.journal, k);
    DriftByCause(w.journal, k);
  }

  /** available is the net of the successful credit steps minus the debits, in every run. */
  lemma AvailableIsCreditedNet(steps: seq<Step>, k: Key)
    ensures
      var w := Run(EMPTY, steps);
      Get(w.balances, k).available == Total(NetColumn, w.journal, k) - Total(DebitColumn, w.journal, k)
  {
    var w := Run(EMPTY, steps);
    EmptyBooks();
    RunKeepsBooks(EMPTY, steps);
    assert Get(w.balances, k) == BalAfter(w.journal, k);
    AvailableIsNetMinusDebits(w.journal, k);
  }

  /** Conservation over every run, both fee types and every failure mixed in. */
  lemma RunConserves(steps: seq<Step>, k: Key)
    ensures
      var w := Run(EMPTY, steps);
      var j := w.journal;
      Total(AddedColumn, j, k) + Clamped(j, k)
      == Get(w.balances, k).pending + Get(w.balances, k).available + Total(DebitColumn, j, k)
       + Total(OpenpayColumn, j, k) + Total(PlatformColumn, j, k) + Total(ReleasedColumn, j, k)
  {
    EmptyBooks();
    RunKeepsBooks(EMPTY, steps);
    var w := Run(EMPTY, steps);
    assert Get(w.balances, k) == BalAfter(w.journal, k);
    Conservation(w.journal, k);
  }

  /** pending in closed form over every run whose holds are not negative. */
  lemma PendingClosedForm(steps: seq<Step>, k: Key)
    requires HoldsNonNegative(Run(EMPTY, steps).journal)
    ensures
      var w := Run(EMPTY, steps);
      var j := w.journal;
      && (forall i :: 0 <= i <= |j| ==> Asked(j, i, |j|, k) <= Get(w.balances, k).pending)
      && (exists i :: 0 <= i <= |j| && Asked(j, i, |j|, k) == Get(w.balances, k).pending)
      && (forall i :: 0 <= i <= |j| ==> -Asked(j, 0, i, k) <= Clamped(j, k))
      && (exists i :: 0 <= i <= |j| && -Asked(j, 0, i, k) == Clamped(j, k))
  {
    EmptyBooks();
    RunKeepsBooks(EMPTY, steps);
    var w := Run(EMPTY, steps);
    assert Get(w.balances, k) == BalAfter(w.journal, k);
    PendingIsMaxSuffix(w.journal, k);
    ClampedIsMaxDeficit(w.journal, k);
  }

  // ── How rows and subscriptions evolve ──

  /** Rows are never deleted, never change identity or owner, and never reopen; subscriptions
      replay exactly the events acknowledged for them. */
  ghost predicate Evolved(w: World, w': World) {
    && |w.payments| <= |w'.payments|
    && (forall i :: 0 <= i < |w.payments| ==>
         && w'.payments[i].id == w.payments[i].id
         && w'.payments[i].tx == w.payments[i].tx
         && w'.payments[i].Owner() == w.payments[i].Owner()
         && (w'.payments[i].Open() ==> w.payments[i].Open()))
    && |w.subs| <= |w'.subs|
    && w.journal <= w'.journal
    && (forall s :: 0 <= s < |w.subs| ==>
         w'.subs[s] == Subs.Replay(w.subs[s], SubEvents(w'.journal[|w.journal|..], s)))
    && (forall n :: |w.journal| <= n < |w'.journal| && w'.journal[n].SubMoved? ==> Subs.FromIngress([w'.journal[n].ev]))
  }

  lemma {:induction false} SubEventsConcat(a: seq<Entry>, b: seq<Entry>, s: nat)
    ensures SubEvents(a + b, s) == SubEvents(a, s) + SubEvents(b, s)
  {
    if b == [] {
      assert a + b == a;
    } else {
      var q := b[..|b| - 1];
      assert (a + b)[..|a + b| - 1] == a + q;
      SubEventsConcat(a, q, s);
    }
  }

  lemma {:induction false} ReplayConcat(sub: Subs.Subscription, a: seq<Subs.SubEvent>, b: seq<Subs.SubEvent>)
    ensures Subs.Replay(sub, a + b) == Subs.Replay(Subs.Replay(sub, a), b)
  {
    if b == [] {
      assert a + b == a;
    } else {
      var q := b[..|b| - 1];
      assert (a + b)[..|a + b| - 1] == a + q;
      ReplayConcat(sub, a, q);
    }
  }

  lemma EvolvedTransitive(w: World, v: World, u: World)
    requires Evolved(w, v) && Evolved(v, u)
    ensures Evolved(w, u)
  {
    var a, b := v.journal[|w.journal|..], u.journal[|v.journal|..];
    assert u.journal[|w.journal|..] == a + b;
    assert forall n :: 0 <= n < |v.journal| ==> u.journal[n] == v.journal[n];
    forall s | 0 <= s < |w.subs|
      ensures u.subs[s] == Subs.Replay(w.subs[s], SubEvents(u.journal[|w.journal|..], s))
    {
      SubEventsConcat(a, b, s);
      ReplayConcat(w.subs[s], SubEvents(a, s), SubEvents(b, s));
    }
  }

  lemma OneEntryEvents(e: Entry, s: nat)
    ensures SubEvents([e], s) == if e.SubMoved? && e.sub == s then [e.ev] else []
  {
    assert [e][..0] == [];
  }

  lemma WriteMovesRows(w: World, x: Write, i: nat)
    requires Allowed(w, x) && i < |w.payments|
    ensures
      var w' := Do(w, x);
      && |w.payments| <= |w'.payments|
      && w'.payments[i].id == w.payments[i].id
      && w'.payments[i].tx == w.payments[i].tx
      && w'.payments[i].Owner() == w.payments[i].Owner()
      && (w'.payments[i].Open() ==> w.payments[i].Open())
  {
  }

  /** A write appends at most one entry, and a subscription moves exactly with its entry. */
  lemma WriteAppends(w: World, x: Write)
    requires Allowed(w, x)
    ensures
      var j, j' := w.journal, Do(w, x).journal;
      || (j' == j && !x.WMove?)
      || (|j'| == |j| + 1 && j' == j + [j'[|j|]]
          && (if x.WMove? then j'[|j|] == SubMoved(x.s, x.ev) else !j'[|j|].SubMoved?))
  {
  }

  lemma WriteMovesSub(w: World, x: Write, s: nat)
    requires Allowed(w, x) && s < |w.subs|
    ensures |w.subs| <= |Do(w, x).subs|
    ensures Do(w, x).subs[s] == if x.WMove? && x.s == s then Subs.Apply(w.subs[s], x.ev) else w.subs[s]
  {
  }

  lemma ReplayTail(sub: Subs.Subscription, tail: seq<Entry>, s: nat)
    requires |tail| <= 1
    ensures Subs.Replay(sub, SubEvents(tail, s)) ==
      if tail != [] && tail[0].SubMoved? && tail[0].sub == s then Subs.Apply(sub, tail[0].ev) else sub
  {
    if tail != [] {
      assert tail == [tail[0]];
      OneEntryEvents(tail[0], s);
      if tail[0].SubMoved? {
        Subs.ReplayAppend(sub, [], tail[0].ev);
        assert [] + [tail[0].ev] == [tail[0].ev];
      }
    }
  }

  lemma WriteEvolves(w: World, x: Write)
    requires Allowed(w, x)
    ensures Evolved(w, Do(w, x))
  {
    var w' := Do(w, x);
    WriteAppends(w, x);
    forall i | 0 <= i < |w.payments|
      ensures |w.payments| <= |w'.payments|
      ensures w'.payments[i].id == w.payments[i].id && w'.payments[i].tx == w.payments[i].tx
      ensures w'.payments[i].Owner() == w.payments[i].Owner() && (w'.payments[i].Open() ==> w.payments[i].Open())
    {
      WriteMovesRows(w, x, i);
    }
    assert |w.subs| <= |w'.subs|;
    forall s | 0 <= s < |w.subs|
      ensures w'.subs[s] == Subs.Replay(w.subs[s], SubEvents(w'.journal[|w.journal|..], s))
    {
      WriteMovesSub(w, x, s);
      ReplayTail(w.subs[s], w'.journal[|w.journal|..], s);
    }
  }

  lemma {:induction false} WritesEvolve(w: World, xs: seq<Write>)
    requires AllowedAll(w, xs)
    ensures Evolved(w, DoAll(w, xs))
    decreases |xs|
  {
    if xs == [] {
      EvolvedReflexive(w);
    } else {
      WriteEvolves(w, xs[0]);
      WritesEvolve(Do(w, xs[0]), xs[1..]);
      EvolvedTransitive(w, Do(w, xs[0]), DoAll(w, xs));
    }
  }

  lemma EvolvedReflexive(w: World)
    ensures Evolved(w, w)
  {
    assert w.journal[|w.journal|..] == [];
  }

  /** From any state, every run only moves rows forward and replays subscription events. */
  lemma {:induction false} RunEvolves(w: World, steps: seq<Step>)
    ensures Evolved(w, Run(w, steps))
  {
    if steps == [] {
      EvolvedReflexive(w);
    } else {
      var q := steps[..|steps| - 1];
      RunEvolves(w, q);
      var xs := StepWrites(Run(w, q), steps[|steps| - 1]);
      WritesEvolve(Run(w, q), xs);
      EvolvedTransitive(w, Run(w, q), Run(w, steps));
    }
  }

  lemma {:induction false} EventsFromIngress(j: seq<Entry>, s: nat)
    requires forall n :: 0 <= n < |j| && j[n].SubMoved? ==> Subs.FromIngress([j[n].ev])
    ensures Subs.FromIngress(SubEvents(j, s))
  {
    if j != [] {
      EventsFromIngress(j[..|j| - 1], s);
      var e := j[|j| - 1];
      if e.SubMoved? {
        assert [e.ev][0] == e.ev;
      }
    }
  }

  /** In every run after a subscription starts in trial or active, its row is the closed form of
      the events acknowledged for it: the counter counts the failures since the last success; the
      status is fixed by the last failed or status-setting event, or else by the start, and by a
      success after it; last_charge_id is the last charge; past_due means the counter is positive,
      and positive means past_due, cancelled or unpaid. */
  lemma SubscriptionRowsInClosedForm(w: World, steps: seq<Step>, s: nat)
    requires s < |w.subs|
    requires w.subs[s].status.Trial? || w.subs[s].status.Active?
    requires w.subs[s].failedChargeCount == 0
    ensures
      var w' := Run(w, steps);
      s < |w'.subs| && |w.journal| <= |w'.journal|
    ensures
      var sub := Run(w, steps).subs[s];
      var evs := SubEvents(Run(w, steps).journal[|w.journal|..], s);
      && sub.failedChargeCount == |Subs.OpenFailures(evs)|
      && (forall l :: Subs.IsLastFix(evs, l) ==>
           sub.status == Subs.Settle(Subs.FixedStatus(evs[l]), Subs.ChargedFrom(evs, l)))
      && (Subs.NoFix(evs) ==> sub.status == Subs.Settle(w.subs[s].status, Subs.ChargedFrom(evs, 0)))
      && (forall l :: Subs.IsLastCharge(evs, l) ==> sub.lastCharge == Some(evs[l].payment))
      && (!Subs.ChargedFrom(evs, 0) ==> sub.lastCharge == w.subs[s].lastCharge)
      && (sub.status.PastDue? ==> sub.failedChargeCount > 0)
      && (sub.failedChargeCount > 0 ==> sub.status.PastDue? || sub.status.Cancelled? || sub.status.Unpaid?)
  {
    RunEvolves(w, steps);
    var tail := Run(w, steps).journal[|w.journal|..];
    var evs := SubEvents(tail, s);
    EventsFromIngress(tail, s);
    Subs.CounterClosedForm(w.subs[s], evs);
    Subs.PastDueMeansFailures(w.subs[s], evs);
    Subs.LastChargeClosedForm(w.subs[s], evs);
    forall l | Subs.IsLastFix(evs, l)
      ensures Subs.Replay(w.subs[s], evs).status == Subs.Settle(Subs.FixedStatus(evs[l]), Subs.ChargedFrom(evs, l))
    {
      Subs.StatusClosedForm(w.subs[s], evs, l);
    }
    if Subs.NoFix(evs) {
      Subs.StatusWithoutFix(w.subs[s], evs);
    }
  }
}
