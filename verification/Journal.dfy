/** The history of acknowledged money movements, and what it says about a balance.
    The journal is not in the program: it is the history variable the run theorems speak of. */
module Journal {
  import opened Wrappers
  import opened Balances
  import opened Fees
  import opened Subscriptions

  datatype Entry =
      /** AddPending(owner, amount) succeeded, for the payment its caller had in mind, if any. */
    | Added(hold: Option<Id>, owner: Key, amount: int)
      /** SettlePayment succeeded on a row of `row`; CreditSettlement was then tried on `owner`.
          When it was not credited, only the CRITICAL log line remains. */
    | Settlement(payment: Id, row: Key, oldNet: int, owner: Key, fees: PaymentFees, credited: bool)
      /** CreditSettlement(owner, gross, 0) tried to release the hold of a failed charge. */
    | Release(owner: Key, gross: int, done: bool)
      /** DebitAvailable(owner, amount) succeeded. */
    | Debited(owner: Key, amount: int)
      /** A write to the subscription at this position of the table succeeded. */
    | SubMoved(sub: nat, ev: SubEvent)

  // ── One balance, entry by entry ──

  function Post(b: Bal, e: Entry, k: Key): Bal {
    match e
    case Added(_, owner, amount) =>
      if owner == k then Bal(b.available, b.pending + amount) else b
    case Settlement(_, _, _, owner, fees, credited) =>
      if credited && owner == k then Bal(b.available + fees.net, Max0(b.pending - fees.gross)) else b
    case Release(owner, gross, done) =>
      if done && owner == k then Bal(b.available, Max0(b.pending - gross)) else b
    case Debited(owner, amount) =>
      if owner == k then Bal(b.available - amount, b.pending) else b
    case SubMoved(_, _) => b
  }

  function BalAfter(j: seq<Entry>, k: Key): Bal {
    if j == [] then Bal(0, 0) else Post(BalAfter(j[..|j| - 1], k), j[|j| - 1], k)
  }

  /** What an entry puts on one side of the books of k. */
  datatype Column =
    | AddedColumn | DebitColumn | NetColumn | OpenpayColumn | PlatformColumn | ReleasedColumn
    | LostHoldColumn | RowNetColumn | ResettledColumn | LostNetColumn | MisdirectedColumn

  function Amount(c: Column, e: Entry, k: Key): int {
    match e
    case Added(_, owner, amount) => if c.AddedColumn? && owner == k then amount else 0
    case Debited(owner, amount) => if c.DebitColumn? && owner == k then amount else 0
    case Release(owner, gross, done) =>
      if owner != k then 0
      else if c.ReleasedColumn? && done then gross
      else if c.LostHoldColumn? && !done then gross
      else 0
    case Settlement(_, row, oldNet, owner, fees, credited) =>
      (match c
       case NetColumn => if credited && owner == k then fees.net else 0
       case OpenpayColumn => if credited && owner == k then fees.openpayFee else 0
       case PlatformColumn => if credited && owner == k then fees.platformFee else 0
       case LostHoldColumn => if !credited && owner == k then fees.gross else 0
       case RowNetColumn => if row == k then fees.net - oldNet else 0
       case ResettledColumn => if row == k then oldNet else 0
       case LostNetColumn => if !credited && row == k then fees.net else 0
       case MisdirectedColumn =>
         if !credited || row == owner then 0
         else if owner == k then fees.net
         else if row == k then -fees.net
         else 0
       case AddedColumn => 0
       case DebitColumn => 0
       case ReleasedColumn => 0)
    case SubMoved(_, _) => 0
  }

  function Total(c: Column, j: seq<Entry>, k: Key): int {
    if j == [] then 0 else Total(c, j[..|j| - 1], k) + Amount(c, j[|j| - 1], k)
  }

  lemma BalAfterAppend(j: seq<Entry>, e: Entry, k: Key)
    ensures BalAfter(j + [e], k) == Post(BalAfter(j, k), e, k)
  {
    assert (j + [e])[..|j|] == j;
  }

  lemma TotalAppend(c: Column, j: seq<Entry>, e: Entry, k: Key)
    ensures Total(c, j + [e], k) == Total(c, j, k) + Amount(c, e, k)
  {
    assert (j + [e])[..|j|] == j;
  }

  // ── What the program guarantees of every entry ──

  /** Settlements passed the CHECKs and split their gross; released holds are positive. */
  predicate EntrySound(e: Entry) {
    match e
    case Settlement(_, _, _, _, fees, _) =>
      PassesChecks(fees) && fees.openpayFee + fees.platformFee + fees.net == fees.gross
    case Release(_, gross, _) => gross > 0
    case _ => true
  }

  ghost predicate Sound(j: seq<Entry>) {
    forall i :: 0 <= i < |j| ==> EntrySound(j[i])
  }

  /** The one demand on the callers of AddPending. */
  ghost predicate HoldsNonNegative(j: seq<Entry>) {
    forall i :: 0 <= i < |j| && j[i].Added? ==> j[i].amount >= 0
  }

  lemma PrefixSound(j: seq<Entry>)
    requires j != []
    ensures Sound(j) ==> Sound(j[..|j| - 1]) && EntrySound(j[|j| - 1])
    ensures HoldsNonNegative(j) ==> HoldsNonNegative(j[..|j| - 1])
  {
    var q := j[..|j| - 1];
    assert forall i :: 0 <= i < |q| ==> q[i] == j[i];
  }

  // ── Conservation ──

  /** What GREATEST(0, pending - gross) swallows of a release: the part of gross beyond pending. */
  function Swallowed(pending: int, e: Entry, k: Key): int {
    match e
    case Settlement(_, _, _, owner, fees, credited) =>
      if credited && owner == k then Max0(fees.gross - pending) else 0
    case Release(owner, gross, done) => if done && owner == k then Max0(gross - pending) else 0
    case _ => 0
  }

  function Clamped(j: seq<Entry>, k: Key): int {
    if j == [] then 0
    else Clamped(j[..|j| - 1], k) + Swallowed(BalAfter(j[..|j| - 1], k).pending, j[|j| - 1], k)
  }

  /** The signed change an entry asks of pending. */
  function Move(e: Entry, k: Key): int {
    match e
    case Added(_, owner, amount) => if owner == k then amount else 0
    case Settlement(_, _, _, owner, fees, credited) => if credited && owner == k then -fees.gross else 0
    case Release(owner, gross, done) => if done && owner == k then -gross else 0
    case Debited(_, _) => 0
    case SubMoved(_, _) => 0
  }

  /** Every centavo added to pending, plus every centavo clamped away, is still pending, still
      available, paid out, kept as one of the two fees, or released with a failed charge. */
  lemma {:induction false} Conservation(j: seq<Entry>, k: Key)
    requires Sound(j)
    ensures Total(AddedColumn, j, k) + Clamped(j, k)
            == BalAfter(j, k).pending + BalAfter(j, k).available + Total(DebitColumn, j, k)
             + Total(OpenpayColumn, j, k) + Total(PlatformColumn, j, k) + Total(ReleasedColumn, j, k)
  {
    if j != [] {
      PrefixSound(j);
      Conservation(j[..|j| - 1], k);
    }
  }

  /** available is the net of the credited settlements minus the debits. */
  lemma {:induction false} AvailableIsNetMinusDebits(j: seq<Entry>, k: Key)
    ensures BalAfter(j, k).available == Total(NetColumn, j, k) - Total(DebitColumn, j, k)
  {
    if j != [] {
      AvailableIsNetMinusDebits(j[..|j| - 1], k);
    }
  }

  /** The gap between what was credited and what the rows show, by cause: a row settled again
      lost its first net, a credit was logged instead of written, a credit went to another owner. */
  lemma {:induction false} DriftByCause(j: seq<Entry>, k: Key)
    ensures Total(NetColumn, j, k) - Total(RowNetColumn, j, k)
            == Total(ResettledColumn, j, k) - Total(LostNetColumn, j, k) + Total(MisdirectedColumn, j, k)
  {
    if j != [] {
      DriftByCause(j[..|j| - 1], k);
    }
  }

  // ── The clamped counter in closed form ──

  /** The net change pending was asked for between two positions of the journal. */
  function Asked(j: seq<Entry>, from: nat, until: nat, k: Key): int
    requires from <= until <= |j|
    decreases until
  {
    if from == until then 0 else Asked(j, from, until - 1, k) + Move(j[until - 1], k)
  }

  lemma {:induction false} AskedOfPrefix(j: seq<Entry>, n: nat, from: nat, until: nat, k: Key)
    requires from <= until <= n <= |j|
    ensures Asked(j[..n], from, until, k) == Asked(j, from, until, k)
    decreases until
  {
    if from < until {
      AskedOfPrefix(j, n, from, until - 1, k);
    }
  }

  lemma {:induction false} AskedSplits(j: seq<Entry>, from: nat, until: nat, k: Key)
    requires from <= until <= |j|
    ensures Asked(j, 0, until, k) == Asked(j, 0, from, k) + Asked(j, from, until, k)
    decreases until
  {
    if from < until {
      AskedSplits(j, from, until - 1, k);
    }
  }

  lemma PostReflects(b: Bal, e: Entry, k: Key)
    requires EntrySound(e) && (e.Added? ==> e.amount >= 0) && b.pending >= 0
    ensures Post(b, e, k).pending == Max0(b.pending + Move(e, k))
  {
  }

  /** pending is what was asked of it plus what was swallowed, whatever the amounts. */
  lemma {:induction false} PendingIsAskedPlusClamped(j: seq<Entry>, k: Key)
    ensures BalAfter(j, k).pending == Asked(j, 0, |j|, k) + Clamped(j, k)
  {
    if j != [] {
      var q := j[..|j| - 1];
      PendingIsAskedPlusClamped(q, k);
      AskedOfPrefix(j, |q|, 0, |q|, k);
    }
  }

  /** pending is the largest net sum (added - released) over all suffixes, the empty one included. */
  lemma {:induction false} PendingIsMaxSuffix(j: seq<Entry>, k: Key)
    requires Sound(j) && HoldsNonNegative(j)
    ensures forall i :: 0 <= i <= |j| ==> Asked(j, i, |j|, k) <= BalAfter(j, k).pending
    ensures exists i :: 0 <= i <= |j| && Asked(j, i, |j|, k) == BalAfter(j, k).pending
  {
    if j == [] {
      assert Asked(j, 0, 0, k) == 0;
    } else {
      var q, e := j[..|j| - 1], j[|j| - 1];
      PrefixSound(j);
      PendingIsMaxSuffix(q, k);
      assert Asked(q, |q|, |q|, k) == 0;
      PostReflects(BalAfter(q, k), e, k);
      forall i | 0 <= i <= |j| ensures Asked(j, i, |j|, k) <= BalAfter(j, k).pending {
        if i < |j| {
          AskedOfPrefix(j, |q|, i, |q|, k);
        }
      }
      var w :| 0 <= w <= |q| && Asked(q, w, |q|, k) == BalAfter(q, k).pending;
      AskedOfPrefix(j, |q|, w, |q|, k);
      var best := if BalAfter(q, k).pending + Move(e, k) >= 0 then w else |j|;
      assert Asked(j, best, |j|, k) == BalAfter(j, k).pending;
    }
  }

  /** The total clamped away is the largest excess of released over added in any prefix. */
  lemma ClampedIsMaxDeficit(j: seq<Entry>, k: Key)
    requires Sound(j) && HoldsNonNegative(j)
    ensures forall i :: 0 <= i <= |j| ==> -Asked(j, 0, i, k) <= Clamped(j, k)
    ensures exists i :: 0 <= i <= |j| && -Asked(j, 0, i, k) == Clamped(j, k)
  {
    PendingIsMaxSuffix(j, k);
    PendingIsAskedPlusClamped(j, k);
    forall i | 0 <= i <= |j| ensures -Asked(j, 0, i, k) <= Clamped(j, k) {
      AskedSplits(j, i, |j|, k);
      assert Asked(j, i, |j|, k) <= BalAfter(j, k).pending;
    }
    var w :| 0 <= w <= |j| && Asked(j, w, |j|, k) == BalAfter(j, k).pending;
    AskedSplits(j, w, |j|, k);
    assert -Asked(j, 0, w, k) == Clamped(j, k);
  }

  // ── Settled at most once ──

  ghost predicate Settles(e: Entry, payment: Id) {
    e.Settlement? && e.payment == payment
  }

  ghost predicate SettledIn(j: seq<Entry>, payment: Id) {
    exists i :: 0 <= i < |j| && Settles(j[i], payment)
  }

  ghost predicate AtMostOnce(j: seq<Entry>) {
    forall a, b, payment :: 0 <= a < |j| && 0 <= b < |j| && Settles(j[a], payment) && Settles(j[b], payment) ==> a == b
  }

  /** No credit of a settlement failed; a failed release of a hold does not matter to available. */
  ghost predicate AllCredited(j: seq<Entry>) {
    forall i :: 0 <= i < |j| && j[i].Settlement? ==> j[i].credited
  }

  /** Every credit goes to the owner of the settled row. */
  ghost predicate SameOwner(j: seq<Entry>) {
    forall i :: 0 <= i < |j| && j[i].Settlement? ==> j[i].row == j[i].owner
  }

  /** A net that is overwritten was written by an earlier settlement of the same payment. */
  ghost predicate OldNetExplained(j: seq<Entry>) {
    forall b :: 0 <= b < |j| && j[b].Settlement? && j[b].oldNet != 0 ==> SettledIn(j[..b], j[b].payment)
  }

  lemma OverwriteIsASecondTime(j: seq<Entry>, n: nat)
    requires n < |j| && j[n].Settlement? && SettledIn(j[..n], j[n].payment)
    ensures !AtMostOnce(j)
  {
    var a :| 0 <= a < n && Settles(j[..n][a], j[n].payment);
    assert Settles(j[a], j[n].payment) && Settles(j[n], j[n].payment);
  }

  /** No settlement overwrote a net that a row already showed. */
  ghost predicate NothingOverwritten(j: seq<Entry>) {
    forall i :: 0 <= i < |j| && j[i].Settlement? ==> j[i].oldNet == 0
  }

  lemma SettledOnceOverwritesNothing(j: seq<Entry>)
    requires OldNetExplained(j) && AtMostOnce(j)
    ensures NothingOverwritten(j)
  {
    forall n | 0 <= n < |j| && j[n].Settlement? ensures j[n].oldNet == 0 {
      if j[n].oldNet != 0 {
        OverwriteIsASecondTime(j, n);
        assert false;
      }
    }
  }

  lemma {:induction false} CleanJournalHasNoDrift(j: seq<Entry>, k: Key)
    requires NothingOverwritten(j) && AllCredited(j) && SameOwner(j)
    ensures Total(ResettledColumn, j, k) == Total(LostNetColumn, j, k) == Total(MisdirectedColumn, j, k) == 0
  {
    if j != [] {
      var n := |j| - 1;
      var q := j[..n];
      assert forall i :: 0 <= i < n ==> q[i] == j[i];
      CleanJournalHasNoDrift(q, k);
    }
  }

  // ── The part of the journal one subscription sees ──

  function SubEvents(j: seq<Entry>, i: nat): seq<SubEvent> {
    if j == [] then []
    else
      var e := j[|j| - 1];
      SubEvents(j[..|j| - 1], i) + if e.SubMoved? && e.sub == i then [e.ev] else []
  }
}
