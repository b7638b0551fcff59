/** The payments that AddPending was called for, read off the journal, and what their owners may have
    pending. */
module Held {
  import opened Wrappers
  import opened Balances
  import opened Fees
  import opened Payments
  import opened Journal
  import Subs = Subscriptions
  import opened Ledger

  // ── Open rows that were held for ──

  ghost function Holds(j: seq<Entry>): set<Id> {
    set i | 0 <= i < |j| && j[i].Added? && j[i].hold.Some? :: j[i].hold.value
  }

  lemma HoldsAppend(j: seq<Entry>, e: Entry)
    ensures Holds(j + [e]) == if e.Added? && e.hold.Some? then Holds(j) + {e.hold.value} else Holds(j)
  {
    var all := j + [e];
    forall id | id in Holds(j) ensures id in Holds(all) {
      var i :| 0 <= i < |j| && j[i].Added? && j[i].hold == Some(id);
      assert all[i].Added? && all[i].hold == Some(id);
    }
    assert all[|j|] == e;
  }

  ghost function HeldGrossOf(p: Payment, held: set<Id>, k: Key): int {
    if p.id in held then OpenGrossOf(p, k) else 0
  }

  ghost function HeldGross(rows: seq<Payment>, held: set<Id>, k: Key): int {
    if rows == [] then 0 else HeldGross(rows[..|rows| - 1], held, k) + HeldGrossOf(rows[|rows| - 1], held, k)
  }

  lemma {:induction false} HeldGrossUpdate(rows: seq<Payment>, i: nat, p: Payment, held: set<Id>, k: Key)
    requires i < |rows|
    ensures HeldGross(rows[i := p], held, k)
            == HeldGross(rows, held, k) - HeldGrossOf(rows[i], held, k) + HeldGrossOf(p, held, k)
  {
    var q := rows[..|rows| - 1];
    if i == |q| {
      assert rows[i := p][..|q|] == q;
    } else {
      assert rows[i := p][..|q|] == q[i := p];
      HeldGrossUpdate(q, i, p, held, k);
    }
  }

  /** One more row held for: its gross is added, if it is open. */
  lemma {:induction false} HeldGrossGrows(rows: seq<Payment>, held: set<Id>, i: nat, k: Key)
    requires RowsValid(rows) && i < |rows| && rows[i].id !in held
    ensures HeldGross(rows, held + {rows[i].id}, k) == HeldGross(rows, held, k) + OpenGrossOf(rows[i], k)
  {
    var q, last := rows[..|rows| - 1], rows[|rows| - 1];
    if i == |q| {
      assert forall n :: 0 <= n < |q| ==> !Collide(rows[n], rows[i]);
      OthersUnheld(q, held, rows[i].id, k);
    } else {
      assert !Collide(rows[i], last);
      HeldGrossGrows(q, held, i, k);
    }
  }

  lemma {:induction false} OthersUnheld(rows: seq<Payment>, held: set<Id>, id: Id, k: Key)
    requires forall n :: 0 <= n < |rows| ==> rows[n].id != id
    ensures HeldGross(rows, held + {id}, k) == HeldGross(rows, held, k)
  {
    if rows != [] {
      OthersUnheld(rows[..|rows| - 1], held, id, k);
    }
  }

  lemma {:induction false} HeldGrossBounds(rows: seq<Payment>, held: set<Id>, k: Key)
    requires forall i :: 0 <= i < |rows| ==> PassesChecks(rows[i].fees)
    ensures 0 <= HeldGross(rows, held, k) <= OpenGross(rows, k)
  {
    if rows != [] {
      HeldGrossBounds(rows[..|rows| - 1], held, k);
    }
  }

  lemma HeldGrossAppend(rows: seq<Payment>, p: Payment, held: set<Id>, k: Key)
    ensures HeldGross(rows + [p], held, k) == HeldGross(rows, held, k) + HeldGrossOf(p, held, k)
  {
    assert (rows + [p])[..|rows|] == rows;
  }

  // ── What may be pending ──

  ghost function Cover(w: World, k: Key): int {
    HeldGross(w.payments, Holds(w.journal), k) + Total(LostHoldColumn, w.journal, k)
  }

  /** The owner of row i stays covered without the row. */
  ghost predicate SpareFor(w: World, i: nat)
    requires i < |w.payments|
  {
    var p := w.payments[i];
    Get(w.balances, p.Owner()).pending + HeldGrossOf(p, Holds(w.journal), p.Owner()) <= Cover(w, p.Owner())
  }

  /** Moving a subscription changes nothing of this. */
  lemma SpareAfterMove(w: World, s: nat, ev: Subs.SubEvent, i: nat)
    requires s < |w.subs| && i < |w.payments|
    ensures SpareFor(MoveSub(w, s, ev), i) <==> SpareFor(w, i)
  {
    HoldsAppend(w.journal, SubMoved(s, ev));
    TotalAppend(LostHoldColumn, w.journal, SubMoved(s, ev), w.payments[i].Owner());
  }
}
