/** The `payments` table and its repository (internal/repository/postgres/payment_repo.go). */
module Payments {
  import opened Wrappers
  import opened Balances
  import opened Fees

  datatype PaymentStatus = Pending | InProgress | Completed | Failed | Cancelled | Refunded | Chargeback

  datatype Payment = Payment(
    id: Id,
    tenant: Id,
    subscription: Option<Id>,
    tx: string,
    idempotencyKey: string,
    fees: PaymentFees,
    currency: string,
    status: PaymentStatus,
    errorMessage: string)
  {
    function Owner(): Key {
      Key(tenant, currency)
    }

    /** pending or in_progress: the charge may still settle. */
    predicate Open() {
      status.Pending? || status.InProgress?
    }
  }

  // ── The statements ──

  function IndexOfTx(rows: seq<Payment>, tx: string): (r: Option<nat>)
    ensures r.Some? ==> r.value < |rows| && rows[r.value].tx == tx
    ensures r.None? ==> forall i :: 0 <= i < |rows| ==> rows[i].tx != tx
  {
    IndexWhere(rows, (p: Payment) => p.tx == tx)
  }

  /** The unique indexes: id, openpay_transaction_id and (tenant_id, idempotency_key). */
  predicate Collide(p: Payment, q: Payment) {
    p.id == q.id || p.tx == q.tx || (p.tenant == q.tenant && p.idempotencyKey == q.idempotencyKey)
  }

  predicate CanCreate(rows: seq<Payment>, p: Payment) {
    PassesChecks(p.fees) && forall i :: 0 <= i < |rows| ==> !Collide(rows[i], p)
  }

  /** COALESCE keeps the old error message when none is given. */
  function WithStatus(p: Payment, status: PaymentStatus, errorMessage: string): Payment {
    p.(status := status, errorMessage := if errorMessage != "" then errorMessage else p.errorMessage)
  }

  /** No status guard: a completed payment can be settled again. */
  function Settled(p: Payment, fees: PaymentFees): Payment {
    p.(fees := fees, status := Completed)
  }

  ghost predicate RowsValid(rows: seq<Payment>) {
    && (forall i :: 0 <= i < |rows| ==> PassesChecks(rows[i].fees))
    && (forall i, j :: 0 <= i < j < |rows| ==> !Collide(rows[i], rows[j]))
  }

  /** The primary key: an UPDATE by id changes exactly one row. */
  lemma UpdateById(rows: seq<Payment>, i: nat, f: Payment -> Payment)
    requires RowsValid(rows) && i < |rows|
    ensures UpdateWhere(rows, (p: Payment) => p.id == rows[i].id, f) == rows[i := f(rows[i])]
    ensures forall j :: 0 <= j < |rows| && rows[j].id == rows[i].id ==> j == i
  {
    var has := (p: Payment) => p.id == rows[i].id;
    forall j | 0 <= j < |rows| && j != i ensures !has(rows[j]) {
      assert i < j ==> !Collide(rows[i], rows[j]);
      assert j < i ==> !Collide(rows[j], rows[i]);
    }
    UpdateHitsOneRow(rows, has, f, i);
  }

  predicate SameIdentity(p: Payment, q: Payment) {
    p.id == q.id && p.tx == q.tx && p.tenant == q.tenant && p.idempotencyKey == q.idempotencyKey
  }

  lemma UpdateKeepsValid(rows: seq<Payment>, i: nat, p: Payment)
    requires RowsValid(rows) && i < |rows| && SameIdentity(rows[i], p) && PassesChecks(p.fees)
    ensures RowsValid(rows[i := p])
  {
    var out := rows[i := p];
    forall a, b | 0 <= a < b < |out| ensures !Collide(out[a], out[b]) {
      assert !Collide(rows[a], rows[b]);
    }
  }

  function CountTx(rows: seq<Payment>, tx: string): nat {
    if rows == [] then 0 else CountTx(rows[..|rows| - 1], tx) + if rows[|rows| - 1].tx == tx then 1 else 0
  }

  lemma {:induction false} UniqueTxCountsOnce(rows: seq<Payment>, i: nat)
    requires RowsValid(rows) && i < |rows|
    ensures CountTx(rows, rows[i].tx) == 1
  {
    var q := rows[..|rows| - 1];
    if i == |q| {
      AbsentTxCountsZero(q, rows[i].tx);
    } else {
      assert !Collide(rows[i], rows[|q|]);
      UniqueTxCountsOnce(q, i);
    }
  }

  lemma {:induction false} AbsentTxCountsZero(rows: seq<Payment>, tx: string)
    requires forall i :: 0 <= i < |rows| ==> rows[i].tx != tx
    ensures CountTx(rows, tx) == 0
  {
    if rows != [] {
      AbsentTxCountsZero(rows[..|rows| - 1], tx);
    }
  }

  // ── Sums over the rows of one owner ──

  function NetOfRows(rows: seq<Payment>, k: Key): int {
    if rows == [] then 0 else NetOfRows(rows[..|rows| - 1], k) + NetOf(rows[|rows| - 1], k)
  }

  function NetOf(p: Payment, k: Key): int {
    if p.Owner() == k then p.fees.net else 0
  }

  function OpenGross(rows: seq<Payment>, k: Key): int {
    if rows == [] then 0 else OpenGross(rows[..|rows| - 1], k) + OpenGrossOf(rows[|rows| - 1], k)
  }

  function OpenGrossOf(p: Payment, k: Key): int {
    if p.Owner() == k && p.Open() then p.fees.gross else 0
  }

  lemma {:induction false} NetOfRowsUpdate(rows: seq<Payment>, i: nat, p: Payment, k: Key)
    requires i < |rows|
    ensures NetOfRows(rows[i := p], k) == NetOfRows(rows, k) - NetOf(rows[i], k) + NetOf(p, k)
  {
    var q := rows[..|rows| - 1];
    if i == |q| {
      assert rows[i := p][..|q|] == q;
    } else {
      assert rows[i := p][..|q|] == q[i := p];
      NetOfRowsUpdate(q, i, p, k);
    }
  }

  lemma SumsAppend(rows: seq<Payment>, p: Payment, k: Key)
    ensures NetOfRows(rows + [p], k) == NetOfRows(rows, k) + NetOf(p, k)
  {
    assert (rows + [p])[..|rows|] == rows;
  }

  class PaymentRepo {
    var rows: seq<Payment>

    ghost predicate Valid()
      reads this
    {
      RowsValid(rows)
    }

    constructor ()
      ensures Valid() && rows == []
    {
      rows := [];
    }

    method Create(p: Payment, insertOk: bool) returns (r: Result<()>)
      requires Valid()
      modifies this
      ensures Valid()
      ensures r.Ok? <==> insertOk && CanCreate(old(rows), p)
      ensures r.Ok? <==>
        && insertOk
        && p.fees.gross >= 0 && p.fees.openpayFee >= 0 && p.fees.platformFee >= 0 && p.fees.net >= 0
        && forall q :: q in old(rows) ==>
             q.id != p.id && q.tx != p.tx && (q.tenant != p.tenant || q.idempotencyKey != p.idempotencyKey)
      ensures rows == if r.Ok? then old(rows) + [p] else old(rows)
    {
      if !insertOk || !CanCreate(rows, p) {
        return Err(ErrDatabase);
      }
      rows := rows + [p];
      return Ok(());
    }

    method GetByOpenpayTransactionID(tx: string, selectOk: bool) returns (r: Result<Payment>, ghost at: nat)
      requires Valid()
      ensures r.Ok? <==> selectOk && IndexOfTx(rows, tx).Some?
      ensures r.Ok? ==> at < |rows| && IndexOfTx(rows, tx) == Some(at) && rows[at] == r.value
      ensures r == Err(ErrNotFound) <==> selectOk && IndexOfTx(rows, tx).None?
    {
      at := 0;
      if !selectOk {
        return Err(ErrDatabase), at;
      }
      var found := IndexOfTx(rows, tx);
      if found.None? {
        return Err(ErrNotFound), at;
      }
      at := found.value;
      return Ok(rows[found.value]), at;
    }

    method UpdateStatus(id: Id, status: PaymentStatus, errorMessage: string, updateOk: bool) returns (r: Result<()>)
      requires Valid()
      modifies this
      ensures Valid()
      ensures forall i :: 0 <= i < |old(rows)| && old(rows)[i].id == id ==>
        if updateOk then r.Ok? && rows == old(rows)[i := WithStatus(old(rows)[i], status, errorMessage)]
        else r.Err? && rows == old(rows)
      ensures (forall i :: 0 <= i < |old(rows)| ==> old(rows)[i].id != id) ==> r.Err? && rows == old(rows)
    {
      if !updateOk {
        return Err(ErrDatabase);
      }
      if !(exists i :: 0 <= i < |rows| && rows[i].id == id) {
        return Err(ErrNotFound);
      }
      ghost var i :| 0 <= i < |rows| && rows[i].id == id;
      UpdateById(rows, i, (p: Payment) => WithStatus(p, status, errorMessage));
      UpdateKeepsValid(rows, i, WithStatus(rows[i], status, errorMessage));
      rows := UpdateWhere(rows, (p: Payment) => p.id == id, (p: Payment) => WithStatus(p, status, errorMessage));
      return Ok(());
    }

    method SettlePayment(id: Id, fees: PaymentFees, updateOk: bool) returns (r: Result<()>)
      requires Valid()
      modifies this
      ensures Valid()
      ensures forall i :: 0 <= i < |old(rows)| && old(rows)[i].id == id ==>
        if updateOk && PassesChecks(fees) then r.Ok? && rows == old(rows)[i := Settled(old(rows)[i], fees)]
        else r.Err? && rows == old(rows)
      ensures (forall i :: 0 <= i < |old(rows)| ==> old(rows)[i].id != id) ==> r.Err? && rows == old(rows)
    {
      if !updateOk {
        return Err(ErrDatabase);
      }
      if !(exists i :: 0 <= i < |rows| && rows[i].id == id) {
        return Err(ErrNotFound);
      }
      if !PassesChecks(fees) {
        return Err(ErrDatabase);
      }
      ghost var i :| 0 <= i < |rows| && rows[i].id == id;
      UpdateById(rows, i, (p: Payment) => Settled(p, fees));
      UpdateKeepsValid(rows, i, Settled(rows[i], fees));
      rows := UpdateWhere(rows, (p: Payment) => p.id == id, (p: Payment) => Settled(p, fees));
      return Ok(());
    }
  }
}
