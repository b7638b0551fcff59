/** The `balances` table and its repository (internal/repository/postgres/balance_repo.go).
    The database holds rows; the rest of the service thinks of a map from (tenant, currency)
    to a balance. The repository keeps the two in step although no constraint does. */
module Balances {
  import opened Wrappers

  type Id = nat

  datatype Key = Key(tenant: Id, currency: string)

  datatype Bal = Bal(available: int, pending: int)

  /** member is NULL (None) on the tenant-level rows. */
  datatype BalanceRow = BalanceRow(tenant: Id, member: Option<Id>, currency: string, bal: Bal)

  type BalanceTable = map<Key, Bal>

  function Max0(x: int): int {
    if x >= 0 then x else 0
  }

  // ── The abstract table ──

  function Get(t: BalanceTable, k: Key): Bal {
    if k in t then t[k] else Bal(0, 0)
  }

  function AddPendingTo(t: BalanceTable, k: Key, amount: int): BalanceTable {
    t[k := Bal(Get(t, k).available, Get(t, k).pending + amount)]
  }

  /** GREATEST(0, pending - gross) on a present row; a fresh (net, 0) row otherwise. */
  function CreditTo(t: BalanceTable, k: Key, gross: int, net: int): BalanceTable {
    if k in t then t[k := Bal(t[k].available + net, Max0(t[k].pending - gross))] else t[k := Bal(net, 0)]
  }

  function DebitFrom(t: BalanceTable, k: Key, amount: int): BalanceTable
    requires k in t
  {
    t[k := Bal(t[k].available - amount, t[k].pending)]
  }

  /** For a settlement an absent row acts as (0, 0), exactly as long as the gross is not negative. */
  lemma AbsentRowActsAsZero(t: BalanceTable, k: Key, gross: int, net: int)
    ensures CreditTo(t, k, gross, net) == CreditTo(t[k := Get(t, k)], k, gross, net)
            <==> k in t || gross >= 0
  {
    if k in t {
      assert t[k := Get(t, k)] == t;
    } else {
      var c, z := CreditTo(t, k, gross, net), CreditTo(t[k := Get(t, k)], k, gross, net);
      assert c[k].pending == 0 && z[k].pending == Max0(-gross);
      assert gross >= 0 ==> c == z;
    }
  }

  // ── The rows ──

  predicate IsRowOf(r: BalanceRow, k: Key) {
    r.tenant == k.tenant && r.member.None? && r.currency == k.currency
  }

  predicate HasRow(rows: seq<BalanceRow>, k: Key) {
    exists i :: 0 <= i < |rows| && IsRowOf(rows[i], k)
  }

  /** UPDATE balances SET ... WHERE tenant_id = $ AND member_id IS NULL AND currency = $ */
  function Update(rows: seq<BalanceRow>, k: Key, f: Bal -> Bal): (out: seq<BalanceRow>)
    ensures |out| == |rows|
    ensures forall i :: 0 <= i < |rows| ==>
      out[i] == if IsRowOf(rows[i], k) then rows[i].(bal := f(rows[i].bal)) else rows[i]
  {
    UpdateWhere(rows, (r: BalanceRow) => IsRowOf(r, k), (r: BalanceRow) => r.(bal := f(r.bal)))
  }

  function TenantRow(k: Key, bal: Bal): BalanceRow {
    BalanceRow(k.tenant, None, k.currency, bal)
  }

  /** What the UNIQUE (tenant_id, member_id, currency) constraint enforces: NULLs are distinct. */
  ghost predicate SatisfiesUniqueConstraint(rows: seq<BalanceRow>) {
    forall i, j :: 0 <= i < j < |rows| ==>
      !(rows[i].member.Some? && rows[i].tenant == rows[j].tenant
        && rows[i].member == rows[j].member && rows[i].currency == rows[j].currency)
  }

  /** What the repository relies on: one tenant-level row per (tenant, currency). */
  ghost predicate OneRowPerKey(rows: seq<BalanceRow>) {
    forall i, j, k {:trigger IsRowOf(rows[i], k), IsRowOf(rows[j], k)} ::
      0 <= i < |rows| && 0 <= j < |rows| && IsRowOf(rows[i], k) && IsRowOf(rows[j], k) ==> i == j
  }

  /** The constraint alone accepts a second tenant-level row. */
  lemma ConstraintDoesNotHelp(k: Key, a: Bal, b: Bal)
    ensures exists rows :: SatisfiesUniqueConstraint(rows) && !OneRowPerKey(rows)
  {
    var rows := [TenantRow(k, a), TenantRow(k, b)];
    assert IsRowOf(rows[0], k) && IsRowOf(rows[1], k);
    assert SatisfiesUniqueConstraint(rows) && !OneRowPerKey(rows);
  }

  // ── Rows refine the table ──

  ghost function KeysOf(rows: seq<BalanceRow>): set<Key> {
    set i | 0 <= i < |rows| && rows[i].member.None? :: Key(rows[i].tenant, rows[i].currency)
  }

  lemma KeysAreRows(rows: seq<BalanceRow>, k: Key)
    ensures k in KeysOf(rows) <==> HasRow(rows, k)
  {
    if HasRow(rows, k) {
      var i :| 0 <= i < |rows| && IsRowOf(rows[i], k);
      assert Key(rows[i].tenant, rows[i].currency) == k;
    }
  }

  ghost function BalOf(rows: seq<BalanceRow>, k: Key): Bal
    requires HasRow(rows, k)
  {
    var i :| 0 <= i < |rows| && IsRowOf(rows[i], k);
    rows[i].bal
  }

  ghost function Table(rows: seq<BalanceRow>): (t: BalanceTable)
    ensures forall k :: k in t <==> HasRow(rows, k)
    ensures forall k :: k in t ==> t[k] == BalOf(rows, k)
  {
    forall k ensures k in KeysOf(rows) <==> HasRow(rows, k) { KeysAreRows(rows, k); }
    map k | k in KeysOf(rows) :: BalOf(rows, k)
  }

  lemma RowDecidesTable(rows: seq<BalanceRow>, i: nat, k: Key)
    requires OneRowPerKey(rows) && i < |rows| && IsRowOf(rows[i], k)
    ensures k in Table(rows) && Table(rows)[k] == rows[i].bal
  {
  }

  lemma UpdateKeepsKeys(rows: seq<BalanceRow>, k: Key, f: Bal -> Bal, i: nat, x: Key)
    requires i < |rows|
    ensures IsRowOf(Update(rows, k, f)[i], x) <==> IsRowOf(rows[i], x)
  {
  }

  lemma UpdateKeepsOneRowPerKey(rows: seq<BalanceRow>, k: Key, f: Bal -> Bal)
    requires OneRowPerKey(rows)
    ensures OneRowPerKey(Update(rows, k, f))
  {
    var out := Update(rows, k, f);
    forall i, j, x | 0 <= i < |out| && 0 <= j < |out| && IsRowOf(out[i], x) && IsRowOf(out[j], x)
      ensures i == j
    {
      UpdateKeepsKeys(rows, k, f, i, x);
      UpdateKeepsKeys(rows, k, f, j, x);
    }
  }

  lemma UpdateAt(rows: seq<BalanceRow>, k: Key, f: Bal -> Bal, x: Key)
    requires OneRowPerKey(rows)
    ensures HasRow(Update(rows, k, f), x) <==> HasRow(rows, x)
    ensures HasRow(rows, x) ==>
      Table(Update(rows, k, f))[x] == if x == k then f(Table(rows)[x]) else Table(rows)[x]
  {
    var out := Update(rows, k, f);
    UpdateKeepsOneRowPerKey(rows, k, f);
    if HasRow(out, x) {
      var i :| 0 <= i < |out| && IsRowOf(out[i], x);
      UpdateKeepsKeys(rows, k, f, i, x);
    }
    if HasRow(rows, x) {
      var i :| 0 <= i < |rows| && IsRowOf(rows[i], x);
      UpdateKeepsKeys(rows, k, f, i, x);
      RowDecidesTable(rows, i, x);
      RowDecidesTable(out, i, x);
    }
  }

  lemma SameTable(t: BalanceTable, u: BalanceTable)
    requires forall x :: x in u <==> x in t
    requires forall x :: x in t ==> u[x] == t[x]
    ensures u == t
  {
  }

  /** An UPDATE is the same change of one entry of the table, or no change at all. */
  lemma UpdateRefines(rows: seq<BalanceRow>, k: Key, f: Bal -> Bal)
    requires OneRowPerKey(rows)
    ensures OneRowPerKey(Update(rows, k, f))
    ensures Table(Update(rows, k, f)) == if k in Table(rows) then Table(rows)[k := f(Table(rows)[k])] else Table(rows)
  {
    UpdateKeepsOneRowPerKey(rows, k, f);
    var t, u := Table(rows), Table(Update(rows, k, f));
    var v := if k in t then t[k := f(t[k])] else t;
    forall x ensures x in u <==> x in v { UpdateAt(rows, k, f, x); }
    forall x | x in v ensures u[x] == v[x] { UpdateAt(rows, k, f, x); }
    SameTable(v, u);
  }

  /** An INSERT of an absent tenant-level row adds one entry. */
  lemma InsertRefines(rows: seq<BalanceRow>, k: Key, bal: Bal)
    requires OneRowPerKey(rows) && !HasRow(rows, k)
    ensures OneRowPerKey(rows + [TenantRow(k, bal)])
    ensures Table(rows + [TenantRow(k, bal)]) == Table(rows)[k := bal]
  {
    var out := rows + [TenantRow(k, bal)];
    var t, u := Table(rows), Table(out);
    assert IsRowOf(out[|rows|], k);
    forall x ensures x in u <==> x in t || x == k {
      if x in t {
        var i :| 0 <= i < |rows| && IsRowOf(rows[i], x);
        assert IsRowOf(out[i], x);
      }
    }
    RowDecidesTable(out, |rows|, k);
    forall x | x in t ensures u[x] == t[x] {
      var i :| 0 <= i < |rows| && IsRowOf(rows[i], x);
      RowDecidesTable(rows, i, x);
      assert out[i] == rows[i];
      RowDecidesTable(out, i, x);
    }
  }

  /** Member-level rows are nobody's business here. */
  ghost predicate MemberRowsKept(before: seq<BalanceRow>, after: seq<BalanceRow>) {
    && |before| <= |after|
    && (forall i :: 0 <= i < |before| && before[i].member.Some? ==> after[i] == before[i])
    && (forall i :: |before| <= i < |after| ==> after[i].member.None?)
  }

  /** Every method names, per database statement it issues, whether the database answers it;
      a statement that is not answered changes nothing. */
  class BalanceRepo {
    var rows: seq<BalanceRow>

    ghost predicate Valid()
      reads this
    {
      OneRowPerKey(rows)
    }

    constructor ()
      ensures Valid() && Table(rows) == map[]
    {
      rows := [];
    }

    /** update-or-insert after SELECT EXISTS, the shape of AddPending and upsertTenantBalance. */
    method WriteTenantBalance(k: Key, update: Bal -> Bal, initial: Bal, selectOk: bool, writeOk: bool)
      returns (r: Result<()>)
      requires Valid()
      modifies this
      ensures Valid() && MemberRowsKept(old(rows), rows)
      ensures r.Ok? <==> selectOk && writeOk
      ensures r.Err? ==> rows == old(rows)
      ensures r.Ok? ==>
        var t := Table(old(rows));
        Table(rows) == t[k := if k in t then update(t[k]) else initial]
    {
      if !selectOk || !writeOk {
        return Err(ErrDatabase);
      }
      if HasRow(rows, k) {
        UpdateRefines(rows, k, update);
        rows := Update(rows, k, update);
      } else {
        InsertRefines(rows, k, initial);
        rows := rows + [TenantRow(k, initial)];
      }
      return Ok(());
    }

    method UpsertTenantBalance(k: Key, bal: Bal, selectOk: bool, writeOk: bool) returns (r: Result<()>)
      requires Valid()
      modifies this
      ensures Valid() && MemberRowsKept(old(rows), rows)
      ensures r.Ok? <==> selectOk && writeOk
      ensures Table(rows) == if r.Ok? then Table(old(rows))[k := bal] else Table(old(rows))
    {
      r := WriteTenantBalance(k, (_: Bal) => bal, bal, selectOk, writeOk);
    }

    method AddPending(k: Key, amount: int, selectOk: bool, writeOk: bool) returns (r: Result<()>)
      requires Valid()
      modifies this
      ensures Valid() && MemberRowsKept(old(rows), rows)
      ensures r.Ok? <==> selectOk && writeOk
      ensures Table(rows) == if r.Ok? then AddPendingTo(Table(old(rows)), k, amount) else Table(old(rows))
    {
      r := WriteTenantBalance(k, (b: Bal) => Bal(b.available, b.pending + amount), Bal(0, amount), selectOk, writeOk);
    }

    /** Carries out an UPDATE; `affected` is RowsAffected() > 0. */
    method ExecUpdate(k: Key, f: Bal -> Bal) returns (affected: bool)
      requires Valid()
      modifies this
      ensures Valid() && MemberRowsKept(old(rows), rows)
      ensures affected <==> k in Table(old(rows))
      ensures !affected ==> rows == old(rows)
      ensures affected ==> Table(rows) == var t := Table(old(rows)); t[k := f(t[k])]
    {
      affected := HasRow(rows, k);
      UpdateRefines(rows, k, f);
      rows := Update(rows, k, f);
    }

    method CreditSettlement(k: Key, gross: int, net: int, updateOk: bool, insertOk: bool) returns (r: Result<()>)
      requires Valid()
      modifies this
      ensures Valid() && MemberRowsKept(old(rows), rows)
      ensures r.Ok? <==> updateOk && (k in Table(old(rows)) || insertOk)
      ensures Table(rows) == if r.Ok? then CreditTo(Table(old(rows)), k, gross, net) else Table(old(rows))
    {
      if !updateOk {
        return Err(ErrDatabase);
      }
      var affected := ExecUpdate(k, (b: Bal) => Bal(b.available + net, Max0(b.pending - gross)));
      if !affected {
        if !insertOk {
          return Err(ErrDatabase);
        }
        InsertRefines(rows, k, Bal(net, 0));
        rows := rows + [TenantRow(k, Bal(net, 0))];
      }
      return Ok(());
    }

    method DebitAvailable(k: Key, amount: int, updateOk: bool) returns (r: Result<()>)
      requires Valid()
      modifies this
      ensures Valid() && MemberRowsKept(old(rows), rows)
      ensures r.Ok? <==> updateOk && k in Table(old(rows))
      ensures r == Err(ErrNotFound) <==> updateOk && k !in Table(old(rows))
      ensures Table(rows) == if r.Ok? then DebitFrom(Table(old(rows)), k, amount) else Table(old(rows))
    {
      if !updateOk {
        return Err(ErrDatabase);
      }
      var affected := ExecUpdate(k, (b: Bal) => Bal(b.available - amount, b.pending));
      if !affected {
        return Err(ErrNotFound);
      }
      return Ok(());
    }

    method GetTenantBalance(k: Key, selectOk: bool) returns (r: Result<Bal>)
      requires Valid()
      ensures r.Ok? <==> selectOk && k in Table(rows)
      ensures r.Ok? ==> r.value == Table(rows)[k]
      ensures r == Err(ErrNotFound) <==> selectOk && k !in Table(rows)
    {
      if !selectOk {
        return Err(ErrDatabase);
      }
      if HasRow(rows, k) {
        var i :| 0 <= i < |rows| && IsRowOf(rows[i], k);
        RowDecidesTable(rows, i, k);
        return Ok(rows[i].bal);
      }
      return Err(ErrNotFound);
    }
  }
}
