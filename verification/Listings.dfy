/** One List call from the page token to the next page token, and a client that follows the tokens:
    the payments and the subscriptions listings over their tables. */
module Listings {
  import opened Wrappers
  import opened Cursor
  import opened Keyset
  import opened Pagination
  import opened Filters

  /** How a listing sees a row, its columns and its (created_at, id), and how it orders and names
      the keys. */
  datatype View<!T(!new)> = View(columns: T -> Row, key: T -> Position, scheme: Scheme<Position>)

  // ── The database's answer ──

  /** WHERE, over a table in the order of the listing. */
  function Where<T(!new)>(v: View<T>, table: seq<T>, q: Sql): seq<T> {
    if table == [] then []
    else
      (if Eval(q.clause, q.args, v.columns(table[0])) then [table[0]] else []) + Where(v, table[1..], q)
  }

  /** LIMIT $n */
  function Limited<T>(rows: seq<T>, limit: Option<Value>): seq<T> {
    if limit.Some? && limit.value.VInt? && 0 <= limit.value.n < |rows| then rows[..limit.value.n] else rows
  }

  function Answer<T(!new)>(v: View<T>, table: seq<T>, q: Sql): seq<T> {
    Limited(Where(v, table, q), Arg(q.args, q.limit))
  }

  // ── What a listing is to list ──

  function Keys<T(!new)>(v: View<T>, rows: seq<T>): (keys: seq<Position>)
    ensures |keys| == |rows| && forall i :: 0 <= i < |rows| ==> keys[i] == v.key(rows[i])
  {
    seq(|rows|, i requires 0 <= i < |rows| => v.key(rows[i]))
  }

  /** A table whose rows stand newest first, one row per key. */
  ghost predicate Indexed<T(!new)>(v: View<T>, table: seq<T>) {
    Lawful(v.scheme) && Descending(v.scheme, Keys(v, table))
  }

  /** Every created_at is a time a token can name. */
  predicate Nameable<T(!new)>(v: View<T>, table: seq<T>) {
    forall i :: 0 <= i < |table| ==> v.scheme.ok(v.key(table[i]))
  }

  function Filtered<T>(want: T -> bool, table: seq<T>): seq<T> {
    if table == [] then []
    else (if want(table[0]) then [table[0]] else []) + Filtered(want, table[1..])
  }

  ghost function WantedKeys<T(!new)>(v: View<T>, want: T -> bool, table: seq<T>): set<Position> {
    set i | 0 <= i < |table| && want(table[i]) :: v.key(table[i])
  }

  /** The rows of one call are wanted rows of the table, and their keys and the next token are the
      page of the wanted keys. */
  ghost predicate OneCall<T(!new)>(
    v: View<T>, want: T -> bool, table: seq<T>, token: string, size: int, page: seq<T>, next: string)
  {
    && size >= 1 && Lawful(v.scheme)
    && (forall i :: 0 <= i < |page| ==> page[i] in table && want(page[i]))
    && (Keys(v, page), next) == Page(v.scheme, WantedKeys(v, want, table), token, size)
  }

  /** Below the token's cursor; a token that does not decode is ignored, as is the empty one. */
  predicate Below<T(!new)>(v: View<T>, r: T, token: string) {
    token != "" && v.scheme.decode(token).Some? ==> v.scheme.less(v.key(r), v.scheme.decode(token).value)
  }

  /** The query selects the wanted rows below the token's cursor. */
  ghost predicate Asks<T(!new)>(v: View<T>, want: T -> bool, token: string, size: int, q: Sql) {
    && Arg(q.args, q.limit) == Some(VInt(size + 1))
    && forall r: T ::
         Eval(q.clause, q.args, v.columns(r)) <==> want(r) && Below(v, r, token)
  }

  // ── Filtering an ordered table ──

  lemma {:induction false} FilteredKeeps<T>(want: T -> bool, table: seq<T>, r: T)
    ensures r in Filtered(want, table) <==> r in table && want(r)
  {
    if table != [] {
      FilteredKeeps(want, table[1..], r);
    }
  }

  lemma IndexedTail<T(!new)>(v: View<T>, table: seq<T>)
    requires Indexed(v, table) && table != []
    ensures Indexed(v, table[1..])
    ensures forall i :: 1 <= i < |table| ==> v.scheme.less(v.key(table[i]), v.key(table[0]))
  {
    var keys, tail := Keys(v, table), Keys(v, table[1..]);
    assert forall i :: 0 <= i < |tail| ==> tail[i] == keys[i + 1];
    forall i | 1 <= i < |table| ensures v.scheme.less(v.key(table[i]), v.key(table[0])) {
      assert v.scheme.less(keys[i], keys[0]);
    }
  }

  lemma {:induction false} FilteredIsIndexed<T(!new)>(v: View<T>, want: T -> bool, table: seq<T>)
    requires Indexed(v, table)
    ensures Indexed(v, Filtered(want, table))
  {
    if table != [] {
      IndexedTail(v, table);
      var rest := Filtered(want, table[1..]);
      FilteredIsIndexed(v, want, table[1..]);
      if want(table[0]) {
        forall i | 0 <= i < |rest| ensures v.scheme.less(v.key(rest[i]), v.key(table[0])) {
          FilteredKeeps(want, table[1..], rest[i]);
        }
        Prepended(v, table[0], rest);
      } else {
        assert Filtered(want, table) == rest;
      }
    }
  }

  lemma Prepended<T(!new)>(v: View<T>, first: T, rest: seq<T>)
    requires Indexed(v, rest)
    requires forall i :: 0 <= i < |rest| ==> v.scheme.less(v.key(rest[i]), v.key(first))
    ensures Indexed(v, [first] + rest)
  {
    var keys := Keys(v, rest);
    var all := Keys(v, [first] + rest);
    assert all == [v.key(first)] + keys;
    forall i, j | 0 <= i < j < |all| ensures v.scheme.less(all[j], all[i]) {
      if i > 0 {
        assert v.scheme.less(keys[j - 1], keys[i - 1]);
      }
    }
  }

  lemma {:induction false} WhereFilters<T(!new)>(v: View<T>, table: seq<T>, q: Sql, want: T -> bool)
    requires forall r: T :: Eval(q.clause, q.args, v.columns(r)) <==> want(r)
    ensures Where(v, table, q) == Filtered(want, table)
  {
    if table != [] {
      WhereFilters(v, table[1..], q, want);
    }
  }

  lemma {:induction false} FilteredTwice<T(!new)>(a: T -> bool, b: T -> bool, table: seq<T>)
    requires forall r: T :: b(r) ==> a(r)
    ensures forall r :: r in Filtered(b, table) ==> r in table && a(r)
  {
    forall r | r in Filtered(b, table) ensures r in table && a(r) {
      FilteredKeeps(b, table, r);
    }
  }

  lemma KeysOfFiltered<T(!new)>(v: View<T>, want: T -> bool, table: seq<T>, k: Position)
    ensures k in Keys(v, Filtered(want, table)) <==> k in WantedKeys(v, want, table)
  {
    var rows := Filtered(want, table);
    if k in Keys(v, rows) {
      var i :| 0 <= i < |rows| && Keys(v, rows)[i] == k;
      FilteredKeeps(want, table, rows[i]);
      var j :| 0 <= j < |table| && table[j] == rows[i];
      assert want(table[j]);
    }
    if k in WantedKeys(v, want, table) {
      var j :| 0 <= j < |table| && want(table[j]) && v.key(table[j]) == k;
      FilteredKeeps(want, table, table[j]);
      var i :| 0 <= i < |rows| && rows[i] == table[j];
      assert Keys(v, rows)[i] == k;
    }
  }

  /** Filtering a table that stands newest first is the sorted listing of the wanted keys. */
  lemma FilteredIsSorted<T(!new)>(v: View<T>, want: T -> bool, table: seq<T>)
    requires Indexed(v, table)
    ensures Keys(v, Filtered(want, table)) == Sorted(v.scheme, WantedKeys(v, want, table))
  {
    FilteredIsIndexed(v, want, table);
    forall k ensures k in Keys(v, Filtered(want, table)) <==> k in WantedKeys(v, want, table) {
      KeysOfFiltered(v, want, table, k);
    }
    SortedIsUnique(v.scheme, Keys(v, Filtered(want, table)), WantedKeys(v, want, table));
  }

  // ── One call ──

  lemma KeysBelow<T(!new)>(v: View<T>, want: T -> bool, below: T -> bool, table: seq<T>, token: string)
    requires forall r: T :: below(r) <==> want(r) && Below(v, r, token)
    ensures WantedKeys(v, below, table) == After(v.scheme, WantedKeys(v, want, table), token)
  {
  }

  /** LIMIT size + 1 over the wanted rows below the cursor, cut by the loop, is the page. */
  lemma AnswerIsPage<T(!new)>(v: View<T>, want: T -> bool, table: seq<T>, token: string, size: int, q: Sql)
    requires Indexed(v, table) && size >= 1 && Asks(v, want, token, size, q)
    ensures
      var rows := Answer(v, table, q);
      OneCall(v, want, table, token, size, Cut(rows, size),
              if |rows| > size then v.scheme.encode(v.key(rows[size - 1])) else "")
  {
    var all := Where(v, table, q);
    WhereIsSorted(v, want, table, token, size, q);
    CutIsPage(v, want, table, token, size, all);
    OneExtraRow(all, size);
  }

  /** The rows the query selects are the sorted listing of the wanted keys below the cursor. */
  lemma WhereIsSorted<T(!new)>(v: View<T>, want: T -> bool, table: seq<T>, token: string, size: int, q: Sql)
    requires Indexed(v, table) && size >= 1 && Asks(v, want, token, size, q)
    ensures Keys(v, Where(v, table, q)) == Sorted(v.scheme, After(v.scheme, WantedKeys(v, want, table), token))
    ensures forall r :: r in Where(v, table, q) ==> r in table && want(r)
  {
    var below := (r: T) => want(r) && Below(v, r, token);
    WhereFilters(v, table, q, below);
    FilteredIsSorted(v, below, table);
    KeysBelow(v, want, below, table, token);
    FilteredTwice(want, below, table);
  }

  function Cut<T>(rows: seq<T>, size: int): seq<T>
    requires size >= 1
  {
    if |rows| > size then rows[..size] else rows
  }

  /** LIMIT size + 1 loses nothing the page or its token needs. */
  lemma OneExtraRow<T>(all: seq<T>, size: int)
    requires size >= 1
    ensures
      var rows := Limited(all, Some(VInt(size + 1)));
      && Cut(rows, size) == Cut(all, size)
      && (|rows| > size <==> |all| > size)
      && (|all| > size ==> rows[size - 1] == all[size - 1])
  {
  }

  /** The page of a listing `all` of the rows below the cursor. */
  lemma CutIsPage<T(!new)>(v: View<T>, want: T -> bool, table: seq<T>, token: string, size: int, all: seq<T>)
    requires size >= 1 && Lawful(v.scheme)
    requires Keys(v, all) == Sorted(v.scheme, After(v.scheme, WantedKeys(v, want, table), token))
    requires forall r :: r in all ==> r in table && want(r)
    ensures
      OneCall(v, want, table, token, size, Cut(all, size),
              if |all| > size then v.scheme.encode(v.key(all[size - 1])) else "")
  {
    CutRows(v, all, size);
    SortedPage(v.scheme, WantedKeys(v, want, table), token, size, Keys(v, all));
  }

  lemma CutRows<T(!new)>(v: View<T>, all: seq<T>, size: int)
    requires size >= 1
    ensures
      var page := Cut(all, size);
      && (forall i :: 0 <= i < |page| ==> page[i] in all)
      && Keys(v, page) == Cut(Keys(v, all), size)
      && (|all| > size ==> Keys(v, all)[size - 1] == v.key(all[size - 1]))
  {
  }

  lemma SortedPage(c: Scheme<Position>, s: set<Position>, token: string, size: nat, keys: seq<Position>)
    requires size >= 1 && TotalOrder(c) && keys == Sorted(c, After(c, s, token))
    ensures Page(c, s, token, size) == (Cut(keys, size), if |keys| > size then c.encode(keys[size - 1]) else "")
  {
  }

  const PAYMENTS: View<PaymentRow> := View(OfPayment, (p: PaymentRow) => p.key, ByCreation())

  const SUBSCRIPTIONS: View<SubscriptionRow> := View(OfSubscription, (s: SubscriptionRow) => s.key, ByCreation())

  function WantedBy(o: PaymentOptions): PaymentRow -> bool {
    (p: PaymentRow) => Wanted(o, p)
  }

  function SubscriptionWantedBy(o: SubscriptionOptions): SubscriptionRow -> bool {
    (s: SubscriptionRow) => WantedSubscription(o, s)
  }

  lemma BelowByCreation<T(!new)>(v: View<T>, r: T, token: string)
    requires v.scheme == ByCreation()
    ensures Below(v, r, token) <==> BelowCursor(v.key(r), TokenCursor(token))
  {
  }

  lemma PaymentsAsked(o: PaymentOptions, q: Sql)
    requires SelectsPayments(q, o, TokenCursor(o.pageToken))
    requires WellNumbered(q, PageSize(o.pageSize, true) + 1)
    ensures Asks(PAYMENTS, WantedBy(o), o.pageToken, PageSize(o.pageSize, true), q)
  {
    LimitIsLast(q, PageSize(o.pageSize, true) + 1);
    forall r: PaymentRow
      ensures Eval(q.clause, q.args, PAYMENTS.columns(r)) <==> WantedBy(o)(r) && Below(PAYMENTS, r, o.pageToken)
    {
      BelowByCreation(PAYMENTS, r, o.pageToken);
    }
  }

  lemma SubscriptionsAsked(o: SubscriptionOptions, q: Sql)
    requires SelectsSubscriptions(q, o, TokenCursor(o.pageToken))
    requires WellNumbered(q, PageSize(o.pageSize, false) + 1)
    ensures Asks(SUBSCRIPTIONS, SubscriptionWantedBy(o), o.pageToken, PageSize(o.pageSize, false), q)
  {
    LimitIsLast(q, PageSize(o.pageSize, false) + 1);
    forall r: SubscriptionRow
      ensures Eval(q.clause, q.args, SUBSCRIPTIONS.columns(r)) <==>
        SubscriptionWantedBy(o)(r) && Below(SUBSCRIPTIONS, r, o.pageToken)
    {
      BelowByCreation(SUBSCRIPTIONS, r, o.pageToken);
    }
  }

  lemma LimitIsLast(q: Sql, limit: int)
    requires WellNumbered(q, limit)
    ensures Arg(q.args, q.limit) == Some(VInt(limit))
  {
    var n := |q.args|;
    assert (Placeholders(q.clause) + [q.limit])[n - 1] == q.limit;
    assert UpTo(n)[n - 1] == n;
  }

  /** PaymentRepo.List: decode the token, build the query, read the answer, name the next page. */
  method ListPayments(table: seq<PaymentRow>, o: PaymentOptions) returns (page: seq<PaymentRow>, next: string)
    requires Indexed(PAYMENTS, table)
    ensures OneCall(PAYMENTS, WantedBy(o), table, o.pageToken, PageSize(o.pageSize, true), page, next)
  {
    var size := PageSize(o.pageSize, true);
    var q := BuildPaymentQuery(o);
    PaymentsAsked(o, q);
    AnswerIsPage(PAYMENTS, WantedBy(o), table, o.pageToken, size, q);
    page, next := List((p: PaymentRow) => Token(p.key), size, Answer(PAYMENTS, table, q));
  }

  /** SubscriptionRepo.List */
  method ListSubscriptions(table: seq<SubscriptionRow>, o: SubscriptionOptions)
    returns (page: seq<SubscriptionRow>, next: string)
    requires Indexed(SUBSCRIPTIONS, table)
    ensures OneCall(SUBSCRIPTIONS, SubscriptionWantedBy(o), table, o.pageToken, PageSize(o.pageSize, false), page, next)
  {
    var size := PageSize(o.pageSize, false);
    var q := BuildSubscriptionQuery(o);
    SubscriptionsAsked(o, q);
    AnswerIsPage(SUBSCRIPTIONS, SubscriptionWantedBy(o), table, o.pageToken, size, q);
    page, next := List((s: SubscriptionRow) => Token(s.key), size, Answer(SUBSCRIPTIONS, table, q));
  }

  // ── Following the tokens ──

  /** A client that calls with the empty token, then with each token it gets until none comes;
      tables[i] is the table during call i: rows may be inserted, updated and deleted in between. */
  ghost predicate Followed<T(!new)>(
    v: View<T>, want: T -> bool, size: int, tables: seq<seq<T>>, tokens: seq<string>, pages: seq<seq<T>>)
  {
    && |pages| == |tables| >= 1 && |tokens| == |tables| + 1 && tokens[0] == "" == tokens[|tables|]
    && (forall i :: 0 < i < |tables| ==> tokens[i] != "")
    && (forall i :: 0 <= i < |tables| ==> Indexed(v, tables[i]) && Nameable(v, tables[i]))
    && (forall i :: 0 <= i < |tables| ==> OneCall(v, want, tables[i], tokens[i], size, pages[i], tokens[i + 1]))
  }

  /** The key is that of a wanted row during every call, whatever else changes in the row. */
  ghost predicate WantedThroughout<T(!new)>(v: View<T>, want: T -> bool, tables: seq<seq<T>>, k: Position) {
    forall i :: 0 <= i < |tables| ==> k in WantedKeys(v, want, tables[i])
  }

  ghost predicate Throughout<T(!new)>(tables: seq<seq<T>>, r: T) {
    forall i :: 0 <= i < |tables| ==> r in tables[i]
  }

  ghost predicate Once<T(!new)>(tables: seq<seq<T>>, r: T) {
    exists i :: 0 <= i < |tables| && r in tables[i]
  }

  ghost function KeySets<T(!new)>(v: View<T>, want: T -> bool, tables: seq<seq<T>>): (sets: seq<set<Position>>)
    ensures |sets| == |tables|
    ensures forall i :: 0 <= i < |tables| ==> sets[i] == WantedKeys(v, want, tables[i])
  {
    seq(|tables|, i requires 0 <= i < |tables| => WantedKeys(v, want, tables[i]))
  }

  ghost function KeyPages<T(!new)>(v: View<T>, pages: seq<seq<T>>): (keys: seq<seq<Position>>)
    ensures |keys| == |pages| && forall i :: 0 <= i < |pages| ==> keys[i] == Keys(v, pages[i])
  {
    seq(|pages|, i requires 0 <= i < |pages| => Keys(v, pages[i]))
  }

  /** In keys it is a session of the keyset scheme. */
  lemma FollowedIsSession<T(!new)>(
    v: View<T>, want: T -> bool, size: int, tables: seq<seq<T>>, tokens: seq<string>, pages: seq<seq<T>>)
    requires Followed(v, want, size, tables, tokens, pages)
    ensures size >= 1 && Session(v.scheme, KeySets(v, want, tables), size, tokens, KeyPages(v, pages))
  {
    var sets, keys := KeySets(v, want, tables), KeyPages(v, pages);
    assert OneCall(v, want, tables[0], tokens[0], size, pages[0], tokens[0 + 1]);
    forall i | 0 <= i < |sets| ensures (keys[i], tokens[i + 1]) == Page(v.scheme, sets[i], tokens[i], size) {
      assert OneCall(v, want, tables[i], tokens[i], size, pages[i], tokens[i + 1]);
    }
    forall i, p | 0 <= i < |sets| && p in sets[i] ensures v.scheme.ok(p) {
      assert Indexed(v, tables[i]) && Nameable(v, tables[i]);
    }
  }

  lemma {:induction false} KeysOfConcat<T(!new)>(v: View<T>, pages: seq<seq<T>>)
    ensures Keys(v, Concat(pages)) == Concat(KeyPages(v, pages))
  {
    if pages != [] {
      var q := pages[..|pages| - 1];
      KeysOfConcat(v, q);
      assert KeyPages(v, pages)[..|pages| - 1] == KeyPages(v, q);
      assert Keys(v, Concat(q) + pages[|q|]) == Keys(v, Concat(q)) + Keys(v, pages[|q|]);
    }
  }

  lemma {:induction false} InSomePage<T(!new)>(pages: seq<seq<T>>, r: T) returns (i: nat)
    requires r in Concat(pages)
    ensures i < |pages| && r in pages[i]
  {
    if r in pages[|pages| - 1] {
      i := |pages| - 1;
    } else {
      i := InSomePage(pages[..|pages| - 1], r);
    }
  }

  /** Every row returned was a wanted row of the table during some call. */
  lemma ReturnedRow<T(!new)>(
    v: View<T>, want: T -> bool, size: int, tables: seq<seq<T>>, tokens: seq<string>, pages: seq<seq<T>>, r: T)
    returns (i: nat)
    requires Followed(v, want, size, tables, tokens, pages) && r in Concat(pages)
    ensures i < |tables| && r in tables[i] && want(r)
  {
    i := InSomePage(pages, r);
    assert OneCall(v, want, tables[i], tokens[i], size, pages[i], tokens[i + 1]);
    var j :| 0 <= j < |pages[i]| && pages[i][j] == r;
  }

  lemma KeysDiffer<T(!new)>(v: View<T>, table: seq<T>)
    requires Indexed(v, table)
    ensures forall i, j :: 0 <= i < j < |table| ==> v.key(table[i]) != v.key(table[j])
  {
    var keys := Keys(v, table);
    forall i, j | 0 <= i < j < |table| ensures v.key(table[i]) != v.key(table[j]) {
      assert v.scheme.less(keys[j], keys[i]);
    }
  }

  lemma OneRowPerKey<T(!new)>(v: View<T>, table: seq<T>, r: T, s: T)
    requires Indexed(v, table) && r in table && s in table && v.key(r) == v.key(s)
    ensures r == s
  {
    KeysDiffer(v, table);
  }

  lemma KeyOfWanted<T(!new)>(v: View<T>, want: T -> bool, table: seq<T>, r: T)
    requires r in table && want(r)
    ensures v.key(r) in WantedKeys(v, want, table)
  {
    var i :| 0 <= i < |table| && table[i] == r;
  }

  /** A row that was there unchanged during every call is returned as it is. */
  lemma NotMissed<T(!new)>(
    v: View<T>, want: T -> bool, size: int, tables: seq<seq<T>>, tokens: seq<string>, pages: seq<seq<T>>, r: T)
    requires Followed(v, want, size, tables, tokens, pages) && Throughout(tables, r)
    requires v.key(r) in Keys(v, Concat(pages))
    ensures r in Concat(pages)
  {
    var all := Concat(pages);
    var j :| 0 <= j < |all| && Keys(v, all)[j] == v.key(r);
    var i := ReturnedRow(v, want, size, tables, tokens, pages, all[j]);
    assert Indexed(v, tables[i]);
    OneRowPerKey(v, tables[i], all[j], r);
  }

  ghost function AllKeys(sets: seq<set<Position>>): (seen: set<Position>)
    ensures forall i :: 0 <= i < |sets| ==> sets[i] <= seen
  {
    if sets == [] then {} else AllKeys(sets[..|sets| - 1]) + sets[|sets| - 1]
  }

  lemma KeysNotMissed<T(!new)>(
    v: View<T>, want: T -> bool, size: int, tables: seq<seq<T>>, tokens: seq<string>, pages: seq<seq<T>>)
    requires Followed(v, want, size, tables, tokens, pages)
    ensures Descending(v.scheme, Keys(v, Concat(pages)))
    ensures forall i, j :: 0 <= i < j < |Concat(pages)| ==> Keys(v, Concat(pages))[i] != Keys(v, Concat(pages))[j]
    ensures forall k :: WantedThroughout(v, want, tables, k) ==> k in Keys(v, Concat(pages))
  {
    var sets := KeySets(v, want, tables);
    var kept := set k | k in sets[0] && WantedThroughout(v, want, tables, k);
    FollowedIsSession(v, want, size, tables, tokens, pages);
    KeysOfConcat(v, pages);
    SessionMissesNothing(v.scheme, kept, AllKeys(sets), sets, size, tokens, KeyPages(v, pages));
    forall k | WantedThroughout(v, want, tables, k) ensures k in Keys(v, Concat(pages)) {
      assert k in WantedKeys(v, want, tables[0]);
    }
  }

  /** Whatever happens to the table between the calls: newest first and no row twice; every row whose
      key is wanted during every call is returned, as it is if it did not change; and only rows that
      were there and wanted during some call. */
  lemma ListingMissesNothing<T(!new)>(
    v: View<T>, want: T -> bool, size: int, tables: seq<seq<T>>, tokens: seq<string>, pages: seq<seq<T>>)
    requires Followed(v, want, size, tables, tokens, pages)
    ensures
      var all := Concat(pages);
      && (forall i, j :: 0 <= i < j < |all| ==>
           v.scheme.less(v.key(all[j]), v.key(all[i])) && v.key(all[i]) != v.key(all[j]))
      && (forall k :: WantedThroughout(v, want, tables, k) ==> k in Keys(v, all))
      && (forall r :: Throughout(tables, r) && want(r) ==> r in all)
      && (forall r :: r in all ==> Once(tables, r) && want(r))
  {
    var all := Concat(pages);
    KeysNotMissed(v, want, size, tables, tokens, pages);
    var keys := Keys(v, all);
    forall i, j | 0 <= i < j < |all|
      ensures v.scheme.less(v.key(all[j]), v.key(all[i])) && v.key(all[i]) != v.key(all[j])
    {
      assert v.scheme.less(keys[j], keys[i]) && keys[i] != keys[j];
    }
    forall r | Throughout(tables, r) && want(r) ensures r in all {
      forall i | 0 <= i < |tables| ensures v.key(r) in WantedKeys(v, want, tables[i]) {
        KeyOfWanted(v, want, tables[i], r);
      }
      assert WantedThroughout(v, want, tables, v.key(r));
      NotMissed(v, want, size, tables, tokens, pages, r);
    }
    forall r | r in all ensures Once(tables, r) && want(r) {
      var i := ReturnedRow(v, want, size, tables, tokens, pages, r);
    }
  }

  /** n rows in pages of this size take max(1, ceil(n / size)) calls. */
  predicate Calls(calls: nat, n: nat, size: int) {
    n <= calls * size && (calls == 1 || (calls - 1) * size < n)
  }

  lemma SameRows<T(!new)>(v: View<T>, table: seq<T>, a: seq<T>, b: seq<T>)
    requires Indexed(v, table) && Keys(v, a) == Keys(v, b)
    requires (forall r :: r in a ==> r in table) && (forall r :: r in b ==> r in table)
    ensures a == b
  {
    assert |a| == |Keys(v, a)| == |b|;
    forall i | 0 <= i < |a| ensures a[i] == b[i] {
      assert Keys(v, a)[i] == Keys(v, b)[i];
      OneRowPerKey(v, table, a[i], b[i]);
    }
  }

  lemma SortedPages<T(!new)>(
    v: View<T>, want: T -> bool, size: nat, table: seq<T>, sets: seq<set<Position>>, tokens: seq<string>,
    pages: seq<seq<T>>)
    requires Indexed(v, table) && Session(v.scheme, sets, size, tokens, KeyPages(v, pages)) && tokens[|sets|] == ""
    requires forall i :: 0 <= i < |sets| ==> sets[i] == WantedKeys(v, want, table)
    ensures Keys(v, Concat(pages)) == Keys(v, Filtered(want, table))
    ensures Calls(|sets|, |Filtered(want, table)|, size)
  {
    KeysOfConcat(v, pages);
    PagesReassemble(v.scheme, sets, size, tokens, KeyPages(v, pages), WantedKeys(v, want, table));
    FilteredIsSorted(v, want, table);
  }

  lemma KeysReassemble<T(!new)>(
    v: View<T>, want: T -> bool, size: int, table: seq<T>, tables: seq<seq<T>>, tokens: seq<string>, pages: seq<seq<T>>)
    requires Followed(v, want, size, tables, tokens, pages)
    requires forall i :: 0 <= i < |tables| ==> tables[i] == table
    ensures Keys(v, Concat(pages)) == Keys(v, Filtered(want, table))
    ensures Calls(|pages|, |Filtered(want, table)|, size)
  {
    FollowedIsSession(v, want, size, tables, tokens, pages);
    assert tables[0] == table && Indexed(v, tables[0]);
    SortedPages(v, want, size, table, KeySets(v, want, tables), tokens, pages);
  }

  /** On a table nobody writes the pages joined are the whole filtered table, newest first, in
      max(1, ceil(n / size)) calls. */
  lemma ListingReassembles<T(!new)>(
    v: View<T>, want: T -> bool, size: int, table: seq<T>, tables: seq<seq<T>>, tokens: seq<string>, pages: seq<seq<T>>)
    requires Followed(v, want, size, tables, tokens, pages)
    requires forall i :: 0 <= i < |tables| ==> tables[i] == table
    ensures Concat(pages) == Filtered(want, table)
    ensures Calls(|pages|, |Filtered(want, table)|, size)
  {
    KeysReassemble(v, want, size, table, tables, tokens, pages);
    forall r | r in Concat(pages) ensures r in table {
      var i := ReturnedRow(v, want, size, tables, tokens, pages, r);
    }
    forall r | r in Filtered(want, table) ensures r in table {
      FilteredKeeps(want, table, r);
    }
    assert tables[0] == table && Indexed(v, tables[0]);
    SameRows(v, table, Concat(pages), Filtered(want, table));
  }

  /** For the payments: any options, any table, any changes between the calls. A payment settled
      meanwhile is returned once, like any whose (created_at, id) stays wanted. */
  lemma PaymentsListed(
    o: PaymentOptions, tables: seq<seq<PaymentRow>>, tokens: seq<string>, pages: seq<seq<PaymentRow>>)
    requires Followed(PAYMENTS, WantedBy(o), PageSize(o.pageSize, true), tables, tokens, pages)
    ensures
      var all := Concat(pages);
      && (forall i, j :: 0 <= i < j < |all| ==> Before(all[j].key, all[i].key) && all[i].key != all[j].key)
      && (forall k :: WantedThroughout(PAYMENTS, WantedBy(o), tables, k) ==> k in Keys(PAYMENTS, all))
      && (forall p :: Throughout(tables, p) && Wanted(o, p) ==> p in all)
      && (forall p :: p in all ==> Once(tables, p) && Wanted(o, p))
    ensures (forall i :: 0 <= i < |tables| ==> tables[i] == tables[0]) ==>
      && Concat(pages) == Filtered(WantedBy(o), tables[0])
      && Calls(|pages|, |Concat(pages)|, PageSize(o.pageSize, true))
  {
    ListingMissesNothing(PAYMENTS, WantedBy(o), PageSize(o.pageSize, true), tables, tokens, pages);
    if forall i :: 0 <= i < |tables| ==> tables[i] == tables[0] {
      ListingReassembles(PAYMENTS, WantedBy(o), PageSize(o.pageSize, true), tables[0], tables, tokens, pages);
    }
  }

  /** And for the subscriptions. */
  lemma SubscriptionsListed(
    o: SubscriptionOptions, tables: seq<seq<SubscriptionRow>>, tokens: seq<string>, pages: seq<seq<SubscriptionRow>>)
    requires Followed(SUBSCRIPTIONS, SubscriptionWantedBy(o), PageSize(o.pageSize, false), tables, tokens, pages)
    ensures
      var all := Concat(pages);
      && (forall i, j :: 0 <= i < j < |all| ==> Before(all[j].key, all[i].key) && all[i].key != all[j].key)
      && (forall k ::
           WantedThroughout(SUBSCRIPTIONS, SubscriptionWantedBy(o), tables, k) ==> k in Keys(SUBSCRIPTIONS, all))
      && (forall s :: Throughout(tables, s) && WantedSubscription(o, s) ==> s in all)
      && (forall s :: s in all ==> Once(tables, s) && WantedSubscription(o, s))
    ensures (forall i :: 0 <= i < |tables| ==> tables[i] == tables[0]) ==>
      && Concat(pages) == Filtered(SubscriptionWantedBy(o), tables[0])
      && Calls(|pages|, |Concat(pages)|, PageSize(o.pageSize, false))
  {
    ListingMissesNothing(SUBSCRIPTIONS, SubscriptionWantedBy(o), PageSize(o.pageSize, false), tables, tokens, pages);
    if forall i :: 0 <= i < |tables| ==> tables[i] == tables[0] {
      ListingReassembles(
        SUBSCRIPTIONS, SubscriptionWantedBy(o), PageSize(o.pageSize, false), tables[0], tables, tokens, pages);
    }
  }
}
