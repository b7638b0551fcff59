/** The SQL filter builders of the List methods: options become a conjunction with numbered
    placeholders and an argument list (payment_repo.go counts with idx, subscription_repo.go with
    len(args)). The clause is kept as its parsed form, one condition per AND. */
module Filters {
  import opened Wrappers
  import opened Cursor
  import opened Pagination
  import Keyset

  datatype Column =
    | TenantId | MemberId | SubscriptionId | PlanId | Status | Method | Currency | GrossAmount | OrderId
    | CreatedAt | RowId

  datatype Value = VUuid(id: Uuid) | VText(text: string) | VTexts(texts: seq<string>) | VInt(n: int) | VTime(t: Civil)

  datatype Op = Eq | AtLeast | AtMost

  /** One condition of the clause; placeholders count from 1. */
  datatype Cond =
    | Compare(column: Column, op: Op, ph: int)
    | AnyOf(column: Column, ph: int)
      /** (created_at, id) < ($ph, $ph+1) */
    | Below(ph: int, phId: int)

  /** A row as the database compares it; None is NULL. */
  type Row = Column -> Option<Value>

  // ── Evaluating a clause with its arguments ──

  function Arg(args: seq<Value>, ph: int): Option<Value> {
    if 1 <= ph <= |args| then Some(args[ph - 1]) else None
  }

  /** A comparison with NULL, or of two types, selects nothing. */
  predicate Holds(op: Op, left: Option<Value>, right: Option<Value>) {
    && left.Some? && right.Some?
    && match op
       case Eq => left == right && !left.value.VTexts?
       case AtLeast =>
         || (left.value.VInt? && right.value.VInt? && left.value.n >= right.value.n)
         || (left.value.VTime? && right.value.VTime? && NotLater(right.value.t, left.value.t))
       case AtMost =>
         || (left.value.VInt? && right.value.VInt? && left.value.n <= right.value.n)
         || (left.value.VTime? && right.value.VTime? && NotLater(left.value.t, right.value.t))
  }

  predicate HoldsAny(left: Option<Value>, right: Option<Value>) {
    left.Some? && right.Some? && left.value.VText? && right.value.VTexts? && left.value.text in right.value.texts
  }

  predicate HoldsBelow(at: Option<Value>, id: Option<Value>, at': Option<Value>, id': Option<Value>) {
    && at.Some? && id.Some? && at'.Some? && id'.Some?
    && at.value.VTime? && at'.value.VTime? && id.value.VUuid? && id'.value.VUuid?
    && Before(Position(at.value.t, id.value.id), Position(at'.value.t, id'.value.id))
  }

  predicate EvalCond(c: Cond, args: seq<Value>, row: Row) {
    match c
    case Compare(column, op, ph) => Holds(op, row(column), Arg(args, ph))
    case AnyOf(column, ph) => HoldsAny(row(column), Arg(args, ph))
    case Below(ph, phId) => HoldsBelow(row(CreatedAt), row(RowId), Arg(args, ph), Arg(args, phId))
  }

  predicate Eval(clause: seq<Cond>, args: seq<Value>, row: Row) {
    forall i :: 0 <= i < |clause| ==> EvalCond(clause[i], args, row)
  }

  function Placeholders(clause: seq<Cond>): seq<int> {
    if clause == [] then []
    else Placeholders(clause[..|clause| - 1]) + PlaceholdersOf(clause[|clause| - 1])
  }

  function PlaceholdersOf(c: Cond): seq<int> {
    match c
    case Compare(_, _, ph) => [ph]
    case AnyOf(_, ph) => [ph]
    case Below(ph, phId) => [ph, phId]
  }

  function UpTo(n: nat): (s: seq<int>)
    ensures |s| == n
  {
    seq(n, i => i + 1)
  }

  // ── A condition that already holds its value ──

  datatype Bound =
    | BCompare(column: Column, op: Op, value: Value)
    | BAnyOf(column: Column, texts: seq<string>)
    | BBelow(at: Civil, id: Uuid)

  predicate EvalBound(b: Bound, row: Row) {
    match b
    case BCompare(column, op, value) => Holds(op, row(column), Some(value))
    case BAnyOf(column, texts) => HoldsAny(row(column), Some(VTexts(texts)))
    case BBelow(at, id) => HoldsBelow(row(CreatedAt), row(RowId), Some(VTime(at)), Some(VUuid(id)))
  }

  /** The options of a listing in the order the builder looks at them; one that is not given
      asks for nothing. */
  datatype Filter = Everything | And(rest: Filter, given: bool, bound: Bound)

  predicate Matches(f: Filter, row: Row) {
    f.Everything? || (Matches(f.rest, row) && (f.given ==> EvalBound(f.bound, row)))
  }

  /** The condition whose first placeholder is idx. */
  function Numbered(b: Bound, idx: int): Cond {
    match b
    case BCompare(column, op, _) => Compare(column, op, idx)
    case BAnyOf(column, _) => AnyOf(column, idx)
    case BBelow(_, _) => Below(idx, idx + 1)
  }

  function ArgsOf(b: Bound): seq<Value> {
    match b
    case BCompare(_, _, value) => [value]
    case BAnyOf(_, texts) => [VTexts(texts)]
    case BBelow(at, id) => [VTime(at), VUuid(id)]
  }

  /** The clause and the arguments so far say exactly what the filter asks, and use the
      placeholders 1, 2, ... once each and in order. */
  ghost predicate Says(clause: seq<Cond>, args: seq<Value>, f: Filter) {
    && Placeholders(clause) == UpTo(|args|)
    && (forall i :: 0 <= i < |clause| ==> PlaceholdersBelow(clause[i], |args|))
    && forall row: Row :: Eval(clause, args, row) <==> Matches(f, row)
  }

  predicate PlaceholdersBelow(c: Cond, n: int) {
    match c
    case Compare(_, _, ph) => 1 <= ph <= n
    case AnyOf(_, ph) => 1 <= ph <= n
    case Below(ph, phId) => 1 <= ph <= n && 1 <= phId <= n
  }

  lemma NothingSaid()
    ensures Says([], [], Everything)
  {
  }

  lemma MoreArgsDoNotMatter(c: Cond, args: seq<Value>, more: seq<Value>, row: Row)
    requires PlaceholdersBelow(c, |args|)
    ensures EvalCond(c, args + more, row) <==> EvalCond(c, args, row)
  {
  }

  lemma NumberedMeansBound(b: Bound, args: seq<Value>, row: Row)
    ensures EvalCond(Numbered(b, |args| + 1), args + ArgsOf(b), row) <==> EvalBound(b, row)
  {
  }

  lemma PlaceholdersAppend(clause: seq<Cond>, c: Cond)
    ensures Placeholders(clause + [c]) == Placeholders(clause) + PlaceholdersOf(c)
  {
    assert (clause + [c])[..|clause|] == clause;
  }

  lemma EvalAppend(clause: seq<Cond>, args: seq<Value>, f: Filter, b: Bound, row: Row)
    requires Says(clause, args, f)
    ensures Eval(clause + [Numbered(b, |args| + 1)], args + ArgsOf(b), row) <==> Matches(And(f, true, b), row)
  {
    var c, more := Numbered(b, |args| + 1), args + ArgsOf(b);
    forall i | 0 <= i < |clause| ensures EvalCond(clause[i], more, row) <==> EvalCond(clause[i], args, row) {
      MoreArgsDoNotMatter(clause[i], args, ArgsOf(b), row);
    }
    NumberedMeansBound(b, args, row);
    var clause' := clause + [c];
    assert forall i :: 0 <= i < |clause| ==> clause'[i] == clause[i];
    assert clause'[|clause|] == c;
    assert Eval(clause', more, row) <==> Eval(clause, args, row) && EvalCond(c, more, row);
  }

  /** One more condition, numbered with the next free placeholder. */
  lemma SaysMore(clause: seq<Cond>, args: seq<Value>, f: Filter, b: Bound)
    requires Says(clause, args, f)
    ensures Says(clause + [Numbered(b, |args| + 1)], args + ArgsOf(b), And(f, true, b))
  {
    var c := Numbered(b, |args| + 1);
    PlaceholdersAppend(clause, c);
    forall row: Row ensures Eval(clause + [c], args + ArgsOf(b), row) <==> Matches(And(f, true, b), row) {
      EvalAppend(clause, args, f, b, row);
    }
  }

  // ── Compiling a filter ──

  function Compile(f: Filter): (seq<Cond>, seq<Value>) {
    match f
    case Everything => ([], [])
    case And(rest, given, b) =>
      var (clause, args) := Compile(rest);
      if given then (clause + [Numbered(b, |args| + 1)], args + ArgsOf(b)) else (clause, args)
  }

  /** The way of payment_repo.go and member_repo.go: idx is the next free placeholder. */
  function CountingIdx(f: Filter): (seq<Cond>, seq<Value>, int) {
    match f
    case Everything => ([], [], 1)
    case And(rest, given, b) =>
      var (clause, args, idx) := CountingIdx(rest);
      if !given then (clause, args, idx)
      else (clause + [Numbered(b, idx)], args + ArgsOf(b), idx + if b.BBelow? then 2 else 1)
  }

  /** The way of subscription_repo.go: the arguments are appended first, and then counted. */
  function CountingArgs(f: Filter): (seq<Cond>, seq<Value>) {
    match f
    case Everything => ([], [])
    case And(rest, given, b) =>
      var (clause, args) := CountingArgs(rest);
      if !given then (clause, args)
      else
        var more := args + ArgsOf(b);
        (clause + [if b.BBelow? then Below(|more| - 1, |more|) else Numbered(b, |more|)], more)
  }

  /** Both ways of counting give the same clause, arguments and numbers to the same options, and
      idx is always one more than the arguments. */
  lemma {:induction false} SameNumbering(f: Filter)
    ensures CountingIdx(f) == (Compile(f).0, Compile(f).1, |Compile(f).1| + 1)
    ensures CountingArgs(f) == Compile(f)
  {
    if f.And? {
      SameNumbering(f.rest);
    }
  }

  lemma CompileOne(b: Bound)
    ensures Compile(And(Everything, true, b)) == ([Numbered(b, 1)], ArgsOf(b))
  {
    assert Compile(Everything) == ([], []);
    assert [] + [Numbered(b, 1)] == [Numbered(b, 1)] && [] + ArgsOf(b) == ArgsOf(b);
  }

  /** The numbered clause with its arguments is the conjunction of the options that are given. */
  lemma {:induction false} CompileSays(f: Filter)
    ensures Says(Compile(f).0, Compile(f).1, f)
  {
    match f
    case Everything => NothingSaid();
    case And(rest, given, b) =>
      CompileSays(rest);
      SaysMore(Compile(rest).0, Compile(rest).1, rest, b);
      assert forall row: Row :: Matches(And(rest, true, b), row) <==> Matches(rest, row) && EvalBound(b, row);
  }

  /** The query as it is sent: the clause, the arguments with LIMIT's last, LIMIT's placeholder. */
  datatype Sql = Sql(clause: seq<Cond>, args: seq<Value>, limit: int)

  /** The placeholders 1, 2, ... appear once each and in order, LIMIT's last. */
  ghost predicate WellNumbered(q: Sql, limit: int) {
    && Placeholders(q.clause) + [q.limit] == UpTo(|q.args|)
    && q.args != [] && q.args[|q.args| - 1] == VInt(limit)
  }

  function WithLimit(f: Filter, limit: int): Sql {
    Sql(Compile(f).0, Compile(f).1 + [VInt(limit)], |Compile(f).1| + 1)
  }

  lemma LimitDoesNotMatter(clause: seq<Cond>, args: seq<Value>, limit: Value, row: Row)
    requires forall i :: 0 <= i < |clause| ==> PlaceholdersBelow(clause[i], |args|)
    ensures Eval(clause, args + [limit], row) <==> Eval(clause, args, row)
  {
    forall i | 0 <= i < |clause| ensures EvalCond(clause[i], args + [limit], row) <==> EvalCond(clause[i], args, row) {
      MoreArgsDoNotMatter(clause[i], args, [limit], row);
    }
  }

  lemma WithLimitSays(f: Filter, limit: int, row: Row)
    ensures
      var q := WithLimit(f, limit);
      WellNumbered(q, limit) && (Eval(q.clause, q.args, row) <==> Matches(f, row))
  {
    CompileSays(f);
    LimitDoesNotMatter(Compile(f).0, Compile(f).1, VInt(limit), row);
  }

  function OrElse<T>(x: Option<T>, other: T): T {
    if x.Some? then x.value else other
  }

  // ── Page tokens ──

  /** The position a page token names; None when it is empty or malformed, and then the token is
      ignored. */
  function TokenCursor(token: string): Option<Position> {
    if token == "" then None else DecodeCursor(token)
  }

  const NIL: Uuid := Uuid(0, 0, 0, 0, 0)
  const YEAR_ZERO: Civil := Civil(0, 0, 0, 0, 0, 0, 0)
  const ORIGIN: Position := Position(YEAR_ZERO, NIL)

  predicate BelowCursor(p: Position, cursor: Option<Position>) {
    cursor.Some? ==> Before(p, cursor.value)
  }

  // ── The payments listing ──

  /** ListPaymentsOptions. */
  datatype PaymentOptions = PaymentOptions(
    tenant: Uuid, member: Option<Uuid>, subscription: Option<Uuid>, statuses: seq<string>, methods: seq<string>,
    currency: string, amountMin: Option<int>, amountMax: Option<int>, orderId: string,
    from: Option<Civil>, until: Option<Civil>, pageToken: string, pageSize: int)

  /** key is (created_at, id). */
  datatype PaymentRow = PaymentRow(
    key: Position, tenant: Uuid, member: Uuid, subscription: Option<Uuid>, status: string, payMethod: string,
    currency: string, gross: int, orderId: Option<string>)

  function OfPayment(p: PaymentRow): Row {
    (c: Column) =>
      match c
      case TenantId => Some(VUuid(p.tenant))
      case MemberId => Some(VUuid(p.member))
      case SubscriptionId => if p.subscription.Some? then Some(VUuid(p.subscription.value)) else None
      case Status => Some(VText(p.status))
      case Method => Some(VText(p.payMethod))
      case Currency => Some(VText(p.currency))
      case GrossAmount => Some(VInt(p.gross))
      case OrderId => if p.orderId.Some? then Some(VText(p.orderId.value)) else None
      case CreatedAt => Some(VTime(p.key.at))
      case RowId => Some(VUuid(p.key.id))
      case PlanId => None
  }

  /** What the options ask of a payment, whatever the page. */
  predicate Wanted(o: PaymentOptions, p: PaymentRow) {
    && p.tenant == o.tenant
    && (o.member.Some? ==> p.member == o.member.value)
    && (o.subscription.Some? ==> p.subscription == o.subscription)
    && (o.statuses != [] ==> p.status in o.statuses)
    && (o.methods != [] ==> p.payMethod in o.methods)
    && (o.currency != "" ==> p.currency == o.currency)
    && (o.amountMin.Some? ==> o.amountMin.value <= p.gross)
    && (o.amountMax.Some? ==> p.gross <= o.amountMax.value)
    && (o.orderId != "" ==> p.orderId == Some(o.orderId))
    && (o.from.Some? ==> NotLater(o.from.value, p.key.at))
    && (o.until.Some? ==> NotLater(p.key.at, o.until.value))
  }

  function CursorBound(cursor: Option<Position>): Bound {
    var p := OrElse(cursor, ORIGIN);
    BBelow(p.at, p.id)
  }

  // The options in the builder's order, a few at a time.

  function Owners(o: PaymentOptions): Filter {
    And(And(And(Everything, true, BCompare(TenantId, Eq, VUuid(o.tenant))),
        o.member.Some?, BCompare(MemberId, Eq, VUuid(OrElse(o.member, NIL)))),
        o.subscription.Some?, BCompare(SubscriptionId, Eq, VUuid(OrElse(o.subscription, NIL))))
  }

  function Kinds(o: PaymentOptions): Filter {
    And(And(And(Owners(o),
        |o.statuses| > 0, BAnyOf(Status, o.statuses)),
        |o.methods| > 0, BAnyOf(Method, o.methods)),
        o.currency != "", BCompare(Currency, Eq, VText(o.currency)))
  }

  function Amounts(o: PaymentOptions): Filter {
    And(And(And(Kinds(o),
        o.amountMin.Some?, BCompare(GrossAmount, AtLeast, VInt(OrElse(o.amountMin, 0)))),
        o.amountMax.Some?, BCompare(GrossAmount, AtMost, VInt(OrElse(o.amountMax, 0)))),
        o.orderId != "", BCompare(OrderId, Eq, VText(o.orderId)))
  }

  function PaymentFilter(o: PaymentOptions, cursor: Option<Position>): Filter {
    And(And(And(Amounts(o),
        o.from.Some?, BCompare(CreatedAt, AtLeast, VTime(OrElse(o.from, YEAR_ZERO)))),
        o.until.Some?, BCompare(CreatedAt, AtMost, VTime(OrElse(o.until, YEAR_ZERO)))),
        cursor.Some?, CursorBound(cursor))
  }

  lemma KindsMean(o: PaymentOptions, p: PaymentRow)
    ensures Matches(Kinds(o), OfPayment(p)) <==>
      && p.tenant == o.tenant
      && (o.member.Some? ==> p.member == o.member.value)
      && (o.subscription.Some? ==> p.subscription == o.subscription)
      && (o.statuses != [] ==> p.status in o.statuses)
      && (o.methods != [] ==> p.payMethod in o.methods)
      && (o.currency != "" ==> p.currency == o.currency)
  {
    assert Matches(Owners(o).rest.rest, OfPayment(p)) <==> p.tenant == o.tenant;
    assert Matches(Owners(o), OfPayment(p)) <==>
      && p.tenant == o.tenant
      && (o.member.Some? ==> p.member == o.member.value)
      && (o.subscription.Some? ==> p.subscription == o.subscription);
    assert Matches(Kinds(o).rest.rest, OfPayment(p)) <==>
      Matches(Owners(o), OfPayment(p)) && (o.statuses != [] ==> p.status in o.statuses);
  }

  lemma AmountsMean(o: PaymentOptions, p: PaymentRow)
    ensures Matches(Amounts(o), OfPayment(p)) <==>
      && Matches(Kinds(o), OfPayment(p))
      && (o.amountMin.Some? ==> o.amountMin.value <= p.gross)
      && (o.amountMax.Some? ==> p.gross <= o.amountMax.value)
      && (o.orderId != "" ==> p.orderId == Some(o.orderId))
  {
    assert Matches(Amounts(o).rest.rest, OfPayment(p)) <==>
      Matches(Kinds(o), OfPayment(p)) && (o.amountMin.Some? ==> o.amountMin.value <= p.gross);
  }

  lemma CreatedAtMeans(p: PaymentRow, t: Civil, c: Position)
    ensures EvalBound(BCompare(CreatedAt, AtLeast, VTime(t)), OfPayment(p)) <==> NotLater(t, p.key.at)
    ensures EvalBound(BCompare(CreatedAt, AtMost, VTime(t)), OfPayment(p)) <==> NotLater(p.key.at, t)
    ensures EvalBound(BBelow(c.at, c.id), OfPayment(p)) <==> Before(p.key, c)
  {
  }

  lemma PaymentFilterMeans(o: PaymentOptions, cursor: Option<Position>, p: PaymentRow)
    ensures Matches(PaymentFilter(o, cursor), OfPayment(p)) <==> Wanted(o, p) && BelowCursor(p.key, cursor)
  {
    KindsMean(o, p);
    AmountsMean(o, p);
    CreatedAtMeans(p, OrElse(o.from, YEAR_ZERO), OrElse(cursor, ORIGIN));
    CreatedAtMeans(p, OrElse(o.until, YEAR_ZERO), OrElse(cursor, ORIGIN));
    var f, row := PaymentFilter(o, cursor), OfPayment(p);
    assert f.rest.rest.rest == Amounts(o);
    assert Matches(f.rest.rest, row) <==>
      Matches(Amounts(o), row) && (o.from.Some? ==> EvalBound(f.rest.rest.bound, row));
    assert Matches(f.rest, row) <==> Matches(f.rest.rest, row) && (o.until.Some? ==> EvalBound(f.rest.bound, row));
  }

  /** The clause with its arguments selects exactly the wanted payments below the cursor. */
  ghost predicate SelectsPayments(q: Sql, o: PaymentOptions, cursor: Option<Position>) {
    forall p: PaymentRow :: Eval(q.clause, q.args, OfPayment(p)) <==> Wanted(o, p) && BelowCursor(p.key, cursor)
  }

  lemma PaymentQueryMeans(o: PaymentOptions, cursor: Option<Position>, limit: int)
    ensures
      var q := WithLimit(PaymentFilter(o, cursor), limit);
      WellNumbered(q, limit) && SelectsPayments(q, o, cursor)
  {
    var q := WithLimit(PaymentFilter(o, cursor), limit);
    WithLimitSays(PaymentFilter(o, cursor), limit, (_: Column) => None);
    forall p: PaymentRow
      ensures Eval(q.clause, q.args, OfPayment(p)) <==> Wanted(o, p) && BelowCursor(p.key, cursor)
    {
      WithLimitSays(PaymentFilter(o, cursor), limit, OfPayment(p));
      PaymentFilterMeans(o, cursor, p);
    }
  }

  method AddKinds(o: PaymentOptions, clause0: seq<Cond>, args0: seq<Value>, idx0: int)
    returns (clause: seq<Cond>, args: seq<Value>, idx: int)
    requires Compile(Owners(o)) == (clause0, args0) && idx0 == |args0| + 1
    ensures Compile(Kinds(o)) == (clause, args) && idx == |args| + 1
  {
    clause, args, idx := clause0, args0, idx0;
    if |o.statuses| > 0 {
      clause, args, idx := clause + [AnyOf(Status, idx)], args + [VTexts(o.statuses)], idx + 1;
    }
    assert Compile(Kinds(o).rest.rest) == (clause, args);
    if |o.methods| > 0 {
      clause, args, idx := clause + [AnyOf(Method, idx)], args + [VTexts(o.methods)], idx + 1;
    }
    assert Compile(Kinds(o).rest) == (clause, args);
    if o.currency != "" {
      clause, args, idx := clause + [Compare(Currency, Eq, idx)], args + [VText(o.currency)], idx + 1;
    }
    assert Compile(Kinds(o)) == (clause, args);
  }

  method AddAmounts(o: PaymentOptions, clause0: seq<Cond>, args0: seq<Value>, idx0: int)
    returns (clause: seq<Cond>, args: seq<Value>, idx: int)
    requires Compile(Kinds(o)) == (clause0, args0) && idx0 == |args0| + 1
    ensures Compile(Amounts(o)) == (clause, args) && idx == |args| + 1
  {
    clause, args, idx := clause0, args0, idx0;
    if o.amountMin.Some? {
      clause, args, idx := clause + [Compare(GrossAmount, AtLeast, idx)], args + [VInt(o.amountMin.value)], idx + 1;
    }
    assert Compile(Amounts(o).rest.rest) == (clause, args);
    if o.amountMax.Some? {
      clause, args, idx := clause + [Compare(GrossAmount, AtMost, idx)], args + [VInt(o.amountMax.value)], idx + 1;
    }
    assert Compile(Amounts(o).rest) == (clause, args);
    if o.orderId != "" {
      clause, args, idx := clause + [Compare(OrderId, Eq, idx)], args + [VText(o.orderId)], idx + 1;
    }
    assert Compile(Amounts(o)) == (clause, args);
  }

  method AddDates(o: PaymentOptions, cursor: Option<Position>, clause0: seq<Cond>, args0: seq<Value>, idx0: int)
    returns (clause: seq<Cond>, args: seq<Value>, idx: int)
    requires Compile(Amounts(o)) == (clause0, args0) && idx0 == |args0| + 1
    ensures Compile(PaymentFilter(o, cursor)) == (clause, args) && idx == |args| + 1
  {
    clause, args, idx := clause0, args0, idx0;
    if o.from.Some? {
      clause, args, idx := clause + [Compare(CreatedAt, AtLeast, idx)], args + [VTime(o.from.value)], idx + 1;
    }
    assert Compile(PaymentFilter(o, cursor).rest.rest) == (clause, args);
    if o.until.Some? {
      clause, args, idx := clause + [Compare(CreatedAt, AtMost, idx)], args + [VTime(o.until.value)], idx + 1;
    }
    assert Compile(PaymentFilter(o, cursor).rest) == (clause, args);
    if cursor.Some? {
      clause, args := clause + [Below(idx, idx + 1)], args + [VTime(cursor.value.at), VUuid(cursor.value.id)];
      idx := idx + 2;
    }
    assert Compile(PaymentFilter(o, cursor)) == (clause, args);
  }

  /** The builder that counts with idx = len(args) + 1 (PaymentRepo.List). */
  method BuildPaymentQuery(o: PaymentOptions) returns (q: Sql)
    ensures SelectsPayments(q, o, TokenCursor(o.pageToken))
    ensures WellNumbered(q, PageSize(o.pageSize, true) + 1)
    ensures q == WithLimit(PaymentFilter(o, TokenCursor(o.pageToken)), PageSize(o.pageSize, true) + 1)
  {
    var args := [VUuid(o.tenant)];
    var clause := [Compare(TenantId, Eq, 1)];
    var idx := 2;
    CompileOne(BCompare(TenantId, Eq, VUuid(o.tenant)));
    if o.member.Some? {
      clause, args, idx := clause + [Compare(MemberId, Eq, idx)], args + [VUuid(o.member.value)], idx + 1;
    }
    assert Compile(Owners(o).rest) == (clause, args);
    if o.subscription.Some? {
      clause, args, idx := clause + [Compare(SubscriptionId, Eq, idx)], args + [VUuid(o.subscription.value)], idx + 1;
    }
    clause, args, idx := AddKinds(o, clause, args, idx);
    clause, args, idx := AddAmounts(o, clause, args, idx);
    var cursor := TokenCursor(o.pageToken);
    clause, args, idx := AddDates(o, cursor, clause, args, idx);
    var pageSize := PageSize(o.pageSize, true);
    args := args + [VInt(pageSize + 1)];
    q := Sql(clause, args, idx);
    PaymentQueryMeans(o, cursor, pageSize + 1);
  }

  // ── The cursor condition is the keyset ──

  /** The keys of the rows the query selects. */
  ghost function Selected(rows: set<PaymentRow>, q: Sql): set<Position> {
    set p | p in rows && Eval(q.clause, q.args, OfPayment(p)) :: p.key
  }

  /** With a page token the query selects the rows below the token's cursor among those it selects
      without: the set of which the listing answers a page. */
  lemma CursorIsKeyset(o: PaymentOptions, rows: set<PaymentRow>, q: Sql, all: Sql)
    requires SelectsPayments(all, o, None)
    requires SelectsPayments(q, o, TokenCursor(o.pageToken))
    ensures Selected(rows, q) == Keyset.After(ByCreation(), Selected(rows, all), o.pageToken)
  {
  }

  // ── The subscriptions listing ──

  datatype SubscriptionOptions = SubscriptionOptions(
    tenant: Uuid, member: Option<Uuid>, plan: Option<Uuid>, statuses: seq<string>, pageToken: string, pageSize: int)

  datatype SubscriptionRow = SubscriptionRow(key: Position, tenant: Uuid, member: Uuid, plan: Uuid, status: string)

  function OfSubscription(s: SubscriptionRow): Row {
    (c: Column) =>
      match c
      case TenantId => Some(VUuid(s.tenant))
      case MemberId => Some(VUuid(s.member))
      case PlanId => Some(VUuid(s.plan))
      case Status => Some(VText(s.status))
      case CreatedAt => Some(VTime(s.key.at))
      case RowId => Some(VUuid(s.key.id))
      case _ => None
  }

  predicate WantedSubscription(o: SubscriptionOptions, s: SubscriptionRow) {
    && s.tenant == o.tenant
    && (o.member.Some? ==> s.member == o.member.value)
    && (o.plan.Some? ==> s.plan == o.plan.value)
    && (o.statuses != [] ==> s.status in o.statuses)
  }

  function SubscriptionOwners(o: SubscriptionOptions): Filter {
    And(And(And(Everything, true, BCompare(TenantId, Eq, VUuid(o.tenant))),
        o.member.Some?, BCompare(MemberId, Eq, VUuid(OrElse(o.member, NIL)))),
        o.plan.Some?, BCompare(PlanId, Eq, VUuid(OrElse(o.plan, NIL))))
  }

  function SubscriptionFilter(o: SubscriptionOptions, cursor: Option<Position>): Filter {
    And(And(SubscriptionOwners(o),
        |o.statuses| > 0, BAnyOf(Status, o.statuses)),
        cursor.Some?, CursorBound(cursor))
  }

  lemma SubscriptionFilterMeans(o: SubscriptionOptions, cursor: Option<Position>, s: SubscriptionRow)
    ensures Matches(SubscriptionFilter(o, cursor), OfSubscription(s))
            <==> WantedSubscription(o, s) && BelowCursor(s.key, cursor)
  {
    var f := SubscriptionFilter(o, cursor);
    assert Matches(f.rest.rest.rest.rest, OfSubscription(s)) <==> s.tenant == o.tenant;
    assert Matches(f.rest.rest, OfSubscription(s)) <==>
      && s.tenant == o.tenant
      && (o.member.Some? ==> s.member == o.member.value)
      && (o.plan.Some? ==> s.plan == o.plan.value);
    assert Matches(f.rest, OfSubscription(s)) <==>
      Matches(f.rest.rest, OfSubscription(s)) && (o.statuses != [] ==> s.status in o.statuses);
  }

  ghost predicate SelectsSubscriptions(q: Sql, o: SubscriptionOptions, cursor: Option<Position>) {
    forall s: SubscriptionRow ::
      Eval(q.clause, q.args, OfSubscription(s)) <==> WantedSubscription(o, s) && BelowCursor(s.key, cursor)
  }

  lemma SubscriptionQueryMeans(o: SubscriptionOptions, cursor: Option<Position>, limit: int)
    ensures
      var q := WithLimit(SubscriptionFilter(o, cursor), limit);
      WellNumbered(q, limit) && SelectsSubscriptions(q, o, cursor)
  {
    var q := WithLimit(SubscriptionFilter(o, cursor), limit);
    WithLimitSays(SubscriptionFilter(o, cursor), limit, (_: Column) => None);
    forall s: SubscriptionRow
      ensures Eval(q.clause, q.args, OfSubscription(s)) <==> WantedSubscription(o, s) && BelowCursor(s.key, cursor)
    {
      WithLimitSays(SubscriptionFilter(o, cursor), limit, OfSubscription(s));
      SubscriptionFilterMeans(o, cursor, s);
    }
  }

  method SubscriptionConditions(o: SubscriptionOptions, cursor: Option<Position>)
    returns (clause: seq<Cond>, args: seq<Value>)
    ensures Compile(SubscriptionFilter(o, cursor)) == (clause, args)
  {
    args := [VUuid(o.tenant)];
    clause := [Compare(TenantId, Eq, 1)];
    CompileOne(BCompare(TenantId, Eq, VUuid(o.tenant)));
    if o.member.Some? {
      args := args + [VUuid(o.member.value)];
      clause := clause + [Compare(MemberId, Eq, |args|)];
    }
    assert Compile(SubscriptionOwners(o).rest) == (clause, args);
    if o.plan.Some? {
      args := args + [VUuid(o.plan.value)];
      clause := clause + [Compare(PlanId, Eq, |args|)];
    }
    assert Compile(SubscriptionOwners(o)) == (clause, args);
    if |o.statuses| > 0 {
      args := args + [VTexts(o.statuses)];
      clause := clause + [AnyOf(Status, |args|)];
    }
    assert Compile(SubscriptionFilter(o, cursor).rest) == (clause, args);
    if cursor.Some? {
      args := args + [VTime(cursor.value.at), VUuid(cursor.value.id)];
      clause := clause + [Below(|args| - 1, |args|)];
    }
  }

  /** The builder that counts with len(args) after appending (SubscriptionRepo.List). */
  method BuildSubscriptionQuery(o: SubscriptionOptions) returns (q: Sql)
    ensures SelectsSubscriptions(q, o, TokenCursor(o.pageToken))
    ensures WellNumbered(q, PageSize(o.pageSize, false) + 1)
    ensures q == WithLimit(SubscriptionFilter(o, TokenCursor(o.pageToken)), PageSize(o.pageSize, false) + 1)
  {
    var pageSize := PageSize(o.pageSize, false);
    var cursor := TokenCursor(o.pageToken);
    var clause, args := SubscriptionConditions(o, cursor);
    args := args + [VInt(pageSize + 1)];
    q := Sql(clause, args, |args|);
    SubscriptionQueryMeans(o, cursor, pageSize + 1);
  }
}
