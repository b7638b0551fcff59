/** The order, the tokens and the page sizes of the List methods of the payment, member, plan and
    subscription repositories: pages by (created_at, id). */
module Pagination {
  import opened Wrappers
  import opened Cursor
  import opened Keyset

  // ── ORDER BY created_at DESC, id DESC ──

  /** Chronological order is the order of the calendar fields, UUID order that of the groups. */
  predicate LexLess(a: seq<nat>, b: seq<nat>)
    requires |a| == |b|
  {
    a != [] && (a[0] < b[0] || (a[0] == b[0] && LexLess(a[1..], b[1..])))
  }

  function TimeFields(t: Civil): (fields: seq<nat>)
    ensures |fields| == 7
  {
    [t.year, t.month, t.day, t.hour, t.minute, t.second, t.nanos]
  }

  function IdFields(u: Uuid): (fields: seq<nat>)
    ensures |fields| == 5
  {
    [u.g1, u.g2, u.g3, u.g4, u.g5]
  }

  predicate Earlier(a: Civil, b: Civil) {
    LexLess(TimeFields(a), TimeFields(b))
  }

  predicate NotLater(a: Civil, b: Civil) {
    a == b || Earlier(a, b)
  }

  predicate Smaller(a: Uuid, b: Uuid) {
    LexLess(IdFields(a), IdFields(b))
  }

  /** (created_at, id) < (created_at, id) */
  predicate Before(p: Position, q: Position) {
    Earlier(p.at, q.at) || (p.at == q.at && Smaller(p.id, q.id))
  }

  lemma {:induction false} LexTransitive(a: seq<nat>, b: seq<nat>, c: seq<nat>)
    requires |a| == |b| == |c| && LexLess(a, b) && LexLess(b, c)
    ensures LexLess(a, c)
  {
    if a[0] == b[0] == c[0] {
      LexTransitive(a[1..], b[1..], c[1..]);
    }
  }

  lemma {:induction false} LexTotal(a: seq<nat>, b: seq<nat>)
    requires |a| == |b|
    ensures a == b || LexLess(a, b) || LexLess(b, a)
    ensures !(LexLess(a, b) && LexLess(b, a))
  {
    if a != [] {
      LexTotal(a[1..], b[1..]);
      assert a == [a[0]] + a[1..] && b == [b[0]] + b[1..];
    }
  }

  lemma EarlierIsTotal(a: Civil, b: Civil)
    ensures a == b || Earlier(a, b) || Earlier(b, a)
    ensures !(Earlier(a, b) && Earlier(b, a))
  {
    var x, y := TimeFields(a), TimeFields(b);
    LexTotal(x, y);
    if x == y {
      assert x[0] == y[0] && x[1] == y[1] && x[2] == y[2] && x[3] == y[3];
      assert x[4] == y[4] && x[5] == y[5] && x[6] == y[6];
    }
  }

  lemma SmallerIsTotal(a: Uuid, b: Uuid)
    ensures a == b || Smaller(a, b) || Smaller(b, a)
    ensures !(Smaller(a, b) && Smaller(b, a))
  {
    var x, y := IdFields(a), IdFields(b);
    LexTotal(x, y);
    if x == y {
      assert x[0] == y[0] && x[1] == y[1] && x[2] == y[2] && x[3] == y[3] && x[4] == y[4];
    }
  }

  lemma BeforeIsTotal(p: Position, q: Position)
    ensures p == q || Before(p, q) || Before(q, p)
    ensures !(Before(p, q) && Before(q, p))
  {
    EarlierIsTotal(p.at, q.at);
    SmallerIsTotal(p.id, q.id);
  }

  lemma BeforeIsTransitive(p: Position, q: Position, r: Position)
    requires Before(p, q) && Before(q, r)
    ensures Before(p, r)
  {
    if Earlier(p.at, q.at) && Earlier(q.at, r.at) {
      LexTransitive(TimeFields(p.at), TimeFields(q.at), TimeFields(r.at));
    } else if Smaller(p.id, q.id) && Smaller(q.id, r.id) {
      LexTransitive(IdFields(p.id), IdFields(q.id), IdFields(r.id));
    }
  }

  // ── Tokens ──

  /** A created_at and id the database can hold, in a year RFC 3339 can write. */
  predicate Printable(p: Position) {
    ValidPosition(p) && p.at.year <= 9999
  }

  function Token(p: Position): string {
    if ValidPosition(p) then EncodeCursor(p) else ""
  }

  function ByCreation(): Scheme<Position> {
    Scheme((p, q) => Before(p, q), Token, DecodeCursor, Printable)
  }

  lemma ByCreationIsOrdered()
    ensures TotalOrder(ByCreation())
  {
    var c := ByCreation();
    forall p, q ensures (p == q || c.less(p, q) || c.less(q, p)) && !(c.less(p, q) && c.less(q, p)) {
      BeforeIsTotal(p, q);
    }
    forall p, q, r | c.less(p, q) && c.less(q, r) ensures c.less(p, r) {
      BeforeIsTransitive(p, q, r);
    }
  }

  /** Tokens name rows, and rows are totally ordered. */
  lemma ByCreationIsLawful()
    ensures Lawful(ByCreation())
  {
    ByCreationIsOrdered();
    var c := ByCreation();
    forall p | c.ok(p) ensures c.encode(p) != "" && c.decode(c.encode(p)) == Some(p) {
      CursorRoundTrip(p);
    }
  }

  // ── Page sizes ──

  predicate InRange(requested: int, capped: bool) {
    1 <= requested && (capped ==> requested <= 100)
  }

  /** A page size in range is kept, any other becomes 20; only the payments listing has an upper
      bound. */
  function PageSize(requested: int, capped: bool): (n: int)
    ensures InRange(n, capped)
    ensures InRange(requested, capped) ==> n == requested
    ensures !InRange(requested, capped) ==> n == 20
  {
    if requested <= 0 || (capped && requested > 100) then 20 else requested
  }
}
