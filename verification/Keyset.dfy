/** Keyset pagination over any total order of rows with a printable cursor: ORDER BY ... DESC,
    a page plus one extra row, and a token that names the last row of the page. */
module Keyset {
  import opened Wrappers

  /** How rows are ordered and how a row's key becomes a token and is read back; `ok` are the
      keys whose token can be read back. */
  datatype Scheme<!K(!new)> = Scheme(
    less: (K, K) -> bool, encode: K -> string, decode: string -> Option<K>, ok: K -> bool)

  ghost predicate TotalOrder<K(!new)>(c: Scheme<K>) {
    && (forall p, q :: p == q || c.less(p, q) || c.less(q, p))
    && (forall p, q :: !(c.less(p, q) && c.less(q, p)))
    && (forall p, q, r :: c.less(p, q) && c.less(q, r) ==> c.less(p, r))
  }

  ghost predicate Lawful<K(!new)>(c: Scheme<K>) {
    TotalOrder(c) && forall p :: c.ok(p) ==> c.encode(p) != "" && c.decode(c.encode(p)) == Some(p)
  }

  // ── ORDER BY ... DESC ──

  ghost predicate Descending<K(!new)>(c: Scheme<K>, s: seq<K>) {
    forall i, j :: 0 <= i < j < |s| ==> c.less(s[j], s[i])
  }

  ghost function Newest<K(!new)>(c: Scheme<K>, s: set<K>): (m: K)
    requires TotalOrder(c) && s != {}
    ensures m in s && forall p :: p in s && p != m ==> c.less(p, m)
  {
    var x :| x in s;
    if s == {x} then x
    else
      var m := Newest(c, s - {x});
      if c.less(m, x) then x else m
  }

  /** The rows of a set, newest first. */
  ghost function Sorted<K(!new)>(c: Scheme<K>, s: set<K>): (r: seq<K>)
    requires TotalOrder(c)
    ensures |r| == |s| && forall p :: p in r <==> p in s
    ensures Descending(c, r)
  {
    if s == {} then []
    else
      var m := Newest(c, s);
      [m] + Sorted(c, s - {m})
  }

  lemma HeadIsNewest<K(!new)>(c: Scheme<K>, r: seq<K>, s: set<K>)
    requires TotalOrder(c) && r != [] && Descending(c, r) && forall p :: p in r <==> p in s
    ensures s != {} && r[0] == Newest(c, s)
    ensures Descending(c, r[1..]) && forall p :: p in r[1..] <==> p in s - {r[0]}
  {
    assert r[0] in s;
    var m := Newest(c, s);
    var i :| 0 <= i < |r| && r[i] == m;
    forall p ensures p in r[1..] <==> p in s - {r[0]} {
      if p in r[1..] {
        var j :| 0 <= j < |r| - 1 && r[1..][j] == p;
        assert r[j + 1] == p;
      }
      if p in s - {r[0]} {
        var j :| 0 <= j < |r| && r[j] == p;
        assert r[1..][j - 1] == p;
      }
    }
  }

  /** There is one descending listing of a set. */
  lemma {:induction false} SortedIsUnique<K(!new)>(c: Scheme<K>, r: seq<K>, s: set<K>)
    requires TotalOrder(c) && Descending(c, r) && forall p :: p in r <==> p in s
    ensures r == Sorted(c, s)
    decreases |r|
  {
    if r != [] {
      HeadIsNewest(c, r, s);
      SortedIsUnique(c, r[1..], s - {r[0]});
    } else {
      assert s == {};
    }
  }

  // ── One call ──

  /** The rows below the cursor; a token that does not decode is ignored, as is the empty one. */
  ghost function After<K(!new)>(c: Scheme<K>, matching: set<K>, token: string): set<K> {
    if token == "" || c.decode(token).None? then matching
    else set p | p in matching && c.less(p, c.decode(token).value)
  }

  /** The page a call answers, and the token of the next one ("" when there is none). */
  ghost function Page<K(!new)>(c: Scheme<K>, matching: set<K>, token: string, size: nat): (seq<K>, string)
    requires TotalOrder(c) && size >= 1
  {
    var all := Sorted(c, After(c, matching, token));
    if |all| > size then (all[..size], c.encode(all[size - 1])) else (all, "")
  }

  /** The tail of every List method: the rows the database answers, one more than the page, are
      appended one by one; the last row of a full page becomes the next token. */
  method List<K(!new)>(encode: K -> string, size: nat, rows: seq<K>) returns (page: seq<K>, next: string)
    requires size >= 1
    ensures page == if |rows| > size then rows[..size] else rows
    ensures next == if |rows| > size then encode(rows[size - 1]) else ""
  {
    page, next := [], "";
    for i := 0 to |rows|
      invariant page == rows[..i]
    {
      page := page + [rows[i]];
    }
    assert rows[..|rows|] == rows;
    if |page| > size {
      next := encode(page[size - 1]);
      page := page[..size];
    }
  }

  // ── Following the tokens ──

  /** A client that calls with the empty token and then with each token it gets, while the table may
      change between the calls; sets[i] are the keys that match during call i. */
  ghost predicate Session<K(!new)>(c: Scheme<K>, sets: seq<set<K>>, size: nat, tokens: seq<string>, pages: seq<seq<K>>)
  {
    && Lawful(c) && size >= 1 && |pages| == |sets| >= 1 && |tokens| == |sets| + 1 && tokens[0] == ""
    && (forall i, p :: 0 <= i < |sets| && p in sets[i] ==> c.ok(p))
    && (forall i :: 0 <= i < |sets| ==> (pages[i], tokens[i + 1]) == Page(c, sets[i], tokens[i], size))
    && (forall i :: 0 < i < |sets| ==> tokens[i] != "")
  }

  ghost function Concat<K>(pages: seq<seq<K>>): seq<K> {
    if pages == [] then [] else Concat(pages[..|pages| - 1]) + pages[|pages| - 1]
  }

  lemma ConcatLast<K>(pages: seq<seq<K>>)
    requires pages != []
    ensures Concat(pages) == Concat(pages[..|pages| - 1]) + pages[|pages| - 1]
  {
  }

  /** One page of the rows s below the cursor, as far as the client can tell. */
  ghost predicate PageOf<K(!new)>(c: Scheme<K>, s: set<K>, page: seq<K>, next: string) {
    && Descending(c, page)
    && (forall p :: p in page ==> p in s)
    && (next == "" ==> forall p :: p in s ==> p in page)
    && (next != "" ==>
         && page != [] && next == c.encode(page[|page| - 1])
         && forall p :: p in s && !c.less(p, page[|page| - 1]) ==> p in page)
  }

  /** The newest `size` rows of a listing are all of it down to the last of them. */
  lemma PageIsComplete<K(!new)>(c: Scheme<K>, s: set<K>, size: nat, p: K)
    requires TotalOrder(c) && 1 <= size <= |s| && p in s && !c.less(p, Sorted(c, s)[size - 1])
    ensures p in Sorted(c, s)[..size]
  {
    var all := Sorted(c, s);
    var i :| 0 <= i < |all| && all[i] == p;
    assert i < size;
    assert all[..size][i] == p;
  }

  lemma FullPageIsPageOf<K(!new)>(c: Scheme<K>, s: set<K>, size: nat)
    requires TotalOrder(c) && 1 <= size < |s| && c.encode(Sorted(c, s)[size - 1]) != ""
    ensures PageOf(c, s, Sorted(c, s)[..size], c.encode(Sorted(c, s)[size - 1]))
  {
    var all := Sorted(c, s);
    var page := all[..size];
    forall p | p in page ensures p in s {
      var i :| 0 <= i < size && page[i] == p;
      assert all[i] in all;
    }
    forall p | p in s && !c.less(p, page[size - 1]) ensures p in page {
      PageIsComplete(c, s, size, p);
    }
  }

  lemma PageIsPageOf<K(!new)>(c: Scheme<K>, matching: set<K>, token: string, size: nat)
    requires Lawful(c) && size >= 1 && forall p :: p in matching ==> c.ok(p)
    ensures PageOf(c, After(c, matching, token), Page(c, matching, token, size).0, Page(c, matching, token, size).1)
  {
    var s := After(c, matching, token);
    var all := Sorted(c, s);
    if |all| > size {
      assert all[size - 1] in all;
      FullPageIsPageOf(c, s, size);
    }
  }

  /** What the pages so far amount to: they are among the keys seen, and none of the keys kept all the
      time has been passed over. */
  ghost predicate Caught<K(!new)>(c: Scheme<K>, kept: set<K>, seen: set<K>, next: string, all: seq<K>) {
    && Descending(c, all)
    && (forall p :: p in all ==> p in seen && c.ok(p))
    && (next == "" ==> forall p :: p in kept ==> p in all)
    && (next != "" ==>
         && all != [] && next == c.encode(all[|all| - 1])
         && forall p :: p in kept && !c.less(p, all[|all| - 1]) ==> p in all)
  }

  /** A page below everything returned so far extends it. */
  lemma DescendingConcat<K(!new)>(c: Scheme<K>, a: seq<K>, b: seq<K>)
    requires TotalOrder(c) && Descending(c, a) && Descending(c, b)
    requires a != [] ==> forall p :: p in b ==> c.less(p, a[|a| - 1])
    ensures Descending(c, a + b)
  {
    var s := a + b;
    forall i, j | 0 <= i < j < |s| ensures c.less(s[j], s[i]) {
      if i < |a| <= j {
        assert s[j] in b;
      }
    }
  }

  lemma PageExtends<K(!new)>(
    c: Scheme<K>, kept: set<K>, seen: set<K>, now: set<K>, token: string, all: seq<K>, page: seq<K>, next: string)
    requires Lawful(c) && kept <= now <= seen && forall p :: p in now ==> c.ok(p)
    requires Caught(c, kept, seen, token, all) && token != ""
    requires PageOf(c, After(c, now, token), page, next)
    ensures Caught(c, kept, seen, next, all + page)
  {
    var last := all[|all| - 1];
    assert last in all;
    assert c.decode(token) == Some(last);
    DescendingConcat(c, all, page);
    var out := all + page;
    if next != "" {
      assert out[|out| - 1] == page[|page| - 1];
    }
    forall p | p in kept && (next == "" || !c.less(p, page[|page| - 1])) ensures p in out {
      if c.less(p, last) {
        assert p in After(c, now, token);
        assert p in page;
      } else {
        assert p in all;
      }
    }
  }

  lemma SessionPrefix<K(!new)>(c: Scheme<K>, sets: seq<set<K>>, size: nat, tokens: seq<string>, pages: seq<seq<K>>)
    requires Session(c, sets, size, tokens, pages) && |sets| >= 2
    ensures Session(c, sets[..|sets| - 1], size, tokens[..|sets|], pages[..|sets| - 1])
  {
    var n := |sets| - 1;
    var sets', tokens', pages' := sets[..n], tokens[..n + 1], pages[..n];
    assert forall i :: 0 <= i < n ==> sets'[i] == sets[i] && pages'[i] == pages[i];
    assert forall i :: 0 <= i <= n ==> tokens'[i] == tokens[i];
    forall i | 0 <= i < n ensures (pages'[i], tokens'[i + 1]) == Page(c, sets'[i], tokens'[i], size) {
    }
  }

  lemma SessionStart<K(!new)>(c: Scheme<K>, kept: set<K>, seen: set<K>, now: set<K>, size: nat)
    requires Lawful(c) && size >= 1 && kept <= now <= seen && forall p :: p in now ==> c.ok(p)
    ensures Caught(c, kept, seen, Page(c, now, "", size).1, Page(c, now, "", size).0)
  {
    PageIsPageOf(c, now, "", size);
  }

  lemma SessionStep<K(!new)>(
    c: Scheme<K>, kept: set<K>, seen: set<K>, now: set<K>, size: nat, token: string, all: seq<K>)
    requires Lawful(c) && size >= 1 && kept <= now <= seen && forall p :: p in now ==> c.ok(p)
    requires Caught(c, kept, seen, token, all) && token != ""
    ensures Caught(c, kept, seen, Page(c, now, token, size).1, all + Page(c, now, token, size).0)
  {
    PageIsPageOf(c, now, token, size);
    PageExtends(c, kept, seen, now, token, all, Page(c, now, token, size).0, Page(c, now, token, size).1);
  }

  ghost predicate Between<K(!new)>(kept: set<K>, sets: seq<set<K>>, seen: set<K>) {
    forall i :: 0 <= i < |sets| ==> kept <= sets[i] <= seen
  }

  /** After any number of calls, everything returned is in strictly descending order, and nothing
      that matched all the time has been passed over. */
  lemma {:induction false} SessionCatches<K(!new)>(
    c: Scheme<K>, kept: set<K>, seen: set<K>, sets: seq<set<K>>, size: nat, tokens: seq<string>, pages: seq<seq<K>>)
    requires Session(c, sets, size, tokens, pages) && Between(kept, sets, seen)
    ensures Caught(c, kept, seen, tokens[|sets|], Concat(pages))
  {
    var n := |sets| - 1;
    ConcatLast(pages);
    assert (pages[n], tokens[n + 1]) == Page(c, sets[n], tokens[n], size);
    assert forall p :: p in sets[n] ==> c.ok(p);
    if n == 0 {
      SessionStart(c, kept, seen, sets[0], size);
      assert Concat(pages) == pages[0];
    } else {
      SessionPrefix(c, sets, size, tokens, pages);
      SessionCatches(c, kept, seen, sets[..n], size, tokens[..n + 1], pages[..n]);
      SessionStep(c, kept, seen, sets[n], size, tokens[n], Concat(pages[..n]));
    }
  }

  /** A finished session, whatever happens to the table meanwhile: strictly descending, no key twice,
      every key that matched all the time is returned, and only keys that matched at some time. */
  lemma SessionMissesNothing<K(!new)>(
    c: Scheme<K>, kept: set<K>, seen: set<K>, sets: seq<set<K>>, size: nat, tokens: seq<string>, pages: seq<seq<K>>)
    requires Session(c, sets, size, tokens, pages) && Between(kept, sets, seen) && tokens[|sets|] == ""
    ensures
      var all := Concat(pages);
      && Descending(c, all)
      && (forall i, j :: 0 <= i < j < |all| ==> all[i] != all[j])
      && (forall p :: p in kept ==> p in all)
      && (forall p :: p in all ==> p in seen)
  {
    SessionCatches(c, kept, seen, sets, size, tokens, pages);
  }

  // ── On a table nobody writes ──

  lemma TokenMeansFull<K(!new)>(c: Scheme<K>, s: set<K>, token: string, size: nat)
    requires TotalOrder(c) && size >= 1 && Page(c, s, token, size).1 != ""
    ensures |Page(c, s, token, size).0| == size
  {
  }

  lemma OneMore(n: nat, size: nat)
    ensures (n + 1) * size == n * size + size
  {
  }

  lemma {:induction false} FullPages<K(!new)>(
    c: Scheme<K>, sets: seq<set<K>>, size: nat, tokens: seq<string>, pages: seq<seq<K>>)
    requires Session(c, sets, size, tokens, pages) && tokens[|sets|] != ""
    ensures |Concat(pages)| == |sets| * size
  {
    var n := |sets| - 1;
    ConcatLast(pages);
    assert (pages[n], tokens[n + 1]) == Page(c, sets[n], tokens[n], size);
    TokenMeansFull(c, sets[n], tokens[n], size);
    if n > 0 {
      SessionPrefix(c, sets, size, tokens, pages);
      FullPages(c, sets[..n], size, tokens[..n + 1], pages[..n]);
    }
    OneMore(n, size);
  }

  /** A token is only handed out when a row remains below it. */
  lemma RowRemains<K(!new)>(c: Scheme<K>, s: set<K>, token: string, size: nat)
    requires Lawful(c) && size >= 1 && (forall p :: p in s ==> c.ok(p))
    requires Page(c, s, token, size).1 != ""
    ensures Page(c, s, Page(c, s, token, size).1, size).0 != []
  {
    var all := Sorted(c, After(c, s, token));
    var last, extra := all[size - 1], all[size];
    assert last in all && extra in all;
    var next := c.encode(last);
    assert extra in After(c, s, next);
    assert extra in Sorted(c, After(c, s, next));
  }

  lemma LastPageIsShort<K(!new)>(c: Scheme<K>, s: set<K>, token: string, size: nat)
    requires Lawful(c) && size >= 1 && (forall p :: p in s ==> c.ok(p)) && Page(c, s, token, size).1 == ""
    ensures |Page(c, s, token, size).0| <= size
  {
    var all := Sorted(c, After(c, s, token));
    if |all| > size {
      assert all[size - 1] in all;
    }
  }

  /** A finished session over an unchanging table takes one call, or as many as it takes to hold
      all the rows it returned: max(1, ceil(rows / size)). */
  lemma CallsNeeded<K(!new)>(
    c: Scheme<K>, sets: seq<set<K>>, size: nat, tokens: seq<string>, pages: seq<seq<K>>, s: set<K>)
    requires Session(c, sets, size, tokens, pages) && tokens[|sets|] == ""
    requires forall i :: 0 <= i < |sets| ==> sets[i] == s
    ensures |Concat(pages)| <= |sets| * size && (|sets| == 1 || (|sets| - 1) * size < |Concat(pages)|)
  {
    var n := |sets| - 1;
    ConcatLast(pages);
    assert (pages[n], tokens[n + 1]) == Page(c, sets[n], tokens[n], size);
    OneMore(n, size);
    assert forall p :: p in sets[n] ==> c.ok(p);
    LastPageIsShort(c, s, tokens[n], size);
    if n == 0 {
      assert Concat(pages[..0]) == [];
    } else {
      SessionPrefix(c, sets, size, tokens, pages);
      FullPages(c, sets[..n], size, tokens[..n + 1], pages[..n]);
      assert (pages[n - 1], tokens[n]) == Page(c, sets[n - 1], tokens[n - 1], size);
      RowRemains(c, s, tokens[n - 1], size);
    }
  }

  /** The pages of a finished session over an unchanging table are the whole sorted listing, cut
      after every `size` rows. */
  lemma PagesReassemble<K(!new)>(
    c: Scheme<K>, sets: seq<set<K>>, size: nat, tokens: seq<string>, pages: seq<seq<K>>, s: set<K>)
    requires Session(c, sets, size, tokens, pages) && tokens[|sets|] == ""
    requires forall i :: 0 <= i < |sets| ==> sets[i] == s
    ensures Concat(pages) == Sorted(c, s)
    ensures |s| <= |sets| * size && (|sets| == 1 || (|sets| - 1) * size < |s|)
  {
    SessionMissesNothing(c, s, s, sets, size, tokens, pages);
    SortedIsUnique(c, Concat(pages), s);
    CallsNeeded(c, sets, size, tokens, pages, s);
  }

  lemma DescendingFits<K(!new)>(c: Scheme<K>, all: seq<K>, s: set<K>)
    requires TotalOrder(c) && Descending(c, all) && forall p :: p in all ==> p in s
    ensures |all| <= |s|
  {
    var elements := set p | p in s && p in all;
    SortedIsUnique(c, all, elements);
    Subset(elements, s);
  }

  lemma {:induction false} Subset<K>(a: set<K>, b: set<K>)
    requires a <= b
    ensures |a| <= |b|
    decreases a
  {
    if a != {} {
      var x :| x in a;
      Subset(a - {x}, b - {x});
    }
  }

  lemma CallAppended<K(!new)>(
    c: Scheme<K>, sets: seq<set<K>>, size: nat, tokens: seq<string>, pages: seq<seq<K>>, s: set<K>, i: nat)
    requires Session(c, sets, size, tokens, pages) && i <= |sets|
    ensures
      var n := |sets|;
      var call := Page(c, s, tokens[n], size);
      ((pages + [call.0])[i], (tokens + [call.1])[i + 1]) == Page(c, (sets + [s])[i], (tokens + [call.1])[i], size)
  {
    if i < |sets| {
      assert (pages[i], tokens[i + 1]) == Page(c, sets[i], tokens[i], size);
    }
  }

  lemma Continued<K(!new)>(
    c: Scheme<K>, sets: seq<set<K>>, size: nat, tokens: seq<string>, pages: seq<seq<K>>, s: set<K>)
    requires Session(c, sets, size, tokens, pages) && tokens[|sets|] != ""
    requires forall i :: 0 <= i < |sets| ==> sets[i] == s
    ensures
      var call := Page(c, s, tokens[|sets|], size);
      Session(c, sets + [s], size, tokens + [call.1], pages + [call.0])
  {
    var n := |sets|;
    var call := Page(c, s, tokens[n], size);
    var sets', tokens', pages' := sets + [s], tokens + [call.1], pages + [call.0];
    assert sets[0] == s;
    SameStart(tokens, call.1);
    forall i, p | 0 <= i < |sets'| && p in sets'[i] ensures c.ok(p) {
      assert sets'[i] == sets[0];
    }
    forall i | 0 <= i < |sets'| ensures (pages'[i], tokens'[i + 1]) == Page(c, sets'[i], tokens'[i], size) {
      CallAppended(c, sets, size, tokens, pages, s, i);
    }
  }

  lemma SameStart(tokens: seq<string>, last: string)
    ensures forall i :: 0 <= i < |tokens| ==> (tokens + [last])[i] == tokens[i]
  {
  }

  /** Over an unchanging table a client cannot be kept calling: while a token comes back, fewer
      rows have been returned than there are. */
  lemma SessionsEnd<K(!new)>(
    c: Scheme<K>, sets: seq<set<K>>, size: nat, tokens: seq<string>, pages: seq<seq<K>>, s: set<K>)
    requires Session(c, sets, size, tokens, pages) && tokens[|sets|] != ""
    requires forall i :: 0 <= i < |sets| ==> sets[i] == s
    ensures |sets| * size < |s|
  {
    var n := |sets|;
    var call := Page(c, s, tokens[n], size);
    Continued(c, sets, size, tokens, pages, s);
    var pages' := pages + [call.0];
    SessionCatches(c, s, s, sets + [s], size, tokens + [call.1], pages');
    DescendingFits(c, Concat(pages'), s);
    FullPages(c, sets, size, tokens, pages);
    ConcatLast(pages');
    assert pages'[..n] == pages;
    assert (pages[n - 1], tokens[n]) == Page(c, sets[n - 1], tokens[n - 1], size);
    assert forall p :: p in sets[0] ==> c.ok(p);
    RowRemains(c, s, tokens[n - 1], size);
  }
}
