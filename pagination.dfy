/** The page/limit/skip arithmetic shared by the three listing endpoints, the
    natural order of a collection, and the window a `skip`/`limit` cursor
    selects from it. */
module Pagination {
  import opened Wrappers
  import opened Links

  /** The optional `page` and `limit` query parameters of a listing. */
  datatype PaginationQuery = PaginationQuery(page: Option<nat>, limit: Option<nat>)

  /** The configured `defaultPage` and `defaultLimit`. */
  datatype Defaults = Defaults(page: nat, limit: nat)

  /** The values used when the configuration sets neither. */
  const ConfigFallback: Defaults := Defaults(1, 10)

  datatype Paging = Paging(page: nat, limit: nat, skip: nat)

  /** What a listing returns: `{data, total, page, limit}`. */
  datatype Page<T> = Page(data: seq<T>, total: nat, page: nat, limit: nat)

  predicate ValidDefaults(d: Defaults) {
    d.page >= 1 && d.limit >= 1
  }

  function Min(a: nat, b: nat): nat {
    if a <= b then a else b
  }

  /** JavaScript `v || fallback` on an optional number: an absent value and 0
      both fall back. */
  function OrElse(v: Option<nat>, fallback: nat): nat {
    if v.Some? && v.value != 0 then v.value else fallback
  }

  /** `currentPage`, `currentLimit` and `skip = (currentPage - 1) * currentLimit`. */
  function Resolve(q: PaginationQuery, d: Defaults): (p: Paging)
    requires ValidDefaults(d)
    ensures p.page >= 1 && p.limit >= 1
    ensures q.page.Some? && q.page.value > 0 ==> p.page == q.page.value
    ensures q.page.None? || q.page.value == 0 ==> p.page == d.page
    ensures q.limit.Some? && q.limit.value > 0 ==> p.limit == q.limit.value
    ensures q.limit.None? || q.limit.value == 0 ==> p.limit == d.limit
    ensures p.skip == (p.page - 1) * p.limit
  {
    var page := OrElse(q.page, d.page);
    var limit := OrElse(q.limit, d.limit);
    Paging(page, limit, (page - 1) * limit)
  }

  /** The two worked examples of the pagination helper. */
  lemma ResolveExamples()
    ensures Resolve(PaginationQuery(None, None), ConfigFallback) == Paging(1, 10, 0)
    ensures Resolve(PaginationQuery(Some(3), Some(5)), ConfigFallback) == Paging(3, 5, 10)
  {
  }

  /** A Mongo cursor's `.limit(n)`: an absent or zero `n` sets no limit. */
  function CursorCap(n: Option<nat>): Option<nat> {
    if n.Some? && n.value != 0 then Some(n.value) else None
  }

  /** `cursor.skip(skip).limit(cap)` over documents in `docs`' order. */
  function Window<T>(docs: seq<T>, skip: nat, cap: Option<nat>): (r: seq<T>)
    ensures |r| == if skip >= |docs| then 0
                   else if cap.Some? then Min(cap.value, |docs| - skip)
                   else |docs| - skip
    ensures forall i :: 0 <= i < |r| ==> skip + i < |docs| && r[i] == docs[skip + i]
  {
    var from := Min(skip, |docs|);
    var to := if cap.Some? then Min(from + cap.value, |docs|) else |docs|;
    docs[from..to]
  }

  predicate IsLeast(m: Id, s: set<Id>) {
    m in s && forall k :: k in s ==> m <= k
  }

  lemma {:induction false} MinExists(s: set<Id>)
    requires s != {}
    ensures exists m :: IsLeast(m, s)
  {
    var x :| x in s;
    var rest := s - {x};
    if rest == {} {
      assert s == {x};
      assert IsLeast(x, s);
    } else {
      MinExists(rest);
      var m :| IsLeast(m, rest);
      var least := if x < m then x else m;
      forall k | k in s ensures least <= k {
        if k != x {
          assert k in rest;
        }
      }
      assert IsLeast(least, s);
    }
  }

  /** The smallest id of a non-empty set. */
  function Least(s: set<Id>): (m: Id)
    requires s != {}
    ensures m in s && forall k :: k in s ==> m <= k
  {
    MinExists(s);
    var m :| IsLeast(m, s);
    m
  }

  /** The ids of `s` in ascending order. */
  function SortedIds(s: set<Id>): (r: seq<Id>)
    ensures |r| == |s|
    ensures forall k :: k in r <==> k in s
    ensures forall i, j :: 0 <= i < j < |r| ==> r[i] < r[j]
    decreases |s|
  {
    if s == {} then []
    else
      var m := Least(s);
      var rest := SortedIds(s - {m});
      assert forall k :: k in rest ==> m < k;
      [m] + rest
  }

  /** The documents of a collection in its natural order, taken to be
      ascending id order; new ids need not exceed the stored ones, so this
      is not tied to creation order. */
  function InOrder<R>(m: map<Id, R>): (r: seq<R>)
    ensures |r| == |m|
  {
    var ids := SortedIds(m.Keys);
    assert |m.Keys| == |m|;
    seq(|ids|, i requires 0 <= i < |ids| => m[ids[i]])
  }

  /** A listing as the product and order services run it: the page of
      `currentLimit` documents after `skip`, with the collection's size. */
  function FindAll<R>(m: map<Id, R>, q: PaginationQuery, d: Defaults): (r: Page<R>)
    requires ValidDefaults(d)
    ensures r.total == |m|
    ensures r.page == OrElse(q.page, d.page) && r.limit == OrElse(q.limit, d.limit)
    ensures |r.data| <= r.limit
    ensures r.data == Window(InOrder(m), Resolve(q, d).skip, Some(r.limit))
  {
    var p := Resolve(q, d);
    Page(Window(InOrder(m), p.skip, Some(p.limit)), |m|, p.page, p.limit)
  }

  /** Pages 1 to n of size `limit`, concatenated. */
  function FirstPages<T>(docs: seq<T>, limit: nat, n: nat): seq<T> {
    if n == 0 then []
    else FirstPages(docs, limit, n - 1) + Window(docs, (n - 1) * limit, Some(limit))
  }

  /** Consecutive pages tile the collection: pages 1 to n are exactly its
      first n * limit documents, with no document skipped or repeated. */
  lemma {:induction false} PagesTile<T>(docs: seq<T>, limit: nat, n: nat)
    requires limit >= 1
    ensures FirstPages(docs, limit, n) == docs[..Min(n * limit, |docs|)]
  {
    if n > 0 {
      PagesTile(docs, limit, n - 1);
      var skip := (n - 1) * limit;
      assert skip + limit == n * limit;
      var w := Window(docs, skip, Some(limit));
      if skip < |docs| {
        assert w == docs[skip..Min(n * limit, |docs|)];
        assert docs[..skip] + w == docs[..Min(n * limit, |docs|)];
      } else {
        assert w == [];
      }
    }
  }

  /** Enough pages list every document once, in order. */
  lemma PagesCover<T>(docs: seq<T>, limit: nat, n: nat)
    requires limit >= 1 && n * limit >= |docs|
    ensures FirstPages(docs, limit, n) == docs
  {
    PagesTile(docs, limit, n);
  }
}
