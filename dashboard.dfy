/** The dashboard: order metrics under optional date, product and category
    filters, and the per-day sales of the current month. Both read the order
    collection (in any order) and the product collection. */
module Dashboard {
  import opened Wrappers
  import opened Links
  import opened Calendar
  import opened Pagination
  import opened Store

  /** The optional query parameters of `GET /dashboard/metrics`. */
  datatype DashboardQuery = DashboardQuery(
    category: Option<Id>,
    product: Option<Id>,
    startDate: Option<Instant>,
    endDate: Option<Instant>)

  /** The `$match` stage: optional `date.$gte`, `date.$lte` and `products.$in`. */
  datatype MatchFilter = MatchFilter(dateFrom: Option<Instant>, dateTo: Option<Instant>, productsIn: Option<seq<Id>>)

  datatype Metrics = Metrics(totalOrders: nat, totalRevenue: real, averageOrderValue: real)

  /** One `$group` bucket of the daily report. */
  datatype DaySales = DaySales(day: DayKey, total: real)

  /** One entry of the daily report as returned. */
  datatype DailySale = DailySale(date: string, total: real)

  const NoMetrics: Metrics := Metrics(0, 0.0, 0.0)

  /** Whether an order passes the `$match` stage; `products: {$in: L}` on an
      array field matches when some element is in `L`. */
  predicate Matches(m: MatchFilter, o: Order) {
    && (m.dateFrom.Some? ==> AtOrBefore(m.dateFrom.value, o.date))
    && (m.dateTo.Some? ==> AtOrBefore(o.date, m.dateTo.value))
    && (m.productsIn.Some? ==> exists p :: p in o.products && p in m.productsIn.value)
  }

  /** The orders that satisfy `keep`, each as often as it occurs, order kept. */
  function Filter(orders: seq<Order>, keep: Order -> bool): (r: seq<Order>)
    ensures |r| <= |orders|
    ensures forall o :: o in r <==> o in orders && keep(o)
  {
    if orders == [] then []
    else (if keep(orders[0]) then [orders[0]] else []) + Filter(orders[1..], keep)
  }

  /** Each kept order occurs in the result exactly as often as in the input,
      and every other order not at all. */
  lemma {:induction false} FilterCounts(orders: seq<Order>, keep: Order -> bool, o: Order)
    ensures multiset(Filter(orders, keep))[o] == if keep(o) then multiset(orders)[o] else 0
  {
    if orders != [] {
      FilterCounts(orders[1..], keep, o);
      assert orders == [orders[0]] + orders[1..];
    }
  }

  /** Filtering distributes over concatenation: the kept orders stay in
      their original order. */
  lemma {:induction false} FilterConcat(a: seq<Order>, b: seq<Order>, keep: Order -> bool)
    ensures Filter(a + b, keep) == Filter(a, keep) + Filter(b, keep)
  {
    if a != [] {
      var head := if keep(a[0]) then [a[0]] else [];
      calc {
        Filter(a + b, keep);
        { assert (a + b)[0] == a[0] && (a + b)[1..] == a[1..] + b; }
        head + Filter(a[1..] + b, keep);
        { FilterConcat(a[1..], b, keep); }
        head + (Filter(a[1..], keep) + Filter(b, keep));
        (head + Filter(a[1..], keep)) + Filter(b, keep);
      }
    } else {
      assert a + b == b;
    }
  }

  /** `$sum: '$total'`. */
  function Revenue(orders: seq<Order>): real {
    if orders == [] then 0.0 else orders[0].total + Revenue(orders[1..])
  }

  /** The products whose `categories` contain `category`, among `ids`. */
  function Carrying(ids: seq<Id>, products: map<Id, Product>, category: Id): (r: seq<Id>)
    requires forall p :: p in ids ==> p in products
    ensures forall p :: p in r <==> p in ids && category in products[p].categories
  {
    if ids == [] then []
    else
      var rest := Carrying(ids[1..], products, category);
      if category in products[ids[0]].categories then [ids[0]] + rest else rest
  }

  /** `productModel.find({categories: categoryId}, '_id')`: the ids of the
      products carrying the category, in natural order. */
  function GetProductsByCategory(category: Id, products: map<Id, Product>): (r: seq<Id>)
    ensures forall p :: p in r <==> p in products && category in products[p].categories
  {
    Carrying(SortedIds(products.Keys), products, category)
  }

  /** `buildMatchFilters`: successive assignments to the match object; the
      category branch overwrites what the product branch set. */
  function BuildMatchFilters(q: DashboardQuery, products: map<Id, Product>): (m: MatchFilter)
    ensures m.dateFrom == q.startDate && m.dateTo == q.endDate
    ensures q.category.None? && q.product.None? ==> m.productsIn.None?
    ensures q.category.None? && q.product.Some? ==> m.productsIn == Some([q.product.value])
    ensures q.category.Some? ==> m.productsIn == Some(GetProductsByCategory(q.category.value, products))
  {
    var m0 := MatchFilter(None, None, None);
    var m1 := if q.startDate.Some? || q.endDate.Some? then m0.(dateFrom := q.startDate, dateTo := q.endDate) else m0;
    var m2 := if q.product.Some? then m1.(productsIn := Some([q.product.value])) else m1;
    var m3 := if q.category.Some? then m2.(productsIn := Some(GetProductsByCategory(q.category.value, products))) else m2;
    m3
  }

  /** What the metrics query selects: the date bounds inclusive; with a
      category, orders holding some product that carries it (the product
      filter is then ignored); otherwise, with a product, orders holding it. */
  predicate Wanted(q: DashboardQuery, products: map<Id, Product>, o: Order) {
    && (q.startDate.Some? ==> AtOrBefore(q.startDate.value, o.date))
    && (q.endDate.Some? ==> AtOrBefore(o.date, q.endDate.value))
    && (q.category.Some? ==>
          exists p :: p in o.products && p in products && q.category.value in products[p].categories)
    && (q.category.None? && q.product.Some? ==> q.product.value in o.products)
  }

  /** `products: {$in: ids}` with the ids of a category's products holds
      exactly for orders with a product of that category. */
  lemma InCategoryProducts(category: Id, products: map<Id, Product>, o: Order)
    ensures var ids := GetProductsByCategory(category, products);
            (exists p :: p in o.products && p in ids) <==>
            (exists p :: p in o.products && p in products && category in products[p].categories)
  {
    var ids := GetProductsByCategory(category, products);
    if exists p :: p in o.products && p in products && category in products[p].categories {
      var p :| p in o.products && p in products && category in products[p].categories;
      assert p in ids;
    }
  }

  lemma MatchFiltersMeaning(q: DashboardQuery, products: map<Id, Product>, o: Order)
    ensures Matches(BuildMatchFilters(q, products), o) <==> Wanted(q, products, o)
  {
    var m := BuildMatchFilters(q, products);
    if q.category.Some? {
      assert m.productsIn == Some(GetProductsByCategory(q.category.value, products));
      InCategoryProducts(q.category.value, products, o);
    } else if q.product.Some? {
      assert m.productsIn == Some([q.product.value]);
      if q.product.value in o.products {
        assert q.product.value in [q.product.value];
      }
    }
  }

  /** `find`: count, sum and average of the matching orders' totals, or all
      zeros when none matches. */
  function MetricsOf(orders: seq<Order>, products: map<Id, Product>, q: DashboardQuery): (r: Metrics)
    ensures r.totalOrders <= |orders|
    ensures r.totalOrders == 0 ==> r == NoMetrics
    ensures r.totalOrders > 0 ==> r.averageOrderValue == r.totalRevenue / (r.totalOrders as real)
  {
    var m := BuildMatchFilters(q, products);
    var selected := Filter(orders, (o: Order) => Matches(m, o));
    if |selected| == 0 then NoMetrics
    else Metrics(|selected|, Revenue(selected), Revenue(selected) / (|selected| as real))
  }

  // Properties of the metrics.

  lemma {:induction false} FilterSame(orders: seq<Order>, f: Order -> bool, g: Order -> bool)
    requires forall o :: o in orders ==> f(o) == g(o)
    ensures Filter(orders, f) == Filter(orders, g)
  {
    if orders != [] {
      FilterSame(orders[1..], f, g);
    }
  }

  lemma {:induction false} FilterNone(orders: seq<Order>, keep: Order -> bool)
    requires forall o :: o in orders ==> !keep(o)
    ensures Filter(orders, keep) == []
  {
    if orders != [] {
      assert orders[0] in orders;
      FilterNone(orders[1..], keep);
    }
  }

  /** The metrics are the count and the revenue of the selected orders. */
  lemma FindTotals(orders: seq<Order>, products: map<Id, Product>, q: DashboardQuery, keep: Order -> bool)
    requires forall o :: keep(o) == Wanted(q, products, o)
    ensures var selected := Filter(orders, keep);
            && MetricsOf(orders, products, q).totalOrders == |selected|
            && MetricsOf(orders, products, q).totalRevenue == Revenue(selected)
  {
    var m := BuildMatchFilters(q, products);
    forall o | o in orders ensures keep(o) == Matches(m, o) {
      MatchFiltersMeaning(q, products, o);
    }
    FilterSame(orders, keep, (o: Order) => Matches(m, o));
  }

  /** With only a date range, the count is the number of orders dated within
      it, both ends included. */
  lemma FindDateRange(orders: seq<Order>, products: map<Id, Product>, from: Instant, to: Instant)
    ensures var within := Filter(orders, (o: Order) => AtOrBefore(from, o.date) && AtOrBefore(o.date, to));
            var r := MetricsOf(orders, products, DashboardQuery(None, None, Some(from), Some(to)));
            r.totalOrders == |within| && r.totalRevenue == Revenue(within)
  {
    FindTotals(orders, products, DashboardQuery(None, None, Some(from), Some(to)),
      (o: Order) => AtOrBefore(from, o.date) && AtOrBefore(o.date, to));
  }

  /** With only a product, an order counts exactly when it lists the product. */
  lemma FindByProduct(orders: seq<Order>, products: map<Id, Product>, product: Id)
    ensures var listing := Filter(orders, (o: Order) => product in o.products);
            var r := MetricsOf(orders, products, DashboardQuery(None, Some(product), None, None));
            r.totalOrders == |listing| && r.totalRevenue == Revenue(listing)
  {
    FindTotals(orders, products, DashboardQuery(None, Some(product), None, None), (o: Order) => product in o.products);
  }

  /** With a category, an order counts exactly when one of its products
      carries the category, whatever product filter is also given. */
  lemma FindByCategory(orders: seq<Order>, products: map<Id, Product>, category: Id, product: Option<Id>)
    ensures var carrying := Filter(orders, (o: Order) =>
              exists p :: p in o.products && p in products && category in products[p].categories);
            var r := MetricsOf(orders, products, DashboardQuery(Some(category), product, None, None));
            r.totalOrders == |carrying| && r.totalRevenue == Revenue(carrying)
  {
    FindTotals(orders, products, DashboardQuery(Some(category), product, None, None),
      (o: Order) => exists p :: p in o.products && p in products && category in products[p].categories);
  }

  /** The category filter replaces the product filter instead of narrowing it. */
  lemma CategoryOverridesProduct(orders: seq<Order>, products: map<Id, Product>, q: DashboardQuery)
    requires q.category.Some?
    ensures MetricsOf(orders, products, q) == MetricsOf(orders, products, q.(product := None))
  {
  }

  /** When no order matches, every metric is zero. */
  lemma FindNothingMatches(orders: seq<Order>, products: map<Id, Product>, q: DashboardQuery)
    requires forall o :: o in orders ==> !Wanted(q, products, o)
    ensures MetricsOf(orders, products, q) == NoMetrics
  {
    var keep := (o: Order) => Wanted(q, products, o);
    FindTotals(orders, products, q, keep);
    FilterNone(orders, keep);
  }

  /** A category that no product carries yields zeros. */
  lemma FindEmptyCategory(orders: seq<Order>, products: map<Id, Product>, q: DashboardQuery)
    requires q.category.Some?
    requires forall p :: p in products ==> q.category.value !in products[p].categories
    ensures MetricsOf(orders, products, q) == NoMetrics
  {
    FindNothingMatches(orders, products, q);
  }

  lemma {:induction false} RevenueBounds(orders: seq<Order>, lo: real, hi: real)
    requires forall o :: o in orders ==> lo <= o.total <= hi
    ensures (|orders| as real) * lo <= Revenue(orders) <= (|orders| as real) * hi
  {
    if orders != [] {
      assert orders[0] in orders;
      RevenueBounds(orders[1..], lo, hi);
      assert (|orders| as real) * lo == lo + (|orders[1..]| as real) * lo;
      assert (|orders| as real) * hi == hi + (|orders[1..]| as real) * hi;
    }
  }

  lemma DivideBounds(sum: real, n: real, lo: real, hi: real)
    requires n > 0.0 && n * lo <= sum <= n * hi
    ensures lo <= sum / n <= hi
  {
  }

  lemma AverageBounds(selected: seq<Order>, lo: real, hi: real)
    requires |selected| > 0
    requires forall o :: o in selected ==> lo <= o.total <= hi
    ensures lo <= Revenue(selected) / (|selected| as real) <= hi
  {
    RevenueBounds(selected, lo, hi);
    DivideBounds(Revenue(selected), |selected| as real, lo, hi);
  }

  /** The average lies between the smallest and the largest order total. */
  lemma AverageWithin(orders: seq<Order>, products: map<Id, Product>, q: DashboardQuery, lo: real, hi: real)
    requires forall o :: o in orders ==> lo <= o.total <= hi
    ensures var r := MetricsOf(orders, products, q);
            r.totalOrders > 0 ==> lo <= r.averageOrderValue <= hi
  {
    var keep := (o: Order) => Wanted(q, products, o);
    FindTotals(orders, products, q, keep);
    var selected := Filter(orders, keep);
    if |selected| > 0 {
      AverageBounds(selected, lo, hi);
    }
  }

  // The daily-sales report.

  /** Ascending `(year, month, day)` with no day twice. */
  predicate Ascending(days: seq<DayKey>) {
    forall i, j :: 0 <= i < j < |days| ==> DayBefore(days[i], days[j])
  }

  /** The `$group` keys: each day that has an order, once. */
  function DistinctDays(orders: seq<Order>): (r: seq<DayKey>)
    ensures NoDup(r)
    ensures forall k :: k in r <==> exists o :: o in orders && DayOf(o.date) == k
  {
    if orders == [] then []
    else
      var rest := DistinctDays(orders[1..]);
      var k := DayOf(orders[0].date);
      assert orders == [orders[0]] + orders[1..];
      if k in rest then rest
      else NoDupCons(k, rest); [k] + rest
  }

  function InsertDay(k: DayKey, days: seq<DayKey>): (r: seq<DayKey>)
    requires Ascending(days) && k !in days
    ensures Ascending(r) && |r| == |days| + 1
    ensures forall x :: x in r <==> x == k || x in days
  {
    if days == [] then [k]
    else if DayBefore(k, days[0]) then [k] + days
    else
      assert days == [days[0]] + days[1..];
      var rest := InsertDay(k, days[1..]);
      assert forall x :: x in rest ==> DayBefore(days[0], x);
      [days[0]] + rest
  }

  /** The `$sort` stage: ascending by year, then month, then day. */
  function SortDays(days: seq<DayKey>): (r: seq<DayKey>)
    requires NoDup(days)
    ensures Ascending(r) && |r| == |days|
    ensures forall x :: x in r <==> x in days
  {
    if days == [] then []
    else
      NoDupCons(days[0], days[1..]);
      assert days == [days[0]] + days[1..];
      InsertDay(days[0], SortDays(days[1..]))
  }

  /** The orders placed on day `k`. */
  function OnDay(orders: seq<Order>, k: DayKey): seq<Order> {
    Filter(orders, (o: Order) => DayOf(o.date) == k)
  }

  /** The orders of the current month: the `$match` stage of the report. */
  function InMonth(orders: seq<Order>, now: Instant): seq<Order> {
    Filter(orders, (o: Order) => InCurrentMonth(o.date, now))
  }

  /** The `$group` and `$sort` stages: one bucket per day of the current
      month that has orders, with the sum of that day's totals. */
  function DailyBuckets(orders: seq<Order>, now: Instant): seq<DaySales> {
    var month := InMonth(orders, now);
    var days := SortDays(DistinctDays(month));
    seq(|days|, i requires 0 <= i < |days| =>
      DaySales(days[i], Revenue(OnDay(month, days[i]))))
  }

  /** `getDailySales`: the buckets with each day rendered as DD/MM/YYYY. */
  function DailySalesOf(orders: seq<Order>, now: Instant): (r: seq<DailySale>)
    ensures |r| == |DailyBuckets(orders, now)|
  {
    var b := DailyBuckets(orders, now);
    seq(|b|, i requires 0 <= i < |b| => DailySale(FormatDay(b[i].day), b[i].total))
  }

  function BucketDays(b: seq<DaySales>): seq<DayKey> {
    seq(|b|, i requires 0 <= i < |b| => b[i].day)
  }

  /** The report has exactly one bucket per day of the current month with at
      least one order, in ascending order. */
  lemma DailyBucketDays(orders: seq<Order>, now: Instant)
    ensures var days := BucketDays(DailyBuckets(orders, now));
            && Ascending(days)
            && (forall k :: k in days <==>
                  (exists o :: o in orders && InCurrentMonth(o.date, now) && DayOf(o.date) == k))
            && forall k :: k in days ==> k.year == now.year && k.month == now.month
  {
    var month := InMonth(orders, now);
    var sorted := SortDays(DistinctDays(month));
    var days := BucketDays(DailyBuckets(orders, now));
    assert days == sorted;
    forall k | k in days ensures k.year == now.year && k.month == now.month {
      var o :| o in month && DayOf(o.date) == k;
      CurrentMonthWindow(o.date, now);
    }
  }

  /** Within the current month, selecting a day of that month first by
      month changes nothing. */
  lemma {:induction false} OnDayOfMonth(orders: seq<Order>, now: Instant, k: DayKey)
    requires k.year == now.year && k.month == now.month
    ensures OnDay(InMonth(orders, now), k) == OnDay(orders, k)
  {
    if orders != [] {
      OnDayOfMonth(orders[1..], now, k);
      CurrentMonthWindow(orders[0].date, now);
      var month := InMonth(orders, now);
      if InCurrentMonth(orders[0].date, now) {
        assert month == [orders[0]] + InMonth(orders[1..], now);
        assert month[0] == orders[0] && month[1..] == InMonth(orders[1..], now);
      } else {
        assert month == InMonth(orders[1..], now);
        assert DayOf(orders[0].date) != k;
      }
    }
  }

  /** Each bucket's total is the sum of the totals of all orders placed on
      that day. */
  lemma DailyBucketTotals(orders: seq<Order>, now: Instant, i: nat)
    requires i < |DailyBuckets(orders, now)|
    ensures var b := DailyBuckets(orders, now)[i];
            b.total == Revenue(OnDay(orders, b.day))
  {
    var b := DailyBuckets(orders, now);
    DailyBucketDays(orders, now);
    var k := b[i].day;
    assert BucketDays(b)[i] == k;
    OnDayOfMonth(orders, now, k);
  }

  /** Each entry reads back as its bucket's day and carries its total, so the
      entries are in ascending date order and no date appears twice. */
  lemma DailySalesEntries(orders: seq<Order>, now: Instant)
    ensures var b := DailyBuckets(orders, now);
            var r := DailySalesOf(orders, now);
            forall i :: 0 <= i < |r| ==> ParseDay(r[i].date) == Some(b[i].day) && r[i].total == b[i].total
  {
    var b := DailyBuckets(orders, now);
    var r := DailySalesOf(orders, now);
    forall i | 0 <= i < |r| ensures ParseDay(r[i].date) == Some(b[i].day) {
      FormatRoundTrip(b[i].day);
    }
  }

  /** The day totals of `orders` over `days`, added up. */
  function DayRevenues(orders: seq<Order>, days: seq<DayKey>): real {
    if days == [] then 0.0 else Revenue(OnDay(orders, days[0])) + DayRevenues(orders, days[1..])
  }

  function BucketSum(b: seq<DaySales>): real {
    if b == [] then 0.0 else b[0].total + BucketSum(b[1..])
  }

  /** Adding one order to the front adds its total to its own day only. */
  lemma {:induction false} DayRevenuesCons(o: Order, rest: seq<Order>, days: seq<DayKey>)
    requires NoDup(days)
    ensures DayRevenues([o] + rest, days) ==
            (if DayOf(o.date) in days then o.total else 0.0) + DayRevenues(rest, days)
  {
    if days != [] {
      NoDupCons(days[0], days[1..]);
      assert days == [days[0]] + days[1..];
      DayRevenuesCons(o, rest, days[1..]);
      var d := days[0];
      assert ([o] + rest)[1..] == rest;
      var on := OnDay([o] + rest, d);
      if DayOf(o.date) == d {
        assert on == [o] + OnDay(rest, d);
        assert on[1..] == OnDay(rest, d);
        assert d !in days[1..];
      } else {
        assert on == OnDay(rest, d);
      }
    }
  }

  /** Splitting orders by day and adding the day totals loses and repeats
      nothing, provided every order's day is listed once. */
  lemma {:induction false} DayRevenuesPartition(orders: seq<Order>, days: seq<DayKey>)
    requires NoDup(days)
    requires forall o :: o in orders ==> DayOf(o.date) in days
    ensures DayRevenues(orders, days) == Revenue(orders)
  {
    if orders == [] {
      EmptyDays(days);
    } else {
      assert orders == [orders[0]] + orders[1..];
      assert orders[0] in orders;
      DayRevenuesCons(orders[0], orders[1..], days);
      DayRevenuesPartition(orders[1..], days);
    }
  }

  lemma {:induction false} EmptyDays(days: seq<DayKey>)
    ensures DayRevenues([], days) == 0.0
  {
    if days != [] {
      EmptyDays(days[1..]);
    }
  }

  lemma {:induction false} BucketSumOfDays(month: seq<Order>, days: seq<DayKey>)
    ensures BucketSum(seq(|days|, i requires 0 <= i < |days| => DaySales(days[i], Revenue(OnDay(month, days[i]))))) ==
            DayRevenues(month, days)
  {
    var b := seq(|days|, i requires 0 <= i < |days| => DaySales(days[i], Revenue(OnDay(month, days[i]))));
    if days != [] {
      BucketSumOfDays(month, days[1..]);
      assert b[1..] == seq(|days[1..]|, i requires 0 <= i < |days[1..]| =>
        DaySales(days[1..][i], Revenue(OnDay(month, days[1..][i]))));
    }
  }

  /** The daily totals add up to the revenue of the whole current month. */
  lemma DailyBucketsSum(orders: seq<Order>, now: Instant)
    ensures BucketSum(DailyBuckets(orders, now)) == Revenue(InMonth(orders, now))
  {
    var month := InMonth(orders, now);
    var days := SortDays(DistinctDays(month));
    BucketSumOfDays(month, days);
    assert NoDup(days) by {
      forall i, j | 0 <= i < j < |days| ensures days[i] != days[j] {
        assert DayBefore(days[i], days[j]);
      }
    }
    DayRevenuesPartition(month, days);
  }

  /** The dashboard service reads the order and product collections and
      changes nothing. */
  class DashboardService {
    const store: Database

    constructor (store: Database)
      ensures this.store == store
    {
      this.store := store;
    }

    /** `find`: the metrics of the orders that pass the filters. */
    method Find(q: DashboardQuery) returns (r: Metrics)
      ensures r == MetricsOf(InOrder(store.orders), store.products, q)
      ensures r.totalOrders <= |store.orders|
    {
      r := MetricsOf(InOrder(store.orders), store.products, q);
    }

    /** `getDailySales`; `now` is the clock reading. */
    method GetDailySales(now: Instant) returns (r: seq<DailySale>)
      ensures r == DailySalesOf(InOrder(store.orders), now)
    {
      r := DailySalesOf(InOrder(store.orders), now);
    }
  }
}
