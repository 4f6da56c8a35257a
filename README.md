# Catalog administration backend: cross-references, listings and dashboard

This project models the core of a small e-commerce administration backend:
categories, products and orders kept in a document store, plus a read-only
dashboard.

- **Category and product services** (`Categories`, `Products`). A category lists
  its products, and each product lists its categories. Every create, update and
  delete on one side pushes the document's id onto the other side's lists or
  pulls it from them. The shared invariant `Store.Linked` says the two sides
  mirror each other:
  - no list names a missing document;
  - a product lists a category exactly when that category lists the product;
  - no list repeats an id.

  The invariant is proved once for maps of id lists, in `Links`. Each service
  step then shows that it keeps the invariant, or exactly when it does.
- **Order service** (`Orders`): plain create, list, read, update and delete.
- **Listings** (`Pagination`): the `page`/`limit`/`skip` arithmetic with its
  configured defaults, shared by the three `findAll` operations.
- **Dashboard** (`Dashboard`):
  - order count, revenue and average under optional date, product and category
    filters;
  - the per-day sales of the current month, with days rendered as DD/MM/YYYY.

The store is one `Store.Database` object holding the three collections as maps
from id to document. Each service is a class that holds the database.

Each category and product service method that writes is specified by a pure
step function on the catalog (`CreateStep`, `UpdateStep`, `RemoveStep`). The
method's postcondition says that its result and the new state are that step,
and the properties are lemmas about the step functions. The order service
touches only the order collection, so its methods state the new order map
directly in their postconditions.

Dates are `Calendar.Instant` values: year, month, day and milliseconds of the
day, compared lexicographically.

## Model

| member | source | states |
|---|---|---|
| Links.Without | src/category/category.service.ts:105-108 | `$pull` removes every occurrence of the id: the result holds every other id exactly as often as the list did, none of the pulled id, and keeps a duplicate-free list duplicate-free |
| Links.WithoutConcat | src/category/category.service.ts:105-108 | `$pull` distributes over concatenation, so the ids it keeps stay in their original order |
| Links.CountExistingExact | src/category/category.service.ts:21-28 | the `find({_id: {$in: ids}})` count never exceeds the list length, and equals it exactly when the list repeats no id and every id exists |
| Links.MirroredSymmetric | src/product/product.service.ts:50-55 | the mirror invariant reads the same from either side, so one set of lemmas serves both services |
| Links.AttachPreserves | src/category/category.service.ts:31-39 | adding a new document with a duplicate-free list of existing ids and pushing its id onto each keeps the two sides mirrored |
| Links.DetachPreserves | src/category/category.service.ts:135-142 | deleting a document and pulling its id from the documents it listed keeps the sides mirrored and leaves no reference to it |
| Links.RelinkIff | src/category/category.service.ts:104-117 | pull-then-push relinking to a new list keeps the sides mirrored if and only if the new list is duplicate-free and names only existing documents |
| Links.OverwriteIff | src/category/category.service.ts:104-117 | overwriting a list with `[]` without touching the other side keeps the sides mirrored if and only if the list was already empty |
| Store.PushCategoryRef | src/category/category.service.ts:35-38 | `updateMany($in, $push)` on products: same keys, only `categories` changes, and the id lists change as `Links.Push` says |
| Store.PullCategoryRef | src/category/category.service.ts:105-108 | `updateMany($in, $pull)` on products: same keys, only `categories` changes, and the id lists change as `Links.Pull` says |
| Store.PushProductRef | src/product/product.service.ts:50-55 | the same `$push` on categories' `products` lists |
| Store.PullProductRef | src/product/product.service.ts:157-162 | the same `$pull` on categories' `products` lists |
| Pagination.Resolve | src/order/order.service.ts:31-34 | the page and the limit are the requested ones unless absent or 0, else the configured defaults (falling back to 1 and 10, src/config/pagination.config.ts:3-11); both are at least 1; `skip = (page - 1) * limit`, the same arithmetic as src/category/category.service.ts:52-55 and src/product/product.service.ts:68-71 |
| Pagination.ResolveExamples | src/order/order.service.ts:26-34 | no query gives page 1, limit 10, skip 0; page 3 with limit 5 gives skip 10 |
| Pagination.SortedIds | src/order/order.service.ts:37-40 | the natural order of a collection lists every id once, in ascending order |
| Pagination.Window | src/order/order.service.ts:37-40 | `skip(s).limit(n)` returns `min(n, size - s)` documents, the i-th being document `s + i` |
| Pagination.FindAll | src/order/order.service.ts:23-56 | a listing reports the collection size and the resolved page and limit, and returns at most `limit` documents: the window after `skip` |
| Pagination.PagesTile | src/product/product.service.ts:60-93 | pages 1 to n together are exactly the first `n * limit` documents, in order, none repeated or skipped |
| Pagination.PagesCover | src/product/product.service.ts:60-93 | enough pages list the whole collection exactly once |
| Calendar.CurrentMonthWindow | src/dashboard/dashboard.service.ts:70-81 | the half-open window `[start of month, start of next month)` holds exactly the instants in the current year and month |
| Calendar.DecimalRoundTrip | src/dashboard/dashboard.service.ts:98-102 | the decimal rendering of the year reads back as the same number |
| Calendar.Pad2 | src/dashboard/dashboard.service.ts:98-102 | a two-digit field is two digits whose value is the number |
| Calendar.FormatRoundTrip | src/dashboard/dashboard.service.ts:97-104 | the DD/MM/YYYY rendering of a day parses back to that day |
| Calendar.FormatInjective | src/dashboard/dashboard.service.ts:97-104 | two different days never render as the same string |
| Categories.CategoryService.Create | src/category/category.service.ts:20-42 | the result and the new catalog are `CreateStep` of the old catalog; orders are untouched |
| Categories.CategoryService.FindAll | src/category/category.service.ts:44-77 | the corrected listing `Pagination.FindAll` over the categories: at most `limit` documents |
| Categories.CategoryService.FindOne | src/category/category.service.ts:79-92 | the stored category, or NotFound "Not found" |
| Categories.CategoryService.Update | src/category/category.service.ts:94-126 | the result and the new catalog are `UpdateStep` of the old catalog; orders are untouched |
| Categories.CategoryService.Remove | src/category/category.service.ts:128-145 | the result and the new catalog are `RemoveStep` of the old catalog; orders are untouched |
| Categories.CreateRejects | src/category/category.service.ts:21-28 | create fails with "One or more products not found", writing nothing, if and only if the list is non-empty and repeats an id or names a missing product |
| Categories.CreateEffect | src/category/category.service.ts:31-41 | a successful create stores the category with the given list and appends its id once to each listed product; nothing else changes |
| Categories.CreateWithoutProducts | src/category/category.service.ts:21-39 | a create without products always succeeds and touches no product |
| Categories.CreatePreservesLinked | src/category/category.service.ts:20-42 | create keeps the cross-references mirrored |
| Categories.MissingCategoryUntouched | src/category/category.service.ts:98-133 | update of a missing id fails with "Category with ID … not found" and remove with "Not found", both before any write |
| Categories.UpdateRelinks | src/category/category.service.ts:104-125 | an update with a non-empty list pulls the id from the old list's products, pushes it onto the new list's existing products, and overwrites the given fields |
| Categories.UpdateWithoutRelink | src/category/category.service.ts:104-117 | an update without a list, or with `[]`, touches no product but still overwrites the fields |
| Categories.UpdateLinkedIff | src/category/category.service.ts:104-117 | after an update with a non-empty list, the cross-references stay mirrored if and only if the list is duplicate-free and names only existing products |
| Categories.UpdateEmptyListIff | src/category/category.service.ts:104-117 | after an update with `[]`, they stay mirrored if and only if the category listed no product |
| Categories.UpdateWithoutListPreservesLinked | src/category/category.service.ts:104-117 | an update without a list keeps them mirrored |
| Categories.RemoveClears | src/category/category.service.ts:128-145 | after a remove the category is gone, no product lists it, and the cross-references stay mirrored |
| Categories.FindAllAsWritten | src/category/category.service.ts:44-77 | the listing as written reports the resolved page and limit; with a requested limit it returns the corrected listing, and without one (or with 0) it returns every category after `skip` |
| Categories.RemoveEffect | src/category/category.service.ts:128-145 | in any state, a remove deletes the category, pulls its id from exactly the products its stored list names, and changes nothing else |
| Categories.EmptyUpdateThenRemoveLeavesReference | src/category/category.service.ts:104-142 | an update with `[]` followed by a remove leaves the removed category's id in every product that listed it |
| Categories.FindAllAsWrittenOverrunsLimit | src/category/category.service.ts:53-61 | with 11 categories and no query, the listing as written reports limit 10 but returns 11 categories |
| Products.ProductService.Create | src/product/product.service.ts:23-58 | the result and the new catalog are `CreateStep` of the old catalog; orders are untouched |
| Products.ProductService.FindAll | src/product/product.service.ts:60-93 | `Pagination.FindAll` over the products: at most `limit` documents |
| Products.ProductService.FindOne | src/product/product.service.ts:95-106 | the stored product, or NotFound "Not found" |
| Products.ProductService.Update | src/product/product.service.ts:108-148 | the result and the new catalog are `UpdateStep` of the old catalog; orders are untouched |
| Products.ProductService.Remove | src/product/product.service.ts:150-167 | the result and the new catalog are `RemoveStep` of the old catalog; orders are untouched |
| Products.CreateRejects | src/product/product.service.ts:27-35 | create fails with "One or more categories not found", writing nothing, if and only if the list is non-empty and repeats an id or names a missing category |
| Products.CreateEffect | src/product/product.service.ts:47-57 | a successful create stores the product with the given list and appends its id once to each listed category; nothing else changes |
| Products.CreatePreservesLinked | src/product/product.service.ts:23-58 | create keeps the cross-references mirrored |
| Products.MissingProductUntouched | src/product/product.service.ts:113-155 | update and remove of a missing id fail with "Not found" before any write |
| Products.UpdateRelinks | src/product/product.service.ts:119-147 | an update with a non-empty list pulls the id from the old list's categories, pushes it onto the new list's existing categories, and overwrites the given fields |
| Products.UpdateWithoutRelink | src/product/product.service.ts:119-145 | an update without a list, or with `[]`, touches no category |
| Products.UpdateLinkedIff | src/product/product.service.ts:119-129 | after an update with a non-empty list, the cross-references stay mirrored if and only if the list is duplicate-free and names only existing categories |
| Products.UpdateEmptyListIff | src/product/product.service.ts:119-145 | after an update with `[]`, they stay mirrored if and only if the product listed no category |
| Products.RemoveEffect | src/product/product.service.ts:150-167 | in any state, a remove deletes the product, pulls its id from exactly the categories its stored list names, and changes nothing else |
| Products.EmptyUpdateThenRemoveLeavesReference | src/product/product.service.ts:119-164 | an update with `[]` followed by a remove leaves the removed product's id in every category that listed it |
| Products.RemoveClears | src/product/product.service.ts:150-167 | after a remove the product is gone, no category lists it, and the cross-references stay mirrored |
| Products.CategoryThenProduct | src/product/product.service.ts:47-55 | creating category "Books" without products and then product "Novel" listing it leaves "Books" listing exactly "Novel" |
| Products.CategoryThenProductOnServices | src/category/category.service.ts:20-42 | the same scenario run through both service objects on one new database |
| Orders.OrderService.Create | src/order/order.service.ts:18-21 | stores the order as given, with an absent product list stored as empty, under the new id; nothing else changes |
| Orders.OrderService.FindAll | src/order/order.service.ts:23-56 | `Pagination.FindAll` over the orders: at most `limit` documents |
| Orders.OrderService.FindOne | src/order/order.service.ts:58-73 | the stored order, or NotFound "Order not found" |
| Orders.OrderService.Update | src/order/order.service.ts:75-92 | a missing id fails with "Order not found" and changes nothing; otherwise the given fields replace the stored ones; the other collections are untouched |
| Orders.OrderService.Remove | src/order/order.service.ts:94-104 | a missing id fails with "Order not found"; otherwise exactly that order is deleted |
| Orders.ApplyFields | src/order/order.service.ts:82-83 | an update replaces only the fields it carries: applying it twice equals applying it once, and an empty update is the identity |
| Dashboard.Filter | src/dashboard/dashboard.service.ts:19 | the `$match` stage keeps exactly the orders that satisfy the predicate, and never more than the input |
| Dashboard.FilterCounts | src/dashboard/dashboard.service.ts:19 | each kept order occurs in the result exactly as often as in the input, every other order not at all, so equal orders are all counted |
| Dashboard.FilterConcat | src/dashboard/dashboard.service.ts:19 | filtering distributes over concatenation, so kept orders stay in their original order |
| Dashboard.BuildMatchFilters | src/dashboard/dashboard.service.ts:41-60 | the date bounds are the requested ones; with a category the `$in` list is that category's products, overriding the product; with only a product it is that product; with neither there is no `$in` |
| Dashboard.GetProductsByCategory | src/dashboard/dashboard.service.ts:62-67 | the ids returned are exactly those of the products whose `categories` contain the category |
| Dashboard.MatchFiltersMeaning | src/dashboard/dashboard.service.ts:41-60 | an order passes the built filter if and only if it is within both date bounds (inclusive) and, with a category, holds a product carrying it, or else, with a product, holds that product |
| Dashboard.MetricsOf | src/dashboard/dashboard.service.ts:15-39 | the count is at most the number of orders; no match gives all zeros; otherwise the average is revenue divided by count |
| Dashboard.FindTotals | src/dashboard/dashboard.service.ts:18-36 | the count and revenue are the size and the total of the orders the filters select |
| Dashboard.FindDateRange | src/dashboard/dashboard.service.ts:44-48 | with only a date range, the metrics are those of the orders dated within it, both ends included |
| Dashboard.FindByProduct | src/dashboard/dashboard.service.ts:50-52 | with only a product, the metrics are those of the orders holding it |
| Dashboard.FindByCategory | src/dashboard/dashboard.service.ts:54-57 | with a category, the metrics are those of the orders holding a product of that category, whatever product is given |
| Dashboard.CategoryOverridesProduct | src/dashboard/dashboard.service.ts:50-57 | a product filter given together with a category changes nothing |
| Dashboard.FindNothingMatches | src/dashboard/dashboard.service.ts:38 | when no order matches, all three metrics are 0 |
| Dashboard.FindEmptyCategory | src/dashboard/dashboard.service.ts:38-57 | a category that no product carries yields zeros |
| Dashboard.AverageWithin | src/dashboard/dashboard.service.ts:25 | the average lies between the smallest and the largest order total |
| Dashboard.DistinctDays | src/dashboard/dashboard.service.ts:83-90 | the group keys are exactly the days that have an order, each once |
| Dashboard.SortDays | src/dashboard/dashboard.service.ts:92-94 | the sort stage orders the keys by year, month and day, strictly ascending, keeping the same keys |
| Dashboard.DailyBucketDays | src/dashboard/dashboard.service.ts:69-95 | there is one bucket per day of the current month that has an order, and no other; buckets are ascending and all in the current year and month |
| Dashboard.DailyBucketTotals | src/dashboard/dashboard.service.ts:83-91 | each bucket's total is the sum of the totals of all orders placed that day |
| Dashboard.DailyBucketsSum | src/dashboard/dashboard.service.ts:73-95 | the bucket totals add up to the revenue of the whole current month |
| Dashboard.DailySalesEntries | src/dashboard/dashboard.service.ts:97-104 | each entry's date parses back to its bucket's day, and it carries that bucket's total |
| Dashboard.DashboardService.Find | src/dashboard/dashboard.service.ts:15-39 | the metrics of the stored orders and products; the count never exceeds the number of orders |
| Dashboard.DashboardService.GetDailySales | src/dashboard/dashboard.service.ts:69-105 | the daily report of the stored orders for the given clock reading |

## Left out

- HTTP controllers, request routing, Swagger decorators, and ObjectId format checks on path parameters: outside the services.
- The product controller always hands `categories` to the service as an array, `[]` when the request omits it (src/product/product.controller.ts:55-70). So through HTTP, `Products.ProductService.Update` never receives an absent list: a PATCH without `categories` takes the `Some([])` path of `Products.UpdateEmptyListIff`, clearing the product's list while its categories still list it.
- Image upload: the S3 client, the multer configuration, `crypto.randomUUID` and the file-name handling in `create` and `update` of products. `imageUrl` is an opaque optional string set from the request.
- Configuration loading. The configured `defaultPage` and `defaultLimit` are a parameter (`Pagination.Defaults`), required to be at least 1. The fallbacks when nothing is configured are 1 and 10 (`Pagination.ConfigFallback`).
- The pagination query DTO and the update DTOs are not part of this model. Every field of `PaginationQuery` and of the `Update*Dto` types is modelled as optional, and an update sets the fields it carries.
- Pagination.Resolve: `page` and `limit` are natural numbers, so a negative value is not modelled; in the source, `||` passes a negative number through and yields a negative page, limit or skip.
- `populate` and `select` projections: a listing or read returns the stored document with ids, not the joined documents.
- Concurrency and partial failure. Each service operation runs as one atomic step. The store gives no transactions, so a crash between writes, or an interleaving of two requests, can break the cross-references; this is not modelled. Neither is `findByIdAndUpdate` returning null after a concurrent delete.
- Floating point: `price` and `total` are reals. Rounding and `NaN` are not modelled.
- Date handling:
  - parsing ISO date strings is not modelled; dates arrive as `Calendar.Instant` values;
  - UTC (the `$year`/`$month`/`$dayOfMonth` operators) and local time (`new Date(y, m, 1)`) are treated as one time zone;
  - the two-digit-year quirk of `new Date(year, …)` is not modelled;
  - day numbers are not checked against month lengths;
  - the locale formatting of `Intl.DateTimeFormat('pt-BR')` is modelled as DD/MM/YYYY with an unpadded year.
- The clock: `Dashboard.DashboardService.GetDailySales` takes `now` as a parameter.
- Id casting: the dashboard builds its filter from string ids while the stored `products` are ObjectIds, and aggregation pipelines are not cast. As written, `find`'s `product` and `category` filters therefore match no order and return zeros. The model uses one id type throughout, so `Dashboard.FindByProduct` and `Dashboard.FindByCategory` describe the filters with ids cast, as the code evidently intends.
- Ids are natural numbers. New ids are a parameter of each create and must not be in use; they need not exceed the ids already stored. A collection's natural order is modelled as ascending id order, so the model does not tie the listing order to creation order.
- The id in "Category with ID … not found" is rendered in decimal.
- Request validation: the class-validator rules on DTO fields, such as a non-empty name, and schema validation on save.
- Dashboard.MetricsOf: `$sum` and `$avg` run over the orders in whatever order the aggregation visits them. The model sums in natural order, which is the same in exact arithmetic.

## Findings

| source | as written | input that shows it | evidently intended | confidence | as-written member | corrected member |
|---|---|---|---|---|---|---|
| src/category/category.service.ts:61 | the category listing passes the raw `limit` query parameter to the cursor, while it reports `currentLimit` | 11 categories, a request with no `limit`: reported limit 10, 11 categories returned (an absent or 0 limit means no limit to the cursor) | `.limit(currentLimit)`, as the product and order listings do | not executed | Categories.FindAllAsWrittenOverrunsLimit | Categories.CategoryService.FindAll |
