/** The order service: plain create, list, read, update and delete on the
    order collection. Orders keep product ids and a caller-supplied total;
    neither is checked against the product collection. */
module Orders {
  import opened Wrappers
  import opened Links
  import opened Calendar
  import opened Pagination
  import opened Store

  /** The body of a create request; `products` may be absent. */
  datatype CreateOrderDto = CreateOrderDto(date: Instant, total: real, products: Option<seq<Id>>)

  /** The body of an update request: every field optional. */
  datatype UpdateOrderDto = UpdateOrderDto(date: Option<Instant>, total: Option<real>, products: Option<seq<Id>>)

  const OrderNotFound: string := "Order not found"

  /** The document `new orderModel(dto)` saves: the DTO as given, an absent
      product list stored as empty. */
  function NewOrder(dto: CreateOrderDto): Order {
    Order(dto.date, dto.products.GetOr([]), dto.total)
  }

  /** `findByIdAndUpdate(id, dto)`: each field the DTO carries replaces the stored one. */
  function Apply(o: Order, dto: UpdateOrderDto): Order {
    Order(dto.date.GetOr(o.date), dto.products.GetOr(o.products), dto.total.GetOr(o.total))
  }

  class OrderService {
    const store: Database

    constructor (store: Database)
      ensures this.store == store
    {
      this.store := store;
    }

    /** `id` is the ObjectId the driver assigns to the new document. */
    method Create(id: Id, dto: CreateOrderDto) returns (r: Order)
      requires id !in store.orders
      modifies store
      ensures r == NewOrder(dto)
      ensures store.orders == old(store.orders)[id := r]
      ensures store.categories == old(store.categories) && store.products == old(store.products)
    {
      r := NewOrder(dto);
      store.orders := store.orders[id := r];
    }

    method FindAll(q: PaginationQuery, d: Defaults) returns (r: Page<Order>)
      requires ValidDefaults(d)
      ensures r == Pagination.FindAll(store.orders, q, d)
      ensures r.total == |store.orders| && |r.data| <= r.limit
    {
      var p := Resolve(q, d);
      var data := Window(InOrder(store.orders), p.skip, Some(p.limit));
      r := Page(data, |store.orders|, p.page, p.limit);
    }

    method FindOne(id: Id) returns (r: Result<Order>)
      ensures id in store.orders ==> r == Ok(store.orders[id])
      ensures id !in store.orders ==> r == Err(NotFound(OrderNotFound))
    {
      if id !in store.orders {
        return Err(NotFound(OrderNotFound));
      }
      r := Ok(store.orders[id]);
    }

    method Update(id: Id, dto: UpdateOrderDto) returns (r: Result<Order>)
      modifies store
      ensures id !in old(store.orders) ==> r == Err(NotFound(OrderNotFound)) && store.orders == old(store.orders)
      ensures id in old(store.orders) ==>
                r == Ok(Apply(old(store.orders)[id], dto)) && store.orders == old(store.orders)[id := r.value]
      ensures store.categories == old(store.categories) && store.products == old(store.products)
    {
      if id !in store.orders {
        return Err(NotFound(OrderNotFound));
      }
      var updated := Apply(store.orders[id], dto);
      store.orders := store.orders[id := updated];
      r := Ok(updated);
    }

    method Remove(id: Id) returns (r: Result<string>)
      modifies store
      ensures id !in old(store.orders) ==> r == Err(NotFound(OrderNotFound)) && store.orders == old(store.orders)
      ensures id in old(store.orders) ==> r == Ok(Deleted) && store.orders == old(store.orders) - {id}
      ensures store.categories == old(store.categories) && store.products == old(store.products)
    {
      if id !in store.orders {
        return Err(NotFound(OrderNotFound));
      }
      store.orders := store.orders - {id};
      r := Ok(Deleted);
    }
  }

  /** An update replaces exactly the fields it carries: applying it twice is
      applying it once, and an empty update changes nothing. */
  lemma ApplyFields(o: Order, dto: UpdateOrderDto)
    ensures Apply(Apply(o, dto), dto) == Apply(o, dto)
    ensures Apply(o, UpdateOrderDto(None, None, None)) == o
    ensures dto.total.None? ==> Apply(o, dto).total == o.total
    ensures dto.date.None? ==> Apply(o, dto).date == o.date
    ensures dto.products.None? ==> Apply(o, dto).products == o.products
  {
  }
}
