/** The category service: create, list, read, update and delete categories,
    keeping each listed product's `categories` back-reference in step. */
module Categories {
  import opened Wrappers
  import opened Links
  import opened Calendar
  import opened Pagination
  import opened Store

  /** The body of a create request; `products` may be absent. */
  datatype CreateCategoryDto = CreateCategoryDto(name: string, description: Option<string>, products: Option<seq<Id>>)

  /** The body of an update request: every field optional. */
  datatype UpdateCategoryDto = UpdateCategoryDto(name: Option<string>, description: Option<string>, products: Option<seq<Id>>)

  const ProductsNotFound: string := "One or more products not found"

  /** "Category with ID ${id} not found". */
  function MissingCategory(id: Id): string {
    "Category with ID " + Decimal(id) + " not found"
  }

  /** `findByIdAndUpdate(id, dto)`: each field the DTO carries replaces the stored one. */
  function Apply(c: Category, dto: UpdateCategoryDto): Category {
    Category(
      dto.name.GetOr(c.name),
      if dto.description.Some? then dto.description else c.description,
      dto.products.GetOr(c.products))
  }

  /** `create`: reject unless every listed id matches a distinct existing
      product, save the category, then push its id onto the listed products. */
  function CreateStep(s: Catalog, id: Id, dto: CreateCategoryDto): Step<Category> {
    var listed := Listed(dto.products);
    if |listed| > 0 && CountExisting(listed, s.products.Keys) != |listed| then
      Step(Err(NotFound(ProductsNotFound)), s)
    else
      var saved := Category(dto.name, dto.description, listed);
      Step(Ok(saved), Catalog(
        s.categories[id := saved],
        if |listed| > 0 then PushCategoryRef(s.products, listed, id) else s.products))
  }

  /** `update`: on a non-empty new list, pull the id from the products of the
      old list and push it onto those of the new one; then overwrite the fields. */
  function UpdateStep(s: Catalog, id: Id, dto: UpdateCategoryDto): Step<Category> {
    if id !in s.categories then Step(Err(NotFound(MissingCategory(id))), s)
    else
      var current := s.categories[id];
      var prods :=
        if dto.products.Some? && |dto.products.value| > 0
        then PushCategoryRef(PullCategoryRef(s.products, current.products, id), dto.products.value, id)
        else s.products;
      var updated := Apply(current, dto);
      Step(Ok(updated), Catalog(s.categories[id := updated], prods))
  }

  /** `remove`: pull the id from every listed product, then delete the category. */
  function RemoveStep(s: Catalog, id: Id): Step<string> {
    if id !in s.categories then Step(Err(NotFound(NotFoundMessage)), s)
    else
      var listed := s.categories[id].products;
      Step(Ok(Deleted), Catalog(
        s.categories - {id},
        if |listed| > 0 then PullCategoryRef(s.products, listed, id) else s.products))
  }

  /** `findAll` as written: the reported page and limit fall back to the
      defaults, but the query is given the raw requested `limit`. */
  function FindAllAsWritten(cats: map<Id, Category>, q: PaginationQuery, d: Defaults): (r: Page<Category>)
    requires ValidDefaults(d)
    ensures r.total == |cats| && r.page == Resolve(q, d).page && r.limit == Resolve(q, d).limit
    ensures q.limit.Some? && q.limit.value > 0 ==> r == Pagination.FindAll(cats, q, d)
    ensures (q.limit.None? || q.limit.value == 0) ==>
              |r.data| == (if Resolve(q, d).skip < |cats| then |cats| - Resolve(q, d).skip else 0)
    ensures (q.limit.None? || q.limit.value == 0) ==>
              r.data == (if Resolve(q, d).skip < |cats| then InOrder(cats)[Resolve(q, d).skip..] else [])
  {
    var p := Resolve(q, d);
    Page(Window(InOrder(cats), p.skip, CursorCap(q.limit)), |cats|, p.page, p.limit)
  }

  /** Without a requested limit the written query returns every category
      after `skip`, more than the `limit` it reports once there are more than
      `defaultLimit` of them. */
  lemma FindAllAsWrittenOverrunsLimit(cats: map<Id, Category>)
    requires |cats| == 11
    ensures var r := FindAllAsWritten(cats, PaginationQuery(None, None), ConfigFallback);
            r.limit == 10 && |r.data| == 11
  {
  }

  class CategoryService {
    const store: Database

    constructor (store: Database)
      ensures this.store == store
    {
      this.store := store;
    }

    /** `id` is the ObjectId the driver assigns to the new document. */
    method Create(id: Id, dto: CreateCategoryDto) returns (r: Result<Category>)
      requires id !in store.categories
      modifies store
      ensures Step(r, store.Snapshot()) == CreateStep(old(store.Snapshot()), id, dto)
      ensures store.orders == old(store.orders)
    {
      var listed := Listed(dto.products);
      if |listed| > 0 {
        var found := CountExisting(listed, store.products.Keys);
        if found != |listed| {
          return Err(NotFound(ProductsNotFound));
        }
      }
      var saved := Category(dto.name, dto.description, listed);
      store.categories := store.categories[id := saved];
      if |listed| > 0 {
        store.products := PushCategoryRef(store.products, listed, id);
      }
      r := Ok(saved);
    }

    /** Lists one page of categories (with the limit the query should apply). */
    method FindAll(q: PaginationQuery, d: Defaults) returns (r: Page<Category>)
      requires ValidDefaults(d)
      ensures r == Pagination.FindAll(store.categories, q, d)
      ensures r.total == |store.categories| && |r.data| <= r.limit
    {
      var p := Resolve(q, d);
      var data := Window(InOrder(store.categories), p.skip, Some(p.limit));
      r := Page(data, |store.categories|, p.page, p.limit);
    }

    method FindOne(id: Id) returns (r: Result<Category>)
      ensures id in store.categories ==> r == Ok(store.categories[id])
      ensures id !in store.categories ==> r == Err(NotFound(NotFoundMessage))
    {
      if id !in store.categories {
        return Err(NotFound(NotFoundMessage));
      }
      r := Ok(store.categories[id]);
    }

    method Update(id: Id, dto: UpdateCategoryDto) returns (r: Result<Category>)
      modifies store
      ensures Step(r, store.Snapshot()) == UpdateStep(old(store.Snapshot()), id, dto)
      ensures store.orders == old(store.orders)
    {
      if id !in store.categories {
        return Err(NotFound(MissingCategory(id)));
      }
      var category := store.categories[id];
      if dto.products.Some? && |dto.products.value| > 0 {
        store.products := PullCategoryRef(store.products, category.products, id);
        store.products := PushCategoryRef(store.products, dto.products.value, id);
      }
      var updated := Apply(category, dto);
      store.categories := store.categories[id := updated];
      r := Ok(updated);
    }

    method Remove(id: Id) returns (r: Result<string>)
      modifies store
      ensures Step(r, store.Snapshot()) == RemoveStep(old(store.Snapshot()), id)
      ensures store.orders == old(store.orders)
    {
      if id !in store.categories {
        return Err(NotFound(NotFoundMessage));
      }
      var category := store.categories[id];
      if |category.products| > 0 {
        store.products := PullCategoryRef(store.products, category.products, id);
      }
      store.categories := store.categories - {id};
      r := Ok(Deleted);
    }
  }

  // Properties of the steps.

  /** A create is refused, and writes nothing, exactly when the list is
      non-empty and repeats an id or names a missing product. */
  lemma CreateRejects(s: Catalog, id: Id, dto: CreateCategoryDto)
    ensures var L := Listed(dto.products);
            (CreateStep(s, id, dto).result.Err? <==>
               |L| > 0 && !(NoDup(L) && forall p :: p in L ==> p in s.products))
    ensures CreateStep(s, id, dto).result.Err? ==>
              CreateStep(s, id, dto) == Step(Err(NotFound(ProductsNotFound)), s)
  {
    CountExistingExact(Listed(dto.products), s.products.Keys);
  }

  /** A successful create stores exactly the supplied list, appends the new
      id once to each listed product and changes nothing else. */
  lemma CreateEffect(s: Catalog, id: Id, dto: CreateCategoryDto)
    requires CreateStep(s, id, dto).result.Ok?
    ensures var t := CreateStep(s, id, dto).catalog;
            var L := Listed(dto.products);
            && t.categories == s.categories[id := Category(dto.name, dto.description, L)]
            && t.products.Keys == s.products.Keys
            && forall p :: p in s.products ==>
                 t.products[p] == s.products[p].(categories :=
                   if p in L then s.products[p].categories + [id] else s.products[p].categories)
  {
  }

  /** A create without products touches no product. */
  lemma CreateWithoutProducts(s: Catalog, id: Id, dto: CreateCategoryDto)
    requires Listed(dto.products) == []
    ensures CreateStep(s, id, dto).result.Ok?
    ensures CreateStep(s, id, dto).catalog.products == s.products
  {
  }

  /** Create keeps the cross-references consistent. */
  lemma CreatePreservesLinked(s: Catalog, id: Id, dto: CreateCategoryDto)
    requires Linked(s.categories, s.products) && id !in s.categories
    ensures var t := CreateStep(s, id, dto).catalog; Linked(t.categories, t.products)
  {
    var L := Listed(dto.products);
    var t := CreateStep(s, id, dto);
    CountExistingExact(L, s.products.Keys);
    if t.result.Ok? {
      var saved := Category(dto.name, dto.description, L);
      assert CategoryLinks(t.catalog.categories) == CategoryLinks(s.categories)[id := L];
      if |L| > 0 {
        AttachPreserves(CategoryLinks(s.categories), ProductLinks(s.products), id, L);
      } else {
        AttachPreserves(CategoryLinks(s.categories), ProductLinks(s.products), id, []);
        assert Push(ProductLinks(s.products), [], id) == ProductLinks(s.products);
      }
    }
  }

  /** Update and remove of a missing category fail before any write. */
  lemma MissingCategoryUntouched(s: Catalog, id: Id, dto: UpdateCategoryDto)
    requires id !in s.categories
    ensures UpdateStep(s, id, dto) == Step(Err(NotFound(MissingCategory(id))), s)
    ensures RemoveStep(s, id) == Step(Err(NotFound(NotFoundMessage)), s)
  {
  }

  /** An update with a non-empty list pulls the id from every product of the
      old list, appends it once to every existing product of the new list
      (ids of missing products are ignored) and overwrites the fields. */
  lemma UpdateRelinks(s: Catalog, id: Id, dto: UpdateCategoryDto)
    requires id in s.categories && dto.products.Some? && |dto.products.value| > 0
    ensures var t := UpdateStep(s, id, dto);
            var old_ := s.categories[id].products;
            var new_ := dto.products.value;
            && t.result == Ok(Apply(s.categories[id], dto))
            && t.catalog.categories == s.categories[id := Apply(s.categories[id], dto)]
            && t.catalog.products.Keys == s.products.Keys
            && forall p :: p in s.products ==>
                 var pulled := if p in old_ then Without(s.products[p].categories, id) else s.products[p].categories;
                 t.catalog.products[p] == s.products[p].(categories := if p in new_ then pulled + [id] else pulled)
  {
  }

  /** An update without a list, or with an empty one, touches no product but
      still overwrites the category's fields. */
  lemma UpdateWithoutRelink(s: Catalog, id: Id, dto: UpdateCategoryDto)
    requires id in s.categories && (dto.products.None? || dto.products.value == [])
    ensures UpdateStep(s, id, dto).catalog
         == Catalog(s.categories[id := Apply(s.categories[id], dto)], s.products)
  {
  }

  /** An update with a non-empty list keeps the cross-references consistent
      exactly when the new list repeats nothing and names only existing
      products. */
  lemma UpdateLinkedIff(s: Catalog, id: Id, dto: UpdateCategoryDto)
    requires Linked(s.categories, s.products) && id in s.categories
    requires dto.products.Some? && |dto.products.value| > 0
    ensures var t := UpdateStep(s, id, dto).catalog;
            (Linked(t.categories, t.products) <==>
               NoDup(dto.products.value) && forall p :: p in dto.products.value ==> p in s.products)
  {
    var L := dto.products.value;
    var t := UpdateStep(s, id, dto).catalog;
    var a: Links, b: Links := CategoryLinks(s.categories), ProductLinks(s.products);
    assert CategoryLinks(t.categories) == a[id := L];
    RelinkIff(a, b, id, L);
  }

  /** An update with an explicitly empty list keeps the cross-references
      consistent only when the category listed no product: otherwise those
      products keep pointing at it. */
  lemma UpdateEmptyListIff(s: Catalog, id: Id, dto: UpdateCategoryDto)
    requires Linked(s.categories, s.products) && id in s.categories
    requires dto.products == Some([])
    ensures var t := UpdateStep(s, id, dto).catalog;
            Linked(t.categories, t.products) <==> s.categories[id].products == []
  {
    var t := UpdateStep(s, id, dto).catalog;
    var a: Links, b: Links := CategoryLinks(s.categories), ProductLinks(s.products);
    assert CategoryLinks(t.categories) == a[id := []];
    OverwriteIff(a, b, id);
  }

  /** An update without a list keeps the cross-references consistent. */
  lemma UpdateWithoutListPreservesLinked(s: Catalog, id: Id, dto: UpdateCategoryDto)
    requires Linked(s.categories, s.products) && dto.products.None?
    ensures var t := UpdateStep(s, id, dto).catalog; Linked(t.categories, t.products)
  {
    var t := UpdateStep(s, id, dto).catalog;
    if id in s.categories {
      assert CategoryLinks(t.categories) == CategoryLinks(s.categories);
    }
  }

  /** A remove, whatever state the references are in, deletes the category,
      pulls its id from exactly the products it lists and changes nothing
      else. */
  lemma RemoveEffect(s: Catalog, id: Id)
    requires id in s.categories
    ensures var t := RemoveStep(s, id);
            var L := s.categories[id].products;
            && t.result == Ok(Deleted)
            && t.catalog.categories == s.categories - {id}
            && t.catalog.products.Keys == s.products.Keys
            && forall p :: p in s.products ==>
                 t.catalog.products[p] == s.products[p].(categories :=
                   if p in L then Without(s.products[p].categories, id) else s.products[p].categories)
  {
  }

  /** Emptying a category's list by an update and then removing it leaves
      its id in every product it listed before: remove only visits the
      products the stored list names, and the update has already cleared it. */
  lemma EmptyUpdateThenRemoveLeavesReference(s: Catalog, id: Id, p: Id, dto: UpdateCategoryDto)
    requires id in s.categories && p in s.products && id in s.products[p].categories
    requires dto.products == Some([])
    ensures var t := RemoveStep(UpdateStep(s, id, dto).catalog, id).catalog;
            id !in t.categories && p in t.products && id in t.products[p].categories
  {
  }

  /** After a remove the category is gone, no product lists it any more and
      the cross-references stay consistent. */
  lemma RemoveClears(s: Catalog, id: Id)
    requires Linked(s.categories, s.products) && id in s.categories
    ensures var t := RemoveStep(s, id).catalog;
            && id !in t.categories
            && (forall p :: p in t.products ==> id !in t.products[p].categories)
            && Linked(t.categories, t.products)
  {
    var t := RemoveStep(s, id).catalog;
    var a: Links, b: Links := CategoryLinks(s.categories), ProductLinks(s.products);
    DetachPreserves(a, b, id);
    var gone: set<Id> := {id};
    assert CategoryLinks(t.categories) == a - gone;
    if a[id] == [] {
      assert Pull(b, a[id], id) == b;
    }
    assert ProductLinks(t.products) == Pull(b, a[id], id);
  }
}
