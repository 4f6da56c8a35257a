/** The product service: create, list, read, update and delete products,
    keeping each listed category's `products` back-reference in step. The
    image upload is outside the model: `imageUrl` arrives as a plain field. */
module Products {
  import opened Wrappers
  import opened Links
  import opened Pagination
  import opened Store
  import Categories

  /** The body of a create request, as the controller passes it on. */
  datatype CreateProductDto = CreateProductDto(
    name: string,
    description: Option<string>,
    price: real,
    imageUrl: Option<string>,
    categories: Option<seq<Id>>)

  /** The body of an update request: every field optional. */
  datatype UpdateProductDto = UpdateProductDto(
    name: Option<string>,
    description: Option<string>,
    price: Option<real>,
    imageUrl: Option<string>,
    categories: Option<seq<Id>>)

  const CategoriesNotFound: string := "One or more categories not found"

  /** `findByIdAndUpdate(id, dto)`: each field the DTO carries replaces the stored one. */
  function Apply(p: Product, dto: UpdateProductDto): Product {
    Product(
      dto.name.GetOr(p.name),
      if dto.description.Some? then dto.description else p.description,
      dto.price.GetOr(p.price),
      if dto.imageUrl.Some? then dto.imageUrl else p.imageUrl,
      dto.categories.GetOr(p.categories))
  }

  /** `create`: reject unless every listed id matches a distinct existing
      category, save the product, then push its id onto the listed categories. */
  function CreateStep(s: Catalog, id: Id, dto: CreateProductDto): Step<Product> {
    var listed := Listed(dto.categories);
    if |listed| > 0 && CountExisting(listed, s.categories.Keys) != |listed| then
      Step(Err(NotFound(CategoriesNotFound)), s)
    else
      var saved := Product(dto.name, dto.description, dto.price, dto.imageUrl, listed);
      Step(Ok(saved), Catalog(
        if |listed| > 0 then PushProductRef(s.categories, listed, id) else s.categories,
        s.products[id := saved]))
  }

  /** `update`: on a non-empty new list, pull the id from the categories of
      the old list and push it onto those of the new one; then overwrite the
      fields. */
  function UpdateStep(s: Catalog, id: Id, dto: UpdateProductDto): Step<Product> {
    if id !in s.products then Step(Err(NotFound(NotFoundMessage)), s)
    else
      var current := s.products[id];
      var cats :=
        if dto.categories.Some? && |dto.categories.value| > 0
        then PushProductRef(PullProductRef(s.categories, current.categories, id), dto.categories.value, id)
        else s.categories;
      var updated := Apply(current, dto);
      Step(Ok(updated), Catalog(cats, s.products[id := updated]))
  }

  /** `remove`: pull the id from every listed category, then delete the product. */
  function RemoveStep(s: Catalog, id: Id): Step<string> {
    if id !in s.products then Step(Err(NotFound(NotFoundMessage)), s)
    else
      var listed := s.products[id].categories;
      Step(Ok(Deleted), Catalog(
        if |listed| > 0 then PullProductRef(s.categories, listed, id) else s.categories,
        s.products - {id}))
  }

  class ProductService {
    const store: Database

    constructor (store: Database)
      ensures this.store == store
    {
      this.store := store;
    }

    /** `id` is the ObjectId the driver assigns to the new document. */
    method Create(id: Id, dto: CreateProductDto) returns (r: Result<Product>)
      requires id !in store.products
      modifies store
      ensures Step(r, store.Snapshot()) == CreateStep(old(store.Snapshot()), id, dto)
      ensures store.orders == old(store.orders)
    {
      var listed := Listed(dto.categories);
      if |listed| > 0 {
        var found := CountExisting(listed, store.categories.Keys);
        if found != |listed| {
          return Err(NotFound(CategoriesNotFound));
        }
      }
      var saved := Product(dto.name, dto.description, dto.price, dto.imageUrl, listed);
      store.products := store.products[id := saved];
      if |listed| > 0 {
        store.categories := PushProductRef(store.categories, listed, id);
      }
      r := Ok(saved);
    }

    method FindAll(q: PaginationQuery, d: Defaults) returns (r: Page<Product>)
      requires ValidDefaults(d)
      ensures r == Pagination.FindAll(store.products, q, d)
      ensures r.total == |store.products| && |r.data| <= r.limit
    {
      var p := Resolve(q, d);
      var data := Window(InOrder(store.products), p.skip, Some(p.limit));
      r := Page(data, |store.products|, p.page, p.limit);
    }

    method FindOne(id: Id) returns (r: Result<Product>)
      ensures id in store.products ==> r == Ok(store.products[id])
      ensures id !in store.products ==> r == Err(NotFound(NotFoundMessage))
    {
      if id !in store.products {
        return Err(NotFound(NotFoundMessage));
      }
      r := Ok(store.products[id]);
    }

    method Update(id: Id, dto: UpdateProductDto) returns (r: Result<Product>)
      modifies store
      ensures Step(r, store.Snapshot()) == UpdateStep(old(store.Snapshot()), id, dto)
      ensures store.orders == old(store.orders)
    {
      if id !in store.products {
        return Err(NotFound(NotFoundMessage));
      }
      var product := store.products[id];
      if dto.categories.Some? && |dto.categories.value| > 0 {
        store.categories := PullProductRef(store.categories, product.categories, id);
        store.categories := PushProductRef(store.categories, dto.categories.value, id);
      }
      var updated := Apply(product, dto);
      store.products := store.products[id := updated];
      r := Ok(updated);
    }

    method Remove(id: Id) returns (r: Result<string>)
      modifies store
      ensures Step(r, store.Snapshot()) == RemoveStep(old(store.Snapshot()), id)
      ensures store.orders == old(store.orders)
    {
      if id !in store.products {
        return Err(NotFound(NotFoundMessage));
      }
      var product := store.products[id];
      if |product.categories| > 0 {
        store.categories := PullProductRef(store.categories, product.categories, id);
      }
      store.products := store.products - {id};
      r := Ok(Deleted);
    }
  }

  // Properties of the steps.

  /** A create is refused, and writes nothing, exactly when the list is
      non-empty and repeats an id or names a missing category. */
  lemma CreateRejects(s: Catalog, id: Id, dto: CreateProductDto)
    ensures var L := Listed(dto.categories);
            (CreateStep(s, id, dto).result.Err? <==>
               |L| > 0 && !(NoDup(L) && forall c :: c in L ==> c in s.categories))
    ensures CreateStep(s, id, dto).result.Err? ==>
              CreateStep(s, id, dto) == Step(Err(NotFound(CategoriesNotFound)), s)
  {
    CountExistingExact(Listed(dto.categories), s.categories.Keys);
  }

  /** A successful create stores the given list, appends the new id once to
      each listed category and changes no other category. */
  lemma CreateEffect(s: Catalog, id: Id, dto: CreateProductDto)
    requires CreateStep(s, id, dto).result.Ok?
    ensures var t := CreateStep(s, id, dto).catalog;
            var L := Listed(dto.categories);
            && t.products == s.products[id := Product(dto.name, dto.description, dto.price, dto.imageUrl, L)]
            && t.categories.Keys == s.categories.Keys
            && forall c :: c in s.categories ==>
                 t.categories[c] == s.categories[c].(products :=
                   if c in L then s.categories[c].products + [id] else s.categories[c].products)
  {
  }

  /** Create keeps the cross-references consistent. */
  lemma CreatePreservesLinked(s: Catalog, id: Id, dto: CreateProductDto)
    requires Linked(s.categories, s.products) && id !in s.products
    ensures var t := CreateStep(s, id, dto).catalog; Linked(t.categories, t.products)
  {
    var L := Listed(dto.categories);
    var t := CreateStep(s, id, dto);
    var a: Links, b: Links := CategoryLinks(s.categories), ProductLinks(s.products);
    CountExistingExact(L, s.categories.Keys);
    MirroredSymmetric(a, b);
    if t.result.Ok? {
      assert ProductLinks(t.catalog.products) == b[id := L];
      AttachPreserves(b, a, id, L);
      if |L| == 0 {
        assert Push(a, [], id) == a;
      }
      MirroredSymmetric(CategoryLinks(t.catalog.categories), ProductLinks(t.catalog.products));
    }
  }

  /** Update and remove of a missing product fail before any write. */
  lemma MissingProductUntouched(s: Catalog, id: Id, dto: UpdateProductDto)
    requires id !in s.products
    ensures UpdateStep(s, id, dto) == Step(Err(NotFound(NotFoundMessage)), s)
    ensures RemoveStep(s, id) == Step(Err(NotFound(NotFoundMessage)), s)
  {
  }

  /** An update with a non-empty list pulls the id from every category of the
      old list, appends it once to every existing category of the new list
      and overwrites the fields. */
  lemma UpdateRelinks(s: Catalog, id: Id, dto: UpdateProductDto)
    requires id in s.products && dto.categories.Some? && |dto.categories.value| > 0
    ensures var t := UpdateStep(s, id, dto);
            var old_ := s.products[id].categories;
            var new_ := dto.categories.value;
            && t.result == Ok(Apply(s.products[id], dto))
            && t.catalog.products == s.products[id := Apply(s.products[id], dto)]
            && t.catalog.categories.Keys == s.categories.Keys
            && forall c :: c in s.categories ==>
                 var pulled := if c in old_ then Without(s.categories[c].products, id) else s.categories[c].products;
                 t.catalog.categories[c] == s.categories[c].(products := if c in new_ then pulled + [id] else pulled)
  {
  }

  /** An update with an empty or absent list touches no category but still
      overwrites the product's fields, `categories` included. */
  lemma UpdateWithoutRelink(s: Catalog, id: Id, dto: UpdateProductDto)
    requires id in s.products && (dto.categories.None? || dto.categories.value == [])
    ensures UpdateStep(s, id, dto).catalog
         == Catalog(s.categories, s.products[id := Apply(s.products[id], dto)])
  {
  }

  /** An update with a non-empty list keeps the cross-references consistent
      exactly when the new list repeats nothing and names only existing
      categories. */
  lemma UpdateLinkedIff(s: Catalog, id: Id, dto: UpdateProductDto)
    requires Linked(s.categories, s.products) && id in s.products
    requires dto.categories.Some? && |dto.categories.value| > 0
    ensures var t := UpdateStep(s, id, dto).catalog;
            (Linked(t.categories, t.products) <==>
               NoDup(dto.categories.value) && forall c :: c in dto.categories.value ==> c in s.categories)
  {
    var L := dto.categories.value;
    var t := UpdateStep(s, id, dto).catalog;
    var a: Links, b: Links := CategoryLinks(s.categories), ProductLinks(s.products);
    assert ProductLinks(t.products) == b[id := L];
    MirroredSymmetric(a, b);
    RelinkIff(b, a, id, L);
    MirroredSymmetric(CategoryLinks(t.categories), ProductLinks(t.products));
  }

  /** An update with `categories: []` keeps the cross-references consistent
      only when the product listed no category: otherwise those categories
      keep pointing at it. */
  lemma UpdateEmptyListIff(s: Catalog, id: Id, dto: UpdateProductDto)
    requires Linked(s.categories, s.products) && id in s.products
    requires dto.categories == Some([])
    ensures var t := UpdateStep(s, id, dto).catalog;
            Linked(t.categories, t.products) <==> s.products[id].categories == []
  {
    var t := UpdateStep(s, id, dto).catalog;
    var a: Links, b: Links := CategoryLinks(s.categories), ProductLinks(s.products);
    assert ProductLinks(t.products) == b[id := []];
    MirroredSymmetric(a, b);
    OverwriteIff(b, a, id);
    MirroredSymmetric(a, b[id := []]);
  }

  /** A remove, whatever state the references are in, deletes the product,
      pulls its id from exactly the categories it lists and changes nothing
      else. */
  lemma RemoveEffect(s: Catalog, id: Id)
    requires id in s.products
    ensures var t := RemoveStep(s, id);
            var L := s.products[id].categories;
            && t.result == Ok(Deleted)
            && t.catalog.products == s.products - {id}
            && t.catalog.categories.Keys == s.categories.Keys
            && forall c :: c in s.categories ==>
                 t.catalog.categories[c] == s.categories[c].(products :=
                   if c in L then Without(s.categories[c].products, id) else s.categories[c].products)
  {
  }

  /** Emptying a product's list by an update and then removing it leaves its
      id in every category that listed it. */
  lemma EmptyUpdateThenRemoveLeavesReference(s: Catalog, id: Id, c: Id, dto: UpdateProductDto)
    requires id in s.products && c in s.categories && id in s.categories[c].products
    requires dto.categories == Some([])
    ensures var t := RemoveStep(UpdateStep(s, id, dto).catalog, id).catalog;
            id !in t.products && c in t.categories && id in t.categories[c].products
  {
  }

  /** After a remove the product is gone, no category lists it any more and
      the cross-references stay consistent. */
  lemma RemoveClears(s: Catalog, id: Id)
    requires Linked(s.categories, s.products) && id in s.products
    ensures var t := RemoveStep(s, id).catalog;
            && id !in t.products
            && (forall c :: c in t.categories ==> id !in t.categories[c].products)
            && Linked(t.categories, t.products)
  {
    var t := RemoveStep(s, id).catalog;
    var a: Links, b: Links := CategoryLinks(s.categories), ProductLinks(s.products);
    MirroredSymmetric(a, b);
    DetachPreserves(b, a, id);
    var gone: set<Id> := {id};
    assert ProductLinks(t.products) == b - gone;
    if b[id] == [] {
      assert Pull(a, b[id], id) == a;
    }
    assert CategoryLinks(t.categories) == Pull(a, b[id], id);
    MirroredSymmetric(CategoryLinks(t.categories), ProductLinks(t.products));
  }

  /** Creating a category with no products and then a product listing that
      category leaves the category listing the product. */
  lemma CategoryThenProduct(s: Catalog, books: Id, novel: Id, c: Categories.CreateCategoryDto, p: CreateProductDto)
    requires books !in s.categories
    requires Listed(c.products) == [] && p.categories == Some([books])
    ensures var s1 := Categories.CreateStep(s, books, c).catalog;
            var s2 := CreateStep(s1, novel, p);
            s2.result.Ok? && s2.catalog.categories[books].products == [novel]
  {
    var s1 := Categories.CreateStep(s, books, c).catalog;
    assert Existing([books], s1.categories.Keys) == {books};
  }

  /** The same scenario run through the two services on one database. */
  method CategoryThenProductOnServices() returns (listed: seq<Id>)
    ensures listed == [2]
  {
    var db := new Database();
    var categories := new Categories.CategoryService(db);
    var products := new ProductService(db);
    var c := categories.Create(1, Categories.CreateCategoryDto("Books", None, None));
    assert Existing([1], db.categories.Keys) == {1};
    var p := products.Create(2, CreateProductDto("Novel", None, 10.0, None, Some([1])));
    listed := db.categories[1].products;
  }
}
