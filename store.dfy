/** The document store: the Category, Product and Order collections as maps
    from id to document, the record-level `$push`/`$pull` updates that the
    category and product services issue, and the database object the
    services share. */
module Store {
  import opened Wrappers
  import opened Links
  import opened Calendar

  /** A category document; `products` lists product ids. */
  datatype Category = Category(name: string, description: Option<string>, products: seq<Id>)

  /** A product document; `categories` lists category ids. `imageUrl` is the
      address the upload returned, kept opaque. */
  datatype Product = Product(
    name: string,
    description: Option<string>,
    price: real,
    imageUrl: Option<string>,
    categories: seq<Id>)

  /** An order document: caller-supplied date, product ids and total. */
  datatype Order = Order(date: Instant, products: seq<Id>, total: real)

  /** The message of every "not found" error except the two below. */
  const NotFoundMessage: string := "Not found"

  /** The reply to a successful delete. */
  const Deleted: string := "Successfully deleted"

  /** The ids a create request lists; an absent list stores as empty. */
  function Listed(ids: Option<seq<Id>>): seq<Id> {
    ids.GetOr([])
  }

  /** The id lists the categories keep. */
  function CategoryLinks(cats: map<Id, Category>): (r: Links)
    ensures r.Keys == cats.Keys
  {
    map c | c in cats :: cats[c].products
  }

  /** The id lists the products keep. */
  function ProductLinks(prods: map<Id, Product>): (r: Links)
    ensures r.Keys == prods.Keys
  {
    map p | p in prods :: prods[p].categories
  }

  /** Cross-reference consistency: a product lists a category exactly when
      that category lists the product, no reference dangles and no list
      repeats an id. */
  ghost predicate Linked(cats: map<Id, Category>, prods: map<Id, Product>) {
    Mirrored(CategoryLinks(cats), ProductLinks(prods))
  }

  /** `productModel.updateMany({_id: {$in: targets}}, {$push: {categories: c}})`. */
  function PushCategoryRef(prods: map<Id, Product>, targets: seq<Id>, c: Id): (r: map<Id, Product>)
    ensures r.Keys == prods.Keys
    ensures forall p :: p in r ==> r[p].(categories := prods[p].categories) == prods[p]
    ensures ProductLinks(r) == Push(ProductLinks(prods), targets, c)
  {
    map p | p in prods :: if p in targets then prods[p].(categories := prods[p].categories + [c]) else prods[p]
  }

  /** `productModel.updateMany({_id: {$in: targets}}, {$pull: {categories: c}})`. */
  function PullCategoryRef(prods: map<Id, Product>, targets: seq<Id>, c: Id): (r: map<Id, Product>)
    ensures r.Keys == prods.Keys
    ensures forall p :: p in r ==> r[p].(categories := prods[p].categories) == prods[p]
    ensures ProductLinks(r) == Pull(ProductLinks(prods), targets, c)
  {
    map p | p in prods :: if p in targets then prods[p].(categories := Without(prods[p].categories, c)) else prods[p]
  }

  /** `categoryModel.updateMany({_id: {$in: targets}}, {$push: {products: p}})`. */
  function PushProductRef(cats: map<Id, Category>, targets: seq<Id>, p: Id): (r: map<Id, Category>)
    ensures r.Keys == cats.Keys
    ensures forall c :: c in r ==> r[c].(products := cats[c].products) == cats[c]
    ensures CategoryLinks(r) == Push(CategoryLinks(cats), targets, p)
  {
    map c | c in cats :: if c in targets then cats[c].(products := cats[c].products + [p]) else cats[c]
  }

  /** `categoryModel.updateMany({_id: {$in: targets}}, {$pull: {products: p}})`. */
  function PullProductRef(cats: map<Id, Category>, targets: seq<Id>, p: Id): (r: map<Id, Category>)
    ensures r.Keys == cats.Keys
    ensures forall c :: c in r ==> r[c].(products := cats[c].products) == cats[c]
    ensures CategoryLinks(r) == Pull(CategoryLinks(cats), targets, p)
  {
    map c | c in cats :: if c in targets then cats[c].(products := Without(cats[c].products, p)) else cats[c]
  }

  /** The two cross-referenced collections at one moment. */
  datatype Catalog = Catalog(categories: map<Id, Category>, products: map<Id, Product>)

  /** What a service call returns, and the catalog it leaves behind. */
  datatype Step<T> = Step(result: Result<T>, catalog: Catalog)

  /** The database every service is injected with. */
  class Database {
    var categories: map<Id, Category>
    var products: map<Id, Product>
    var orders: map<Id, Order>

    constructor ()
      ensures categories == map[] && products == map[] && orders == map[]
    {
      categories, products, orders := map[], map[], map[];
    }

    function Snapshot(): Catalog
      reads this
    {
      Catalog(categories, products)
    }
  }
}
