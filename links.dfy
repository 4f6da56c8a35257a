/** The denormalised back-references between categories and products, seen
    as maps from a document id to the id list it stores (`Category.products`
    or `Product.categories`), and the two Mongo array updates that act on them. */
module Links {

  /** A document identifier (a Mongo ObjectId). */
  type Id = nat

  /** For each document of one collection, the id list it keeps. */
  type Links = map<Id, seq<Id>>

  predicate NoDup<T(==)>(s: seq<T>) {
    forall i, j :: 0 <= i < j < |s| ==> s[i] != s[j]
  }

  lemma NoDupCons<T>(h: T, t: seq<T>)
    ensures NoDup([h] + t) <==> h !in t && NoDup(t)
  {
    var s := [h] + t;
    if h in t {
      var j :| 0 <= j < |t| && t[j] == h;
      assert s[0] == s[j + 1];
    }
    if !NoDup(t) {
      var i, j :| 0 <= i < j < |t| && t[i] == t[j];
      assert s[i + 1] == s[j + 1];
    }
  }

  /** `$pull`: the list with every occurrence of `x` removed, order kept. */
  function Without(s: seq<Id>, x: Id): (r: seq<Id>)
    ensures forall y :: y in r <==> y in s && y != x
    ensures multiset(r) == multiset(s)[x := 0]
    ensures NoDup(s) ==> NoDup(r)
  {
    if s == [] then []
    else
      var rest := Without(s[1..], x);
      assert s == [s[0]] + s[1..];
      NoDupCons(s[0], s[1..]);
      if s[0] == x then rest
      else NoDupCons(s[0], rest); [s[0]] + rest
  }

  /** `$pull` distributes over concatenation, so the elements it keeps stay
      in their original order. */
  lemma {:induction false} WithoutConcat(a: seq<Id>, b: seq<Id>, x: Id)
    ensures Without(a + b, x) == Without(a, x) + Without(b, x)
  {
    if a != [] {
      WithoutConcat(a[1..], b, x);
      assert (a + b)[1..] == a[1..] + b;
    } else {
      assert a + b == b;
    }
  }

  /** `updateMany({_id: {$in: targets}}, {$push: {field: x}})`: every existing
      document named in `targets` gets `x` appended once, however often its
      id is listed. */
  function Push(m: Links, targets: seq<Id>, x: Id): Links {
    map y | y in m :: if y in targets then m[y] + [x] else m[y]
  }

  /** `updateMany({_id: {$in: targets}}, {$pull: {field: x}})`. */
  function Pull(m: Links, targets: seq<Id>, x: Id): Links {
    map y | y in m :: if y in targets then Without(m[y], x) else m[y]
  }

  /** `find({_id: {$in: ids}}).length`: the number of distinct existing
      documents that `ids` names. */
  function CountExisting(ids: seq<Id>, keys: set<Id>): nat {
    |Existing(ids, keys)|
  }

  /** The existing documents that `ids` names. */
  function Existing(ids: seq<Id>, keys: set<Id>): set<Id> {
    set y | y in ids && y in keys
  }

  /** The two sides agree: every stored id names an existing document, `y`
      lists `x` exactly when `x` lists `y`, and no list repeats an id. */
  ghost predicate Mirrored(a: Links, b: Links) {
    && (forall x, y :: x in a && y in a[x] ==> y in b)
    && (forall y, x :: y in b && x in b[y] ==> x in a)
    && (forall x, y :: x in a && y in b ==> (y in a[x] <==> x in b[y]))
    && (forall x :: x in a ==> NoDup(a[x]))
    && (forall y :: y in b ==> NoDup(b[y]))
  }

  /** The existence check of a create: the count of matched documents equals
      the length of the list exactly when the list repeats no id and every id
      exists. */
  lemma {:induction false} CountExistingExact(ids: seq<Id>, keys: set<Id>)
    ensures CountExisting(ids, keys) <= |ids|
    ensures CountExisting(ids, keys) == |ids| <==> NoDup(ids) && forall y :: y in ids ==> y in keys
  {
    if ids != [] {
      var h, t := ids[0], ids[1..];
      CountExistingExact(t, keys);
      assert ids == [h] + t;
      NoDupCons(h, t);
      var s, st := Existing(ids, keys), Existing(t, keys);
      if h in keys && h !in t {
        assert s == st + {h};
        assert h !in st;
      } else {
        assert s == st;
      }
    } else {
      assert Existing(ids, keys) == {};
    }
  }

  lemma MirroredSymmetric(a: Links, b: Links)
    ensures Mirrored(a, b) <==> Mirrored(b, a)
  {
  }

  /** Creating document `x` with list `ids` and pushing `x` onto every listed
      document keeps the two sides mirrored, provided `ids` repeats nothing and
      names only existing documents. */
  lemma AttachPreserves(a: Links, b: Links, x: Id, ids: seq<Id>)
    requires Mirrored(a, b) && x !in a
    requires NoDup(ids) && forall y :: y in ids ==> y in b
    ensures Mirrored(a[x := ids], Push(b, ids, x))
  {
    var b' := Push(b, ids, x);
    forall y | y in b ensures x !in b[y] {
    }
    forall y | y in b' ensures NoDup(b'[y]) {
      assert NoDup(b[y]);
    }
  }

  /** Deleting document `x` after pulling `x` from every document it lists
      keeps the sides mirrored, and afterwards no document lists `x`. */
  lemma DetachPreserves(a: Links, b: Links, x: Id)
    requires Mirrored(a, b) && x in a
    ensures Mirrored(a - {x}, Pull(b, a[x], x))
    ensures forall y :: y in b ==> x !in Pull(b, a[x], x)[y]
  {
    var b' := Pull(b, a[x], x);
    forall y | y in b ensures x !in b'[y] {
    }
  }

  /** Relinking `x` to a new non-empty list (pull from the old list, push onto
      the new one, store the new list) keeps the sides mirrored exactly when
      the new list repeats nothing and names only existing documents. */
  lemma RelinkIff(a: Links, b: Links, x: Id, ids: seq<Id>)
    requires Mirrored(a, b) && x in a
    ensures Mirrored(a[x := ids], Push(Pull(b, a[x], x), ids, x))
        <==> NoDup(ids) && forall y :: y in ids ==> y in b
  {
    var b' := Pull(b, a[x], x);
    var a' := a[x := ids];
    assert a'[x] == ids;
    DetachPreserves(a, b, x);
    if NoDup(ids) && forall y :: y in ids ==> y in b {
      AttachPreserves(a - {x}, b', x, ids);
      assert (a - {x})[x := ids] == a';
    } else if !NoDup(ids) {
      assert !NoDup(a'[x]);
    } else {
      var y :| y in ids && y !in b;
      assert y in a'[x] && y !in Push(b', ids, x);
    }
  }

  /** Storing an explicitly empty list on `x` without touching the other side
      keeps the sides mirrored exactly when `x` listed nothing before. */
  lemma OverwriteIff(a: Links, b: Links, x: Id)
    requires Mirrored(a, b) && x in a
    ensures Mirrored(a[x := []], b) <==> a[x] == []
  {
    var a' := a[x := []];
    if a[x] != [] {
      var y := a[x][0];
      assert y in a[x];
      assert y in b && x in b[y];
      assert x in a' && y !in a'[x];
    } else {
      assert a[x := []] == a;
    }
  }
}
