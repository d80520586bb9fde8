/** The product catalog as both pages see it: the `Product` record, the
    four sort orders of the listing (and the home page's by-rating order),
    the sort itself, and the category list built with a `Set`. */
module Catalog {
  import JsArray

  /** A catalog record. Prices are integer cents; ratings run from 0 to 5. */
  datatype Product = Product(
    id: int, name: string, category: string, price: int, rating: real,
    stock: bool, description: string, image: string)

  /** The sort keys of the listing's `switch (sortBy)`. */
  datatype SortKey = ByName | PriceLow | PriceHigh | ByRating

  /** The `switch` reads the select's string; anything it does not name
      falls to the `default` branch, which shares the `'name'` case. */
  function ParseSortKey(sortBy: string): (key: SortKey)
    ensures key == PriceLow <==> sortBy == "price-low"
    ensures key == PriceHigh <==> sortBy == "price-high"
    ensures key == ByRating <==> sortBy == "rating"
    ensures key == ByName <==> sortBy !in {"price-low", "price-high", "rating"}
  {
    if sortBy == "price-low" then PriceLow
    else if sortBy == "price-high" then PriceHigh
    else if sortBy == "rating" then ByRating
    else ByName
  }

  // ---------------------------------------------------------------- orders

  /** Ascending lexicographic order on code points: the stand-in for
      `a.localeCompare(b) <= 0`. */
  predicate NameAtMost(a: string, b: string)
  {
    a == [] || (b != [] && (a[0] < b[0] || (a[0] == b[0] && NameAtMost(a[1..], b[1..]))))
  }

  lemma {:induction false} NameAtMostTotal(a: string, b: string)
    ensures NameAtMost(a, b) || NameAtMost(b, a)
  {
    if a != [] && b != [] && a[0] == b[0] {
      NameAtMostTotal(a[1..], b[1..]);
    }
  }

  lemma {:induction false} NameAtMostTransitive(a: string, b: string, c: string)
    requires NameAtMost(a, b) && NameAtMost(b, c)
    ensures NameAtMost(a, c)
  {
    if a != [] && b != [] && c != [] && a[0] == b[0] && b[0] == c[0] {
      NameAtMostTransitive(a[1..], b[1..], c[1..]);
    }
  }

  /** `a` may stay ahead of `b`: the comparator of the sort gives a result
      `<= 0` for `(a, b)`. */
  predicate InOrder(key: SortKey, a: Product, b: Product)
  {
    match key
    case PriceLow => a.price <= b.price        // a.price - b.price
    case PriceHigh => b.price <= a.price       // b.price - a.price
    case ByRating => b.rating <= a.rating      // b.rating - a.rating
    case ByName => NameAtMost(a.name, b.name)  // a.name.localeCompare(b.name)
  }

  /** Every comparator of the listing is a total preorder. */
  lemma InOrderTotalPreorder(key: SortKey, a: Product, b: Product, c: Product)
    ensures InOrder(key, a, b) || InOrder(key, b, a)
    ensures InOrder(key, a, b) && InOrder(key, b, c) ==> InOrder(key, a, c)
  {
    if key == ByName {
      NameAtMostTotal(a.name, b.name);
      if NameAtMost(a.name, b.name) && NameAtMost(b.name, c.name) {
        NameAtMostTransitive(a.name, b.name, c.name);
      }
    }
  }

  ghost predicate Sorted(key: SortKey, s: seq<Product>)
  {
    forall i, j :: 0 <= i < j < |s| ==> InOrder(key, s[i], s[j])
  }

  // ---------------------------------------------------------------- sort

  /** Inserts `x` before the first element it may stay ahead of. */
  function Insert(key: SortKey, x: Product, s: seq<Product>): (r: seq<Product>)
    ensures multiset(r) == multiset(s) + multiset{x}
  {
    if s == [] || InOrder(key, x, s[0]) then [x] + s
    else
      assert s == [s[0]] + s[1..];
      [s[0]] + Insert(key, x, s[1..])
  }

  lemma {:induction false} InsertKeepsSorted(key: SortKey, x: Product, s: seq<Product>)
    requires Sorted(key, s)
    ensures Sorted(key, Insert(key, x, s))
  {
    if s == [] {
    } else if InOrder(key, x, s[0]) {
      forall j | 0 < j < |s| ensures InOrder(key, x, s[j]) {
        InOrderTotalPreorder(key, x, s[0], s[j]);
      }
      SortedCons(key, x, s);
    } else {
      var rest := Insert(key, x, s[1..]);
      InsertKeepsSorted(key, x, s[1..]);
      InOrderTotalPreorder(key, x, s[0], x);
      forall y | y in rest ensures InOrder(key, s[0], y) {
        assert y in multiset(rest);
        if y != x {
          assert y in s[1..];
        }
      }
      SortedCons(key, s[0], rest);
    }
  }

  /** A sorted sequence stays sorted behind a head that may precede each
      of its elements. */
  lemma SortedCons(key: SortKey, head: Product, rest: seq<Product>)
    requires Sorted(key, rest)
    requires forall y :: y in rest ==> InOrder(key, head, y)
    ensures Sorted(key, [head] + rest)
  {
    var r := [head] + rest;
    forall i, j | 0 <= i < j < |r| ensures InOrder(key, r[i], r[j]) {
      if i == 0 {
        assert r[j] == rest[j - 1] && rest[j - 1] in rest;
      } else {
        assert r[i] == rest[i - 1] && r[j] == rest[j - 1];
      }
    }
  }

  /** The listing's `filtered.sort(...)`, as a stable insertion sort: the
      result is a permutation of `s` in the key's order. */
  function SortBy(key: SortKey, s: seq<Product>): (r: seq<Product>)
    ensures multiset(r) == multiset(s)
    ensures Sorted(key, r)
  {
    if s == [] then []
    else
      assert s == [s[0]] + s[1..];
      var rest := SortBy(key, s[1..]);
      InsertKeepsSorted(key, s[0], rest);
      Insert(key, s[0], rest)
  }

  lemma SortedByKeyMeans(key: SortKey, s: seq<Product>)
    ensures var r := SortBy(key, s);
      && (key == PriceLow ==> forall i, j :: 0 <= i < j < |r| ==> r[i].price <= r[j].price)
      && (key == PriceHigh ==> forall i, j :: 0 <= i < j < |r| ==> r[i].price >= r[j].price)
      && (key == ByRating ==> forall i, j :: 0 <= i < j < |r| ==> r[i].rating >= r[j].rating)
      && (key == ByName ==> forall i, j :: 0 <= i < j < |r| ==> NameAtMost(r[i].name, r[j].name))
  {
  }

  // ---------------------------------------------------------------- opposite orders

  function Reverse<T>(s: seq<T>): (r: seq<T>)
    ensures |r| == |s|
    ensures forall i :: 0 <= i < |s| ==> r[i] == s[|s| - 1 - i]
  {
    if s == [] then [] else Reverse(s[1..]) + [s[0]]
  }

  lemma {:induction false} ReversePermutes<T>(s: seq<T>)
    ensures multiset(Reverse(s)) == multiset(s)
  {
    if s != [] {
      ReversePermutes(s[1..]);
      assert s == [s[0]] + s[1..];
    }
  }

  ghost predicate NoTies(key: SortKey, s: seq<Product>)
  {
    forall x, y :: x in s && y in s && InOrder(key, x, y) && InOrder(key, y, x) ==> x == y
  }

  lemma SortedHeadsAgree(key: SortKey, a: seq<Product>, b: seq<Product>)
    requires a != [] && Sorted(key, a) && Sorted(key, b) && multiset(a) == multiset(b)
    requires NoTies(key, a)
    ensures b != [] && a[0] == b[0]
  {
    assert a[0] in multiset(b);
    var i :| 0 <= i < |b| && b[i] == a[0];
    assert b[0] in multiset(a);
    var j :| 0 <= j < |a| && a[j] == b[0];
    InOrderTotalPreorder(key, a[0], a[0], a[0]);
    assert InOrder(key, b[0], a[0]) by {
      if i > 0 { assert InOrder(key, b[0], b[i]); }
    }
    assert InOrder(key, a[0], b[0]) by {
      if j > 0 { assert InOrder(key, a[0], a[j]); }
    }
    assert b[0] in a;
  }

  lemma TailPermutation<T>(a: seq<T>, b: seq<T>)
    requires a != [] && b != [] && a[0] == b[0] && multiset(a) == multiset(b)
    ensures multiset(a[1..]) == multiset(b[1..])
  {
    assert a == [a[0]] + a[1..] && b == [b[0]] + b[1..];
    assert multiset(a[1..]) == multiset(a) - multiset{a[0]};
    assert multiset(b[1..]) == multiset(b) - multiset{b[0]};
  }

  lemma SortedTail(key: SortKey, a: seq<Product>)
    requires a != [] && Sorted(key, a) && NoTies(key, a)
    ensures Sorted(key, a[1..]) && NoTies(key, a[1..])
  {
    var a' := a[1..];
    forall x, y | x in a' && y in a' && InOrder(key, x, y) && InOrder(key, y, x)
      ensures x == y
    {
      assert x in a && y in a;
    }
    forall i, j | 0 <= i < j < |a'| ensures InOrder(key, a'[i], a'[j]) {
      assert a'[i] == a[i + 1] && a'[j] == a[j + 1];
    }
  }

  /** Two sorted permutations of the same products are equal when no two
      distinct products tie under the key. */
  lemma {:induction false} SortedPermutationUnique(key: SortKey, a: seq<Product>, b: seq<Product>)
    requires Sorted(key, a) && Sorted(key, b) && multiset(a) == multiset(b)
    requires NoTies(key, a)
    ensures a == b
  {
    if a == [] {
      assert |b| == |multiset(b)| == 0;
    } else {
      SortedHeadsAgree(key, a, b);
      TailPermutation(a, b);
      SortedTail(key, a);
      assert Sorted(key, b[1..]) by {
        forall i, j | 0 <= i < j < |b[1..]| ensures InOrder(key, b[1..][i], b[1..][j]) {
          assert b[1..][i] == b[i + 1] && b[1..][j] == b[j + 1];
        }
      }
      SortedPermutationUnique(key, a[1..], b[1..]);
      assert a == [a[0]] + a[1..] && b == [b[0]] + b[1..];
    }
  }

  /** Sorting by "price-high" lists the same products as "price-low" in
      exactly the reverse order, when no two products share a price. */
  lemma PriceOrdersAreReverse(s: seq<Product>)
    requires forall i, j :: 0 <= i < j < |s| ==> s[i].price != s[j].price
    ensures SortBy(PriceHigh, s) == Reverse(SortBy(PriceLow, s))
  {
    var low := SortBy(PriceLow, s);
    var rev := Reverse(low);
    ReversePermutes(low);
    var high := SortBy(PriceHigh, s);
    forall x, y | x in high && y in high && InOrder(PriceHigh, x, y) && InOrder(PriceHigh, y, x)
      ensures x == y
    {
      assert x in multiset(s) && y in multiset(s);
      var i :| 0 <= i < |s| && s[i] == x;
      var j :| 0 <= j < |s| && s[j] == y;
      assert i == j;
    }
    assert Sorted(PriceHigh, rev) by {
      forall i, j | 0 <= i < j < |rev| ensures InOrder(PriceHigh, rev[i], rev[j]) {
        assert InOrder(PriceLow, low[|low| - 1 - j], low[|low| - 1 - i]);
      }
    }
    SortedPermutationUnique(PriceHigh, high, rev);
  }

  // ---------------------------------------------------------------- categories

  /** `catalog.map(p => p.category)`. */
  function Categories(catalog: seq<Product>): seq<string>
  {
    seq(|catalog|, i requires 0 <= i < |catalog| => catalog[i].category)
  }

  /** `[...new Set(catalog.map(p => p.category))]`. */
  function UniqueCategories(catalog: seq<Product>): seq<string>
  {
    JsArray.Distinct(Categories(catalog))
  }

  /** The category list has no repeats, holds exactly the categories of the
      catalog, and lists them in the order of their first appearance. */
  lemma UniqueCategoriesSpec(catalog: seq<Product>)
    ensures JsArray.NoDuplicates(UniqueCategories(catalog))
    ensures forall c :: c in UniqueCategories(catalog) <==> exists p :: p in catalog && p.category == c
    ensures forall i, j :: 0 <= i < j < |UniqueCategories(catalog)| ==>
      JsArray.FirstIndex(Categories(catalog), UniqueCategories(catalog)[i])
      < JsArray.FirstIndex(Categories(catalog), UniqueCategories(catalog)[j])
  {
    var names := Categories(catalog);
    forall c ensures c in names <==> exists p :: p in catalog && p.category == c {
      assert |names| == |catalog|;
      if c in names {
        var i :| 0 <= i < |names| && names[i] == c;
        assert catalog[i] in catalog;
      }
      if exists p :: p in catalog && p.category == c {
        var p :| p in catalog && p.category == c;
        var j :| 0 <= j < |catalog| && catalog[j] == p;
        assert names[j] == c;
      }
    }
    JsArray.DistinctFirstSeenOrder(names);
  }
}
