/** The home page: the eight best-rated products as "featured" and one
    link per category. Its category list is `Catalog.UniqueCategories`, the
    same `[...new Set(...)]` the products page uses. Everything here is
    computed from the catalog without changing it: the sort works on a copy. */
module HomePage {
  import opened Catalog
  import JsArray
  import JsString

  const FeaturedCount: nat := 8
  const CategoryPath: string := "/category/"

  /** `[...products].sort((a, b) => b.rating - a.rating).slice(0, 8)`. */
  function FeaturedProducts(catalog: seq<Product>): seq<Product>
  {
    JsArray.Slice(SortBy(ByRating, catalog), 0, FeaturedCount)
  }

  /** The rest of the sorted copy: the products the home page leaves out. */
  function Unfeatured(catalog: seq<Product>): seq<Product>
  {
    var sorted := SortBy(ByRating, catalog);
    sorted[JsArray.Min(FeaturedCount, |sorted|)..]
  }

  /** At most eight products are featured (all of them when the catalog is
      smaller), best rating first; together with the products left out they
      are exactly the catalog, and no product left out is rated above any
      featured one. */
  lemma FeaturedSpec(catalog: seq<Product>)
    ensures |FeaturedProducts(catalog)| == JsArray.Min(FeaturedCount, |catalog|)
    ensures forall i, j :: 0 <= i < j < |FeaturedProducts(catalog)| ==>
      FeaturedProducts(catalog)[i].rating >= FeaturedProducts(catalog)[j].rating
    ensures |Unfeatured(catalog)| == |catalog| - |FeaturedProducts(catalog)|
    ensures multiset(FeaturedProducts(catalog)) + multiset(Unfeatured(catalog)) == multiset(catalog)
    ensures forall p, q :: p in FeaturedProducts(catalog) && q in Unfeatured(catalog) ==> q.rating <= p.rating
  {
    var sorted := SortBy(ByRating, catalog);
    FeaturedParts(catalog);
    SortedSplit(ByRating, sorted, JsArray.Min(FeaturedCount, |catalog|));
  }

  /** Cutting a sorted sequence in two leaves every element of the front
      part in order with every element of the back part. */
  lemma SortedSplit(key: SortKey, sorted: seq<Product>, cut: nat)
    requires Sorted(key, sorted) && cut <= |sorted|
    ensures multiset(sorted[..cut]) + multiset(sorted[cut..]) == multiset(sorted)
    ensures forall p, q :: p in sorted[..cut] && q in sorted[cut..] ==> InOrder(key, p, q)
  {
    var front, back := sorted[..cut], sorted[cut..];
    assert sorted == front + back;
    forall p, q | p in front && q in back ensures InOrder(key, p, q) {
      var i :| 0 <= i < |front| && front[i] == p;
      var j :| 0 <= j < |back| && back[j] == q;
      assert sorted[i] == p && sorted[cut + j] == q;
    }
  }

  /** The featured products and the ones left out are the two ends of the
      sorted copy, cut after the eighth. */
  lemma FeaturedParts(catalog: seq<Product>)
    ensures var sorted := SortBy(ByRating, catalog);
      var cut := JsArray.Min(FeaturedCount, |catalog|);
      && |sorted| == |catalog|
      && FeaturedProducts(catalog) == sorted[..cut]
      && Unfeatured(catalog) == sorted[cut..]
  {
    var sorted := SortBy(ByRating, catalog);
    assert |sorted| == |catalog| by {
      assert |multiset(sorted)| == |multiset(catalog)|;
    }
    JsArray.SliceFromNonNegative(sorted, 0, FeaturedCount);
  }

  /** A catalog of more than eight products features exactly eight. */
  lemma LargeCatalogFeaturesEight(catalog: seq<Product>)
    requires |catalog| > FeaturedCount
    ensures |FeaturedProducts(catalog)| == FeaturedCount
    ensures Unfeatured(catalog) != []
  {
    FeaturedSpec(catalog);
  }

  /** `` `/category/${category.toLowerCase()}` ``. */
  function CategoryHref(category: string): string
  {
    CategoryPath + JsString.ToLowerCase(category)
  }

  /** A category link starts with `/category/`, is followed by one character
      per character of the category, and is entirely lower case: it is
      its own `toLowerCase`, so categories that differ only in case share it. */
  lemma CategoryHrefSpec(category: string, other: string)
    ensures JsString.StartsWith(CategoryHref(category), CategoryPath)
    ensures |CategoryHref(category)| == |CategoryPath| + |category|
    ensures JsString.ToLowerCase(CategoryHref(category)) == CategoryHref(category)
    ensures JsString.ToLowerCase(other) == JsString.ToLowerCase(category) ==>
      CategoryHref(other) == CategoryHref(category)
  {
    var href := CategoryHref(category);
    var lower := JsString.ToLowerCase(category);
    assert href[..|CategoryPath|] == CategoryPath;
    forall i | 0 <= i < |href| ensures JsString.LowerChar(href[i]) == href[i] {
      if i >= |CategoryPath| {
        assert href[i] == lower[i - |CategoryPath|];
      }
    }
    assert JsString.ToLowerCase(href) == href;
  }
}
