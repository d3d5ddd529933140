/** The static product catalogue served by the chatbot endpoint and the category filter of the
    product grid. */
module Catalogue {
  import opened Wrappers

  /** A catalogue entry. The rating is kept in tenths of a star (4.5 is 45). */
  datatype Product = Product(
    id: int,
    name: string,
    category: string,
    brand: string,
    image: string,
    affiliateLink: string,
    description: string,
    ratingTenths: int,
    badge: Option<string>)

  /** The fixed enumeration of product categories. */
  const Categories: seq<string> :=
    ["respiratory", "head", "eye", "hearing", "hand", "body", "foot", "fall"]

  /** The sample catalogue returned by the endpoint's product source, in its declared order. */
  const PPEProducts: seq<Product> :=
    [ Product(1, "Personal Protective Equipment KIT (PPE KIT)", "body", "SafetyPro",
              "assets/images/products/ppe-kit.jpg", "https://amzn.to/4bcAm6e",
              "Complete PPE kit for full body protection", 45, Some("Bestseller")),
      Product(2, "Serplex Gas Mask Set Respirator", "respiratory", "Serplex",
              "assets/images/products/gas-mask.jpg", "https://amzn.to/4s4Fr6K",
              "Gas mask with respirator for chemical protection", 43, Some("Industrial")),
      Product(3, "Non Woven Polypropylene Disposable Gown", "body", "MediSafe",
              "assets/images/products/disposable-gown.jpg", "https://amzn.to/49rqlRr",
              "Disposable protective gown for medical use", 42, Some("Medical")),
      Product(4, "CF IND Full Body Safety Harness", "fall", "CF IND",
              "assets/images/products/safety-harness.jpg", "https://amzn.to/4jh3StM",
              "Full body harness for fall protection", 47, Some("Premium")),
      Product(5, "Karam Magna Premium Full Body Safety Harness", "fall", "Karam",
              "assets/images/products/premium-harness.jpg", "https://amzn.to/494Ws89",
              "Premium safety harness with comfort padding", 48, Some("Top Rated")),
      Product(6, "Safety Goggles Anti-Fog", "eye", "VisionSafe",
              "assets/images/products/safety-goggles.jpg", "#",
              "Anti-fog safety goggles with UV protection", 44, None),
      Product(7, "Industrial Safety Helmet", "head", "HardHat Pro",
              "assets/images/products/safety-helmet.jpg", "#",
              "Industrial safety helmet with chin strap", 46, Some("Bestseller")),
      Product(8, "Safety Shoes Steel Toe", "foot", "FootGuard",
              "assets/images/products/safety-shoes.jpg", "#",
              "Steel toe safety shoes with slip resistance", 45, None),
      Product(9, "Nitrile Gloves Box of 100", "hand", "GloveMaster",
              "assets/images/products/nitrile-gloves.jpg", "#",
              "Nitrile gloves box of 100 pieces", 47, Some("Medical")) ]

  /** The catalogue holds nine products numbered 1 to 9 in order, each in a known category. */
  lemma CatalogueShape()
    ensures |PPEProducts| == 9
    ensures forall i :: 0 <= i < |PPEProducts| ==> PPEProducts[i].id == i + 1
    ensures forall i :: 0 <= i < |PPEProducts| ==> PPEProducts[i].category in Categories
  {
  }

  /** No product is listed twice: the ids differ. */
  lemma CatalogueDistinct()
    ensures Distinct(PPEProducts)
  {
    CatalogueShape();
    forall i, j | 0 <= i < j < |PPEProducts|
      ensures PPEProducts[i] != PPEProducts[j]
    {
      assert PPEProducts[i].id != PPEProducts[j].id;
    }
  }

  /** No value occurs twice in `s`. */
  predicate Distinct<T(==)>(s: seq<T>) {
    forall i, j :: 0 <= i < j < |s| ==> s[i] != s[j]
  }

  /** `a` is obtained from `b` by deleting elements, keeping the order of the rest. */
  predicate IsSubsequence<T(==)>(a: seq<T>, b: seq<T>)
    decreases |b|
  {
    if a == [] then true
    else if b == [] then false
    else if a[0] == b[0] then IsSubsequence(a[1..], b[1..])
    else IsSubsequence(a, b[1..])
  }

  /** Putting an element in front of `b` keeps every subsequence of `b` a subsequence. */
  lemma {:induction false} SubsequenceCons<T>(a: seq<T>, b: seq<T>, x: T)
    requires IsSubsequence(a, b)
    ensures IsSubsequence(a, [x] + b)
    decreases |b|, 1
  {
    if a != [] && a[0] == x {
      SubsequenceTail(a, b);
      assert ([x] + b)[1..] == b;
    } else {
      assert ([x] + b)[1..] == b;
    }
  }

  /** Dropping the first element of a subsequence leaves a subsequence. */
  lemma {:induction false} SubsequenceTail<T>(a: seq<T>, b: seq<T>)
    requires a != [] && IsSubsequence(a, b)
    ensures IsSubsequence(a[1..], b)
    decreases |b|, 0
  {
    if a[0] == b[0] {
      SubsequenceCons(a[1..], b[1..], b[0]);
      assert [b[0]] + b[1..] == b;
    } else {
      SubsequenceTail(a, b[1..]);
      SubsequenceCons(a[1..], b[1..], b[0]);
      assert [b[0]] + b[1..] == b;
    }
  }

  /** The products whose category is one of `cats`, in catalogue order: the shape of
      `products.filter(p => cats.includes(p.category))`. */
  function KeepCategories(products: seq<Product>, cats: seq<string>): (r: seq<Product>)
    ensures |r| <= |products|
    ensures forall i :: 0 <= i < |r| ==> r[i].category in cats
  {
    if products == [] then []
    else
      var rest := KeepCategories(products[1..], cats);
      if products[0].category in cats then [products[0]] + rest else rest
  }

  /** The filter keeps every product of a listed category, as often as the catalogue holds
      it, drops every other product, and keeps the catalogue's order. */
  lemma {:induction false} KeepCategoriesSpec(products: seq<Product>, cats: seq<string>)
    ensures forall p :: multiset(KeepCategories(products, cats))[p] ==
                        if p.category in cats then multiset(products)[p] else 0
    ensures IsSubsequence(KeepCategories(products, cats), products)
  {
    if products != [] {
      KeepCategoriesSpec(products[1..], cats);
      assert products == [products[0]] + products[1..];
    }
  }

  /** `loadProducts(filter)`: the whole catalogue for "all", otherwise its products of that
      category, each as often as the catalogue holds it and in catalogue order. */
  function LoadProducts(products: seq<Product>, filter: string): (r: seq<Product>)
    ensures filter == "all" ==> r == products
    ensures filter != "all" ==> forall i :: 0 <= i < |r| ==> r[i].category == filter
    ensures filter != "all" ==>
      forall p :: multiset(r)[p] == if p.category == filter then multiset(products)[p] else 0
    ensures IsSubsequence(r, products)
  {
    if filter == "all" then
      SubsequenceReflexive(products);
      products
    else
      KeepCategoriesSpec(products, [filter]);
      KeepCategories(products, [filter])
  }

  lemma {:induction false} SubsequenceReflexive<T>(s: seq<T>)
    ensures IsSubsequence(s, s)
  {
    if s != [] {
      SubsequenceReflexive(s[1..]);
    }
  }

  /** The filter depends only on which categories are listed, not on their order or on how
      often each is listed. */
  lemma {:induction false} KeepCategoriesOnlyUsesMembership(products: seq<Product>, a: seq<string>, b: seq<string>)
    requires forall c :: c in a <==> c in b
    ensures KeepCategories(products, a) == KeepCategories(products, b)
  {
    if products != [] {
      KeepCategoriesOnlyUsesMembership(products[1..], a, b);
    }
  }

  /** One step of the filter: the product at `k` is dropped or kept according to its category. */
  lemma KeepStep(products: seq<Product>, cats: seq<string>, k: int)
    requires 0 <= k < |products|
    ensures KeepCategories(products[k..], cats) ==
      (if products[k].category in cats then [products[k]] else []) + KeepCategories(products[k + 1..], cats)
  {
    assert products[k..][1..] == products[k + 1..];
  }

  /** The fall-protection products of the catalogue are the two harnesses, ids 4 and 5. */
  lemma FallProductsAreHarnesses()
    ensures KeepCategories(PPEProducts, ["fall"]) == [PPEProducts[3], PPEProducts[4]]
  {
    var ps := PPEProducts;
    var cs := seq(9, i requires 0 <= i < 9 => ps[i].category);
    FallSteps(ps, cs);
  }

  /** The filter walked back from the last product to the first. The categories are passed as
      a separate list, and each non-"fall" one is told apart from "fall" by one character or by
      its length, which keeps string comparisons out of the walk. */
  lemma FallSteps(ps: seq<Product>, cs: seq<string>)
    requires |ps| == 9 && |cs| == 9 && forall i :: 0 <= i < 9 ==> ps[i].category == cs[i]
    requires cs == ["body", "respiratory", "body", "fall", "fall", "eye", "head", "foot", "hand"]
    ensures KeepCategories(ps, ["fall"]) == [ps[3], ps[4]]
  {
    var fall := ["fall"];
    FallStepsFromFourth(ps, cs);
    assert cs[2] !in fall by { assert cs[2][0] != 'f'; }
    assert cs[1] !in fall by { assert |cs[1]| != 4; }
    assert cs[0] !in fall by { assert cs[0][0] != 'f'; }
    KeepStep(ps, fall, 2);
    KeepStep(ps, fall, 1);
    KeepStep(ps, fall, 0);
    assert ps[0..] == ps;
  }

  /** The walk over the products from the fourth on. */
  lemma FallStepsFromFourth(ps: seq<Product>, cs: seq<string>)
    requires |ps| == 9 && |cs| == 9 && forall i :: 0 <= i < 9 ==> ps[i].category == cs[i]
    requires cs == ["body", "respiratory", "body", "fall", "fall", "eye", "head", "foot", "hand"]
    ensures KeepCategories(ps[3..], ["fall"]) == [ps[3], ps[4]]
  {
    var fall := ["fall"];
    assert cs[8] !in fall by { assert cs[8][0] != 'f'; }
    assert cs[7] !in fall by { assert cs[7][1] != 'a'; }
    assert cs[6] !in fall by { assert cs[6][0] != 'f'; }
    assert cs[5] !in fall by { assert |cs[5]| != 4; }
    KeepStep(ps, fall, 8);
    assert ps[9..] == [];
    KeepStep(ps, fall, 7);
    KeepStep(ps, fall, 6);
    KeepStep(ps, fall, 5);
    assert KeepCategories(ps[5..], fall) == [];
    KeepStep(ps, fall, 4);
    KeepStep(ps, fall, 3);
  }

}
