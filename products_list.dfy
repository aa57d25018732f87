/**
 * The catalogue page: the contextual keyword search over the fetched
 * products, the five sort orders, and the component state that the fetch,
 * search, input and clear handlers update.
 */
module ProductsList {
  import opened Wrappers
  import opened Text
  import opened Sorting

  /** A product as the page receives it: price in cents, `created_at` as a timestamp. */
  datatype Product = Product(
    id: int,
    name: string,
    price: int,
    description: string,
    imageUrl: Option<string>,
    createdAt: int)

  /** The fixed table of intent words and the literal terms each one stands for. */
  const ContextualMap: map<string, seq<string>> := map[
    "sit" := ["chair", "sofa", "couch", "bench", "stool", "seating"],
    "seat" := ["chair", "sofa", "couch", "bench", "stool", "seating"],
    "comfortable" := ["sofa", "chair", "couch", "mattress", "bed", "pillow"],
    "relax" := ["sofa", "chair", "couch", "bed", "lounge"],
    "store" := ["shelf", "cabinet", "drawer", "storage", "box"],
    "organize" := ["shelf", "cabinet", "drawer", "storage", "organizer"],
    "display" := ["tv", "monitor", "screen", "shelf", "stand"],
    "watch" := ["tv", "television", "monitor", "screen"],
    "cook" := ["stove", "oven", "cooker", "pan", "pot", "kitchen"],
    "food" := ["refrigerator", "fridge", "oven", "kitchen"],
    "work" := ["desk", "table", "chair", "office", "computer"],
    "study" := ["desk", "table", "chair", "book", "lamp"],
    "cheap" := ["affordable", "budget", "inexpensive", "low-price"],
    "expensive" := ["premium", "luxury", "high-end", "quality"],
    "dark" := ["black", "brown", "gray", "navy"],
    "light" := ["white", "beige", "cream", "light"],
    "wooden" := ["wood", "timber", "oak", "pine", "maple"],
    "metal" := ["steel", "aluminum", "iron", "metallic"],
    "family" := ["sofa", "dining", "table", "large", "spacious", "set"]
  ]

  // ---------------------------------------------------------------------
  // Contextual search
  // ---------------------------------------------------------------------

  /** The keywords of a query: the lower-cased query split on runs of whitespace. */
  function Keywords(query: string): seq<string> {
    Split(Lower(query))
  }

  /** Some keyword occurs in the lower-cased text. */
  predicate SomeKeywordIn(keywords: seq<string>, text: string) {
    exists k :: k in keywords && Contains(Lower(text), k)
  }

  /** One of the related terms occurs in the lower-cased name or description. */
  predicate RelatedTermIn(terms: seq<string>, p: Product) {
    exists t :: t in terms && (Contains(Lower(p.name), t) || Contains(Lower(p.description), t))
  }

  /** The contextual match: some keyword is an intent word whose related terms reach the product. */
  predicate ContextMatch(keywords: seq<string>, p: Product) {
    exists k :: k in keywords && k in ContextualMap && RelatedTermIn(ContextualMap[k], p)
  }

  /** The filter condition: a keyword in the name, a keyword in the description, or a contextual match. */
  predicate Matches(keywords: seq<string>, p: Product) {
    SomeKeywordIn(keywords, p.name) || SomeKeywordIn(keywords, p.description) || ContextMatch(keywords, p)
  }

  /** The keyword loop of the contextual match, returning as soon as one keyword's terms are found. */
  method CheckContextMatch(keywords: seq<string>, p: Product) returns (found: bool)
    ensures found <==> ContextMatch(keywords, p)
  {
    var name, description := Lower(p.name), Lower(p.description);
    for i := 0 to |keywords|
      invariant forall j :: 0 <= j < i && keywords[j] in ContextualMap ==> !RelatedTermIn(ContextualMap[keywords[j]], p)
    {
      var keyword := keywords[i];
      if keyword in ContextualMap {
        var relatedTerms := ContextualMap[keyword];
        var nameMatch := exists t :: t in relatedTerms && Contains(name, t);
        var descriptionMatch := exists t :: t in relatedTerms && Contains(description, t);
        if nameMatch || descriptionMatch {
          return true;
        }
      }
    }
    return false;
  }

  /** `products.filter(...)`: the products that match, each as often as it occurs, in their original order. */
  function Filter(products: seq<Product>, keywords: seq<string>): (r: seq<Product>)
    ensures forall p :: multiset(r)[p] == if Matches(keywords, p) then multiset(products)[p] else 0
    ensures forall p :: p in r <==> p in products && Matches(keywords, p)
  {
    if products == [] then []
    else
      assert products == [products[0]] + products[1..];
      (if Matches(keywords, products[0]) then [products[0]] else []) + Filter(products[1..], keywords)
  }

  /** What the search shows: everything for a blank query, the filtered products otherwise. */
  function SearchResults(originals: seq<Product>, query: string): seq<Product> {
    if IsBlank(query) then originals else Filter(originals, Keywords(query))
  }

  /** `a` is `b` with some elements left out, the rest in the same order. */
  predicate IsSubsequence<T(==)>(a: seq<T>, b: seq<T>) {
    a == [] || (b != [] && ((a[0] == b[0] && IsSubsequence(a[1..], b[1..])) || IsSubsequence(a, b[1..])))
  }

  lemma {:induction false} SubsequenceShorter<T>(a: seq<T>, b: seq<T>)
    requires IsSubsequence(a, b)
    ensures |a| <= |b|
  {
    if a != [] {
      if a[0] == b[0] && IsSubsequence(a[1..], b[1..]) {
        SubsequenceShorter(a[1..], b[1..]);
      } else {
        SubsequenceShorter(a, b[1..]);
      }
    }
  }

  lemma {:induction false} SubsequenceReflexive<T>(a: seq<T>)
    ensures IsSubsequence(a, a)
  {
    if a != [] {
      SubsequenceReflexive(a[1..]);
    }
  }

  /** The filter keeps the relative order of the products it keeps. */
  lemma {:induction false} FilterIsSubsequence(products: seq<Product>, keywords: seq<string>)
    ensures IsSubsequence(Filter(products, keywords), products)
  {
    if products != [] {
      var rest := Filter(products[1..], keywords);
      FilterIsSubsequence(products[1..], keywords);
      if Matches(keywords, products[0]) {
        assert ([products[0]] + rest)[1..] == rest;
      } else {
        assert [] + rest == rest;
      }
    }
  }

  /**
   * The search result is always the original list with some products left
   * out, in the original order; a blank query leaves nothing out.
   */
  lemma SearchIsSubsequence(originals: seq<Product>, query: string)
    ensures IsSubsequence(SearchResults(originals, query), originals)
    ensures |SearchResults(originals, query)| <= |originals|
    ensures IsBlank(query) ==> SearchResults(originals, query) == originals
  {
    if IsBlank(query) {
      SubsequenceReflexive(originals);
    } else {
      FilterIsSubsequence(originals, Keywords(query));
    }
    SubsequenceShorter(SearchResults(originals, query), originals);
  }

  /** A non-blank query keeps exactly the original products that match one of its keywords. */
  lemma SearchMembership(originals: seq<Product>, query: string, p: Product)
    requires !IsBlank(query)
    ensures p in SearchResults(originals, query) <==>
      p in originals &&
      (SomeKeywordIn(Keywords(query), p.name) || SomeKeywordIn(Keywords(query), p.description) ||
       ContextMatch(Keywords(query), p))
  {
  }

  /** A keyword that is not an intent word adds no contextual match. */
  lemma NonIntentWordAddsNoContext(keywords: seq<string>, k: string, p: Product)
    requires k !in ContextualMap
    ensures ContextMatch(keywords + [k], p) <==> ContextMatch(keywords, p)
  {
    if ContextMatch(keywords + [k], p) {
      var k' :| k' in keywords + [k] && k' in ContextualMap && RelatedTermIn(ContextualMap[k'], p);
      assert k' in keywords;
    }
  }

  /** Matching is on any keyword, so more keywords never lose a product. */
  lemma MoreKeywordsMatchMore(keywords: seq<string>, more: seq<string>, p: Product)
    requires forall k :: k in keywords ==> k in more
    requires Matches(keywords, p)
    ensures Matches(more, p)
  {
  }

  lemma {:induction false} SubsequenceOfLonger<T>(a: seq<T>, x: T, b: seq<T>)
    requires IsSubsequence(a, b)
    ensures IsSubsequence(a, [x] + b)
  {
    assert ([x] + b)[1..] == b;
  }

  /** With more keywords the filter keeps every product it kept before, in the same order. */
  lemma {:induction false} FilterMonotone(products: seq<Product>, keywords: seq<string>, more: seq<string>)
    requires forall k :: k in keywords ==> k in more
    ensures IsSubsequence(Filter(products, keywords), Filter(products, more))
  {
    if products != [] {
      var x := products[0];
      var a, b := Filter(products[1..], keywords), Filter(products[1..], more);
      FilterMonotone(products[1..], keywords, more);
      if Matches(keywords, x) {
        MoreKeywordsMatchMore(keywords, more, x);
        assert Filter(products, keywords) == [x] + a;
        assert Filter(products, more) == [x] + b;
        assert ([x] + a)[1..] == a;
        assert ([x] + b)[1..] == b;
      } else if Matches(more, x) {
        assert Filter(products, keywords) == a;
        assert Filter(products, more) == [x] + b;
        SubsequenceOfLonger(a, x, b);
      } else {
        assert Filter(products, keywords) == a;
        assert Filter(products, more) == b;
      }
    }
  }

  /**
   * A non-blank query that starts or ends with whitespace has an empty
   * keyword, which occurs in every name, so every product is shown.
   */
  lemma EdgeWhitespaceShowsEverything(originals: seq<Product>, query: string)
    requires query != [] && (IsSpace(query[0]) || IsSpace(query[|query| - 1]))
    ensures "" in Keywords(query)
    ensures SearchResults(originals, query) == originals
  {
    var lower := Lower(query);
    if IsSpace(query[0]) {
      SplitFirstEmpty(lower);
    } else {
      SplitLastEmpty(lower);
    }
    forall p | p in originals ensures Matches(Keywords(query), p) {
      EmptyContained(Lower(p.name));
    }
    if !IsBlank(query) {
      FilterKeepsAll(originals, Keywords(query));
    }
  }

  /**
   * Typing another word after a query never loses a product, as long as the
   * query does not already end in whitespace and the word does not start with it.
   */
  lemma ExtendingQueryKeepsResults(originals: seq<Product>, q: string, r: string)
    requires q == [] || !IsSpace(q[|q| - 1])
    requires r == [] || !IsSpace(r[0])
    ensures IsSubsequence(SearchResults(originals, q), SearchResults(originals, q + " " + r))
  {
    var query := q + " " + r;
    if IsBlank(q) {
      assert q == [];
      assert query[0] == ' ';
      EdgeWhitespaceShowsEverything(originals, query);
      SubsequenceReflexive(originals);
    } else {
      var k :| 0 <= k < |q| && !IsSpace(q[k]);
      assert query[k] == q[k];
      LowerAppend(q, " " + r);
      LowerAppend(" ", r);
      assert Lower(" ") == " ";
      assert Lower(query) == Lower(q) + " " + Lower(r);
      SplitJoin(Lower(q), Lower(r));
      assert Keywords(query) == Keywords(q) + Keywords(r);
      FilterMonotone(originals, Keywords(q), Keywords(query));
    }
  }

  lemma {:induction false} FilterKeepsAll(products: seq<Product>, keywords: seq<string>)
    requires forall p :: p in products ==> Matches(keywords, p)
    ensures Filter(products, keywords) == products
  {
    if products != [] {
      FilterKeepsAll(products[1..], keywords);
      assert products == [products[0]] + products[1..];
    }
  }

  lemma KeywordsOfNeedToSit()
    ensures Keywords("need to sit") == ["need", "to", "sit"]
  {
    LowerOfLowerCase("need to sit");
    assert "need to sit" == "need" + " " + ("to" + " " + "sit");
    SplitWord("need");
    SplitWord("to");
    SplitWord("sit");
    SplitJoin("to", "sit");
    SplitJoin("need", "to sit");
  }

  lemma SitReachesTheSofa(p: Product)
    requires p.name == "Sofa"
    ensures ContextMatch(["need", "to", "sit"], p)
  {
    assert Lower("Sofa") == "sofa";
    assert "sofa" <= Lower(p.name)[0..];
    assert "sofa" in ContextualMap["sit"];
  }

  lemma NoKeywordInTheLamp(p: Product)
    requires p.name == "Lamp" && p.description == "desk lighting"
    ensures !SomeKeywordIn(["need", "to", "sit"], p.name)
    ensures !SomeKeywordIn(["need", "to", "sit"], p.description)
  {
    assert Lower("Lamp") == "lamp";
    LowerOfLowerCase("desk lighting");
    forall k | k in ["need", "to", "sit"]
      ensures !Contains("lamp", k) && !Contains("desk lighting", k)
    {
      AbsentPairNotContained("lamp", k);
      AbsentPairNotContained("desk lighting", k);
    }
  }

  lemma NoSeatingInTheLamp(p: Product)
    requires p.name == "Lamp" && p.description == "desk lighting"
    ensures !RelatedTermIn(ContextualMap["sit"], p)
  {
    assert Lower("Lamp") == "lamp";
    LowerOfLowerCase("desk lighting");
    forall t | t in ContextualMap["sit"]
      ensures !Contains("lamp", t) && !Contains("desk lighting", t)
    {
      AbsentPairNotContained("lamp", t);
      AbsentPairNotContained("desk lighting", t);
    }
  }

  lemma NothingReachesTheLamp(p: Product)
    requires p.name == "Lamp" && p.description == "desk lighting"
    ensures !Matches(["need", "to", "sit"], p)
  {
    NoKeywordInTheLamp(p);
    NoSeatingInTheLamp(p);
    assert "need" !in ContextualMap && "to" !in ContextualMap;
  }

  /**
   * Searching "need to sit" over a sofa and a lamp finds the sofa through the
   * intent word "sit", and leaves out the lamp.
   */
  lemma NeedToSitFindsTheSofa(sofa: Product, lamp: Product)
    requires sofa.name == "Sofa"
    requires lamp.name == "Lamp" && lamp.description == "desk lighting"
    ensures SearchResults([sofa, lamp], "need to sit") == [sofa]
  {
    var keywords := ["need", "to", "sit"];
    KeywordsOfNeedToSit();
    SitReachesTheSofa(sofa);
    NothingReachesTheLamp(lamp);
    assert !IsBlank("need to sit") by {
      assert !IsSpace("need to sit"[0]);
    }
    assert Filter([lamp], keywords) == [];
    assert [sofa, lamp][1..] == [lamp];
  }

  // ---------------------------------------------------------------------
  // Sorting
  // ---------------------------------------------------------------------

  datatype SortKey = Newest | Oldest | PriceHigh | PriceLow | ByName

  /** The options of the sort selector; any other value sorts nothing. */
  function SortKeyOf(option: string): Option<SortKey> {
    if option == "newest" then Some(Newest)
    else if option == "oldest" then Some(Oldest)
    else if option == "price-high" then Some(PriceHigh)
    else if option == "price-low" then Some(PriceLow)
    else if option == "name" then Some(ByName)
    else None
  }

  /** For each key, when `a` may come before `b`. Names use character-code order in place of `localeCompare`. */
  function Precedes(key: SortKey): (Product, Product) -> bool {
    match key
    case Newest => (a: Product, b: Product) => a.createdAt >= b.createdAt
    case Oldest => (a: Product, b: Product) => a.createdAt <= b.createdAt
    case PriceHigh => (a: Product, b: Product) => a.price >= b.price
    case PriceLow => (a: Product, b: Product) => a.price <= b.price
    case ByName => (a: Product, b: Product) => LexLe(a.name, b.name)
  }

  lemma PrecedesIsTotalPreorder(key: SortKey)
    ensures Total(Precedes(key)) && Transitive(Precedes(key))
  {
    if key == ByName {
      forall a: Product, b: Product ensures Precedes(key)(a, b) || Precedes(key)(b, a) {
        LexLeTotal(a.name, b.name);
      }
      forall a: Product, b: Product, c: Product | Precedes(key)(a, b) && Precedes(key)(b, c)
        ensures Precedes(key)(a, c)
      {
        LexLeTransitive(a.name, b.name, c.name);
      }
    }
  }

  /**
   * `sortProducts`: a sorted copy for the five known options, the very same
   * list for any other.
   */
  function SortProducts(products: seq<Product>, option: string): (r: seq<Product>)
    ensures multiset(r) == multiset(products) && |r| == |products|
    ensures SortKeyOf(option) == None ==> r == products
    ensures option == "newest" ==> forall i, j :: 0 <= i < j < |r| ==> r[i].createdAt >= r[j].createdAt
    ensures option == "oldest" ==> forall i, j :: 0 <= i < j < |r| ==> r[i].createdAt <= r[j].createdAt
    ensures option == "price-high" ==> forall i, j :: 0 <= i < j < |r| ==> r[i].price >= r[j].price
    ensures option == "price-low" ==> forall i, j :: 0 <= i < j < |r| ==> r[i].price <= r[j].price
    ensures option == "name" ==> forall i, j :: 0 <= i < j < |r| ==> LexLe(r[i].name, r[j].name)
  {
    match SortKeyOf(option)
    case None => products
    case Some(key) =>
      PrecedesIsTotalPreorder(key);
      SortBySortsPermutation(Precedes(key), products);
      SortBy(Precedes(key), products)
  }

  // ---------------------------------------------------------------------
  // Component state
  // ---------------------------------------------------------------------

  const FetchErrorMessage := "Failed to fetch products. Please try again later."

  /** The state of the catalogue page and its handlers. */
  class ProductsListState {
    var products: seq<Product>
    var originalProducts: seq<Product>
    var searchTerm: string
    var sortOption: string
    var error: string

    /** What is shown is always the fetched collection with some products left out, in fetched order. */
    ghost predicate Valid()
      reads this
    {
      IsSubsequence(products, originalProducts)
    }

    constructor ()
      ensures Valid()
      ensures products == [] && originalProducts == []
      ensures searchTerm == "" && sortOption == "newest" && error == ""
    {
      products, originalProducts := [], [];
      searchTerm, sortOption, error := "", "newest", "";
    }

    /** `fetchProducts`, given the response data or `None` when the request failed. */
    method FetchProducts(response: Option<seq<Product>>)
      requires Valid()
      modifies this
      ensures Valid()
      ensures response.Some? ==> products == response.value && originalProducts == response.value && error == ""
      ensures response.None? ==> products == old(products) && originalProducts == old(originalProducts) && error == FetchErrorMessage
      ensures searchTerm == old(searchTerm) && sortOption == old(sortOption)
    {
      match response
      case Some(data) =>
        products := data;
        originalProducts := data;
        error := "";
        SubsequenceReflexive(data);
      case None =>
        error := FetchErrorMessage;
    }

    /** `performContextualSearch`: show what the query finds among the fetched products. */
    method PerformContextualSearch(query: string)
      requires Valid()
      modifies this`products
      ensures Valid()
      ensures products == SearchResults(originalProducts, query)
      ensures IsBlank(query) ==> products == originalProducts
    {
      SearchIsSubsequence(originalProducts, query);
      if IsBlank(query) {
        products := originalProducts;
        return;
      }
      var keywords := Keywords(query);
      products := Filter(originalProducts, keywords);
    }

    /** `handleSearch`: search for what is in the input. */
    method HandleSearch()
      requires Valid()
      modifies this`products
      ensures Valid()
      ensures products == SearchResults(originalProducts, searchTerm)
    {
      PerformContextualSearch(searchTerm);
    }

    /** `handleKeyPress`: Enter searches, any other key does nothing. */
    method HandleKeyPress(key: string)
      requires Valid()
      modifies this`products
      ensures Valid()
      ensures key == "Enter" ==> products == SearchResults(originalProducts, searchTerm)
      ensures key != "Enter" ==> products == old(products)
    {
      if key == "Enter" {
        HandleSearch();
      }
    }

    /** `handleSearchChange`: record the input; emptying it shows every product again. */
    method HandleSearchChange(value: string)
      requires Valid()
      modifies this`products, this`searchTerm
      ensures Valid()
      ensures searchTerm == value
      ensures value == "" ==> products == originalProducts
      ensures value != "" ==> products == old(products)
    {
      searchTerm := value;
      if value == "" {
        products := originalProducts;
        SubsequenceReflexive(products);
      }
    }

    /** The "Clear search" and "Clear filters" buttons: empty the input and show every product. */
    method ClearSearch()
      requires Valid()
      modifies this`products, this`searchTerm
      ensures Valid()
      ensures searchTerm == "" && products == originalProducts
    {
      searchTerm := "";
      products := originalProducts;
      SubsequenceReflexive(products);
    }

    /** The sort selector. */
    method SetSortOption(option: string)
      modifies this`sortOption
      ensures sortOption == option
    {
      sortOption := option;
    }

    /** `sortedProducts`: what is shown, in the selected order; the state itself is not reordered. */
    function SortedProducts(): (r: seq<Product>)
      reads this
      ensures multiset(r) == multiset(products) && |r| == |products|
      ensures SortKeyOf(sortOption) == None ==> r == products
      ensures sortOption == "newest" ==> forall i, j :: 0 <= i < j < |r| ==> r[i].createdAt >= r[j].createdAt
      ensures sortOption == "oldest" ==> forall i, j :: 0 <= i < j < |r| ==> r[i].createdAt <= r[j].createdAt
      ensures sortOption == "price-high" ==> forall i, j :: 0 <= i < j < |r| ==> r[i].price >= r[j].price
      ensures sortOption == "price-low" ==> forall i, j :: 0 <= i < j < |r| ==> r[i].price <= r[j].price
      ensures sortOption == "name" ==> forall i, j :: 0 <= i < j < |r| ==> LexLe(r[i].name, r[j].name)
    {
      SortProducts(products, sortOption)
    }
  }
}
