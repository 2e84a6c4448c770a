/** Product search and lookup: the condition builder and pagination shared by
    the search route (`app/api/search/route.ts`) and the server actions
    `searchProducts`, `getRelatedProductsByCategory` and `getProductBySlug`
    (`lib/actions/product.actions.ts`). Database answers are inputs. */
module ProductSearch {
  import opened Wrappers
  import opened JsStrings
  import opened JsNumbers
  import opened Http

  /** The fields of a stored product the queries look at. */
  datatype ProductDoc = ProductDoc(id: string, slug: string, category: string, isPublished: bool)

  // ---------------------------------------------------------------------
  // Search conditions

  /** One alternative of the text search, a case-insensitive regular
      expression built from the query text exactly as typed. */
  datatype TextClause =
    | NameMatches(pattern: string)
    | DescriptionMatches(pattern: string)
    | BrandMatches(pattern: string)
    | SomeTagMatches(pattern: string)

  /** The condition object: `isPublished`, then an optional `category` and an
      optional `$or` of text clauses. */
  datatype Conditions = Conditions(isPublished: bool, category: Option<string>, anyOf: Option<seq<TextClause>>)

  /** The four alternatives of the `$or` clause. */
  function TextClauses(query: string): seq<TextClause> {
    [NameMatches(query), DescriptionMatches(query), BrandMatches(query), SomeTagMatches(query)]
  }

  /** Builds the search conditions, or `None` when `new RegExp(query, 'i')`
      throws. `validPattern` says which texts the `RegExp` constructor
      accepts. Only published products are searched; a category constraint is
      added exactly when the category is non-empty and not `'all'`; the text
      alternatives are added exactly when the query has a non-whitespace
      character, and they use the untrimmed query. A query that is not blank
      and not a valid pattern makes the builder throw. */
  function BuildConditions(query: string, category: string, validPattern: string -> bool): (r: Option<Conditions>)
    ensures r.None? <==> !Blank(query) && !validPattern(query)
    ensures r.Some? ==> r.value.isPublished
    ensures r.Some? ==> (r.value.category.Some? <==> category != "" && category != "all")
    ensures r.Some? && r.value.category.Some? ==> r.value.category.value == category
    ensures r.Some? ==> (r.value.anyOf.Some? <==> !Blank(query))
    ensures r.Some? && r.value.anyOf.Some? ==>
      && |r.value.anyOf.value| == 4
      && r.value.anyOf.value[0].NameMatches? && r.value.anyOf.value[1].DescriptionMatches?
      && r.value.anyOf.value[2].BrandMatches? && r.value.anyOf.value[3].SomeTagMatches?
      && forall k :: 0 <= k < 4 ==> r.value.anyOf.value[k].pattern == query
  {
    var categoryClause := if category != "" && category != "all" then Some(category) else None;
    if |Trim(query)| > 0 then
      if validPattern(query) then Some(Conditions(true, categoryClause, Some(TextClauses(query))))
      else None
    else Some(Conditions(true, categoryClause, None))
  }

  // ---------------------------------------------------------------------
  // Pagination

  /** The `pagination` object of a search answer. */
  datatype Pagination = Pagination(
    currentPage: Number,
    totalPages: Number,
    totalCount: nat,
    hasNextPage: bool,
    hasPrevPage: bool)

  /** `Math.ceil(count / limit)`. A positive limit gives the least number
      of pages holding all matches; a negative limit gives no positive page
      count, an infinite one gives 0, and a NaN one gives NaN. */
  function TotalPages(totalCount: nat, limit: Number): (t: Number)
    ensures limit.Finite? && limit.value > 0.0 ==>
      t.Finite? && IsInteger(t.value)
      && (t.value - 1.0) * limit.value < totalCount as real <= t.value * limit.value
    ensures limit.Finite? && limit.value < 0.0 ==> t.Finite? && t.value <= 0.0
    ensures limit.PosInf? || limit.NegInf? ==> t == Finite(0.0)
    ensures limit.NaN? ==> t.NaN?
  {
    var t := Ceil(Div(Finite(totalCount as real), limit));
    assert limit.Finite? && limit.value > 0.0 ==>
      (t.value - 1.0) * limit.value < totalCount as real <= t.value * limit.value
    by {
      if limit.Finite? && limit.value > 0.0 {
        CeilPages(totalCount as real, limit.value);
      }
    }
    assert limit.Finite? && limit.value < 0.0 ==> t.value <= 0.0 by {
      if limit.Finite? && limit.value < 0.0 {
        NonPositiveQuotient(totalCount as real, limit.value);
      }
    }
    t
  }

  /** A non-negative count over a negative limit is not positive. */
  lemma NonPositiveQuotient(c: real, l: real)
    requires c >= 0.0 && l < 0.0
    ensures c / l <= 0.0
  {
    var x := c / l;
    assert x * l == c;
    if x > 0.0 {
      MulLess(l, 0.0, x);
    }
  }

  /** The page count bounds the items from both sides. */
  lemma CeilPages(c: real, l: real)
    requires l > 0.0
    ensures var t := CeilReal(c / l) as real;
      (t - 1.0) * l < c <= t * l
  {
    var x := c / l;
    var t := CeilReal(x) as real;
    assert x * l == c;
    MulLess(t - 1.0, x, l);
    MulAtMost(x, t, l);
  }

  /** Multiplying by a positive factor keeps a strict order. */
  lemma MulLess(a: real, b: real, l: real)
    requires a < b && l > 0.0
    ensures a * l < b * l
  {
    assert (b - a) * l > 0.0;
    assert (b - a) * l == b * l - a * l;
  }

  /** Multiplying by a positive factor keeps a non-strict order. */
  lemma MulAtMost(a: real, b: real, l: real)
    requires a <= b && l > 0.0
    ensures a * l <= b * l
  {
    if a < b {
      MulLess(a, b, l);
    }
  }

  /** Builds the pagination fields for `page`, `limit` and the number of
      matching products. For a whole page number and a positive limit there
      is a next page exactly when the items of the pages up to this one do not
      cover all matches, and a previous page exactly when this is not the
      first page; a NaN page has neither. */
  function Paginate(page: Number, limit: Number, totalCount: nat): (p: Pagination)
    ensures p.currentPage == page && p.totalCount == totalCount
    ensures p.totalPages == TotalPages(totalCount, limit)
    ensures page.Finite? && IsInteger(page.value) && limit.Finite? && limit.value > 0.0 ==>
      (p.hasNextPage <==> page.value * limit.value < totalCount as real)
    ensures page.Finite? ==> (p.hasPrevPage <==> page.value > 1.0)
    ensures page.NaN? ==> !p.hasNextPage && !p.hasPrevPage
    ensures limit.NaN? ==> !p.hasNextPage
    ensures (page.Finite? && page.value > 0.0
             && ((limit.Finite? && limit.value < 0.0) || limit.PosInf? || limit.NegInf?)) ==>
      !p.hasNextPage
  {
    var totalPages := TotalPages(totalCount, limit);
    assert page.Finite? && IsInteger(page.value) && limit.Finite? && limit.value > 0.0 ==>
      (Less(page, totalPages) <==> page.value * limit.value < totalCount as real)
    by {
      if page.Finite? && IsInteger(page.value) && limit.Finite? && limit.value > 0.0 {
        NextPageIffMoreItems(page.value, limit.value, totalCount as real, totalPages.value);
      }
    }
    assert limit.NaN? ==> totalPages.NaN?;
    assert (page.Finite? && page.value > 0.0
            && ((limit.Finite? && limit.value < 0.0) || limit.PosInf? || limit.NegInf?)) ==>
      !Less(page, totalPages)
    by {
      if page.Finite? && page.value > 0.0
         && ((limit.Finite? && limit.value < 0.0) || limit.PosInf? || limit.NegInf?) {
        assert totalPages.Finite? && totalPages.value <= 0.0;
      }
    }
    Pagination(page, totalPages, totalCount, Less(page, totalPages), Less(Finite(1.0), page))
  }

  /** For a whole page number `p`: `p < ceil(c / l)` exactly when the first
      `p` pages of `l` items hold fewer than `c` items. */
  lemma NextPageIffMoreItems(p: real, l: real, c: real, t: real)
    requires IsInteger(p) && IsInteger(t) && l > 0.0
    requires (t - 1.0) * l < c <= t * l
    ensures p < t <==> p * l < c
  {
    if p < t {
      assert p <= t - 1.0 by {
        assert p.Floor < t.Floor;
        assert p.Floor <= t.Floor - 1;
      }
      MulAtMost(p, t - 1.0, l);
    } else {
      MulAtMost(t, p, l);
    }
  }

  /** With a limit of 0 the page count is infinite whenever anything matches,
      so every finite page claims a next page; with nothing matching it is NaN
      and no page has a next one. */
  lemma ZeroLimitPagination(page: real, totalCount: nat)
    ensures totalCount > 0 ==>
      Paginate(Finite(page), Finite(0.0), totalCount).totalPages == PosInf
      && Paginate(Finite(page), Finite(0.0), totalCount).hasNextPage
    ensures totalCount == 0 ==>
      Paginate(Finite(page), Finite(0.0), totalCount).totalPages == NaN
      && !Paginate(Finite(page), Finite(0.0), totalCount).hasNextPage
  {
  }

  /** `(page - 1) * limit`. */
  function Skip(page: Number, limit: Number): (s: Number)
    ensures page.Finite? && limit.Finite? ==> s == Finite((page.value - 1.0) * limit.value)
    ensures page.NaN? || limit.NaN? ==> s.NaN?
  {
    var previous := Sub(page, Finite(1.0));
    assert page.Finite? ==> previous == Finite(page.value - 1.0);
    assert previous.Finite? && limit.Finite? ==> Mul(previous, limit) == Finite(previous.value * limit.value);
    Mul(previous, limit)
  }

  // ---------------------------------------------------------------------
  // The search route

  /** What a search asks the database for. */
  datatype SearchRequest = SearchRequest(conditions: Conditions, page: Number, limit: Number, skip: Number)

  /** Reads the search route's query parameters: `q` defaults to empty,
      `category` to `'all'`, `page` to 1 and `limit` to 12, the last two read
      with `parseInt`. `None` when building the conditions throws. */
  function ParseSearchParams(params: map<string, string>, validPattern: string -> bool): (r: Option<SearchRequest>)
    ensures var q := ParamOr(params, "q", "");
      r.None? <==> !Blank(q) && !validPattern(q)
    ensures r.Some? ==>
      Some(r.value.conditions) == BuildConditions(ParamOr(params, "q", ""), ParamOr(params, "category", "all"), validPattern)
    ensures r.Some? && ("page" !in params || params["page"] == "") ==> r.value.page == Finite(1.0)
    ensures r.Some? && ("limit" !in params || params["limit"] == "") ==> r.value.limit == Finite(12.0)
    ensures forall n: nat :: r.Some? && "page" in params && params["page"] == NatToString(n) ==>
      r.value.page == Finite(n as real)
    ensures forall n: nat :: r.Some? && "limit" in params && params["limit"] == NatToString(n) ==>
      r.value.limit == Finite(n as real)
    ensures r.Some? ==> r.value.page == ParseInt(ParamOr(params, "page", "1"))
    ensures r.Some? ==> r.value.limit == ParseInt(ParamOr(params, "limit", "12"))
    ensures r.Some? ==> r.value.skip == Skip(r.value.page, r.value.limit)
  {
    var page := ParseInt(ParamOr(params, "page", "1"));
    var limit := ParseInt(ParamOr(params, "limit", "12"));
    ParseIntLiterals();
    forall n: nat | "page" in params && params["page"] == NatToString(n) ensures page == Finite(n as real) {
      ParseIntOfNatToString(n);
    }
    forall n: nat | "limit" in params && params["limit"] == NatToString(n) ensures limit == Finite(n as real) {
      ParseIntOfNatToString(n);
    }
    match BuildConditions(ParamOr(params, "q", ""), ParamOr(params, "category", "all"), validPattern)
    case None => None
    case Some(conditions) => Some(SearchRequest(conditions, page, limit, Skip(page, limit)))
  }

  /** What the database did with a search: the page of products it returned
      and the number of all matches, or an exception. */
  datatype DbAnswer = Answered(products: seq<ProductDoc>, totalCount: nat) | Threw

  datatype SearchResults = SearchResults(products: seq<ProductDoc>, pagination: Pagination)

  /** The search route's `GET`: the database's page of products with the
      pagination fields, or 500 when anything throws, the condition builder
      included, in which case the database is never asked. */
  function SearchRoute(params: map<string, string>, validPattern: string -> bool, db: DbAnswer): (reply: Reply<SearchResults>)
    ensures ParseSearchParams(params, validPattern).None? ==> reply == Error(500, "Failed to search products")
    ensures db.Threw? ==> reply == Error(500, "Failed to search products")
    ensures reply.status == 200 <==> ParseSearchParams(params, validPattern).Some? && db.Answered?
    ensures reply.status == 200 ==>
      && reply.body.Payload?
      && reply.body.data.products == db.products
      && reply.body.data.pagination == Paginate(ParseSearchParams(params, validPattern).value.page,
                                                ParseSearchParams(params, validPattern).value.limit, db.totalCount)
  {
    match ParseSearchParams(params, validPattern)
    case None => Error(500, "Failed to search products")
    case Some(request) =>
      match db
      case Threw => Error(500, "Failed to search products")
      case Answered(products, totalCount) =>
        Ok(SearchResults(products, Paginate(request.page, request.limit, totalCount)))
  }

  /** The invalid-pattern 500 does not depend on the database: whatever it
      would have answered, a non-blank query the `RegExp` constructor rejects
      fails the search. */
  lemma InvalidPatternFailsSearch(params: map<string, string>, validPattern: string -> bool, db: DbAnswer)
    requires "q" in params && !Blank(params["q"]) && !validPattern(params["q"])
    ensures SearchRoute(params, validPattern, db) == Error(500, "Failed to search products")
  {
    assert params["q"] != "" by {
      if params["q"] == "" {
        assert Blank(params["q"]);
      }
    }
    assert ParamOr(params, "q", "") == params["q"];
  }

  // ---------------------------------------------------------------------
  // The server actions

  /** The arguments of `searchProducts`; `None` is an omitted argument. */
  datatype SearchArgs = SearchArgs(query: Option<string>, category: Option<string>,
                                   page: Option<real>, limit: Option<real>)

  /** What `searchProducts` asks the database for: omitted arguments default
      to an empty query, category `'all'`, page 1 and limit 12, and the
      conditions follow the same rules as the search route. `None` when
      building the conditions throws. */
  function SearchProductsRequest(args: SearchArgs, validPattern: string -> bool): (r: Option<SearchRequest>)
    ensures r.None? <==> !Blank(args.query.GetOr("")) && !validPattern(args.query.GetOr(""))
    ensures r.Some? ==>
      Some(r.value.conditions) == BuildConditions(args.query.GetOr(""), args.category.GetOr("all"), validPattern)
    ensures r.Some? ==> r.value.page == Finite(args.page.GetOr(1.0)) && r.value.limit == Finite(args.limit.GetOr(12.0))
    ensures r.Some? ==> r.value.skip == Finite((r.value.page.value - 1.0) * r.value.limit.value)
  {
    var page := Finite(args.page.GetOr(1.0));
    var limit := Finite(args.limit.GetOr(12.0));
    match BuildConditions(args.query.GetOr(""), args.category.GetOr("all"), validPattern)
    case None => None
    case Some(conditions) => Some(SearchRequest(conditions, page, limit, Skip(page, limit)))
  }

  /** `searchProducts`, given what the database did: the products with
      their pagination, or `None` when the promise rejects, because the
      `RegExp` constructor threw or because the database did. */
  function SearchProducts(args: SearchArgs, validPattern: string -> bool, db: DbAnswer): (r: Option<SearchResults>)
    ensures r.None? <==> (!Blank(args.query.GetOr("")) && !validPattern(args.query.GetOr(""))) || db.Threw?
    ensures r.Some? ==> r.value.products == db.products
    ensures r.Some? ==>
      r.value.pagination == Paginate(Finite(args.page.GetOr(1.0)), Finite(args.limit.GetOr(12.0)), db.totalCount)
  {
    match SearchProductsRequest(args, validPattern)
    case None => None
    case Some(request) =>
      match db
      case Threw => None
      case Answered(products, totalCount) =>
        Some(SearchResults(products, Paginate(request.page, request.limit, totalCount)))
  }

  /** The route and the action agree: a route request whose parameters are
      present, with page and limit the decimal text of natural numbers, asks
      for exactly what the action asks for when handed the same values, and
      both throw on the same queries. */
  lemma RouteMatchesAction(query: string, category: string, page: nat, limit: nat, validPattern: string -> bool)
    ensures var params := map["q" := query, "category" := category,
                              "page" := NatToString(page), "limit" := NatToString(limit)];
      ParseSearchParams(params, validPattern)
        == SearchProductsRequest(SearchArgs(Some(query), Some(category), Some(page as real), Some(limit as real)), validPattern)
  {
    RouteRequest(query, category, page, limit, validPattern);
    ActionRequest(query, category, page, limit, validPattern);
  }

  /** The request both sides build from the same values. */
  function RequestFor(query: string, category: string, page: nat, limit: nat, validPattern: string -> bool): Option<SearchRequest> {
    match BuildConditions(query, category, validPattern)
    case None => None
    case Some(c) =>
      Some(SearchRequest(c, Finite(page as real), Finite(limit as real),
                         Skip(Finite(page as real), Finite(limit as real))))
  }

  /** The route's side of `RouteMatchesAction`; an empty category reads as
      `'all'`, which builds the same conditions. */
  lemma RouteRequest(query: string, category: string, page: nat, limit: nat, validPattern: string -> bool)
    ensures var params := map["q" := query, "category" := category,
                              "page" := NatToString(page), "limit" := NatToString(limit)];
      ParseSearchParams(params, validPattern) == RequestFor(query, category, page, limit, validPattern)
  {
    var params := map["q" := query, "category" := category,
                      "page" := NatToString(page), "limit" := NatToString(limit)];
    assert params["q"] == query && params["category"] == category;
    assert params["page"] == NatToString(page) && params["limit"] == NatToString(limit);
    assert ParamOr(params, "q", "") == query;
    var cat := ParamOr(params, "category", "all");
    assert BuildConditions(query, cat, validPattern) == BuildConditions(query, category, validPattern) by {
      if category == "" {
        assert cat == "all";
      } else {
        assert cat == category;
      }
    }
  }

  /** The action's side of `RouteMatchesAction`. */
  lemma ActionRequest(query: string, category: string, page: nat, limit: nat, validPattern: string -> bool)
    ensures SearchProductsRequest(SearchArgs(Some(query), Some(category), Some(page as real), Some(limit as real)), validPattern)
      == RequestFor(query, category, page, limit, validPattern)
  {
  }

  /** The condition of `getRelatedProductsByCategory`: published, in the
      category, and not the product itself. */
  datatype RelatedConditions = RelatedConditions(isPublished: bool, category: string, excludedId: string)

  /** Whether a stored product satisfies related-product conditions. */
  predicate MatchesRelated(d: ProductDoc, c: RelatedConditions) {
    d.isPublished == c.isPublished && d.category == c.category && d.id != c.excludedId
  }

  /** The arguments of `getRelatedProductsByCategory`; `None` is omitted. */
  datatype RelatedArgs = RelatedArgs(category: string, productId: string,
                                     limit: Option<real>, page: Option<real>)

  datatype RelatedRequest = RelatedRequest(conditions: RelatedConditions, limit: Number, skip: Number)

  /** What `getRelatedProductsByCategory` asks the database for. The limit
      defaults to the application's page size, the page to 1. */
  function RelatedProductsRequest(args: RelatedArgs, pageSize: real): (r: RelatedRequest)
    ensures forall d :: MatchesRelated(d, r.conditions) <==>
      d.isPublished && d.category == args.category && d.id != args.productId
    ensures r.limit == Finite(args.limit.GetOr(pageSize))
    ensures r.skip == Finite((args.page.GetOr(1.0) - 1.0) * args.limit.GetOr(pageSize))
  {
    var limit := Finite(args.limit.GetOr(pageSize));
    RelatedRequest(RelatedConditions(true, args.category, args.productId),
                   limit, Skip(Finite(args.page.GetOr(1.0)), limit))
  }

  /** The product being viewed is never among its related products. */
  lemma RelatedExcludesProduct(args: RelatedArgs, pageSize: real, d: ProductDoc)
    requires d.id == args.productId
    ensures !MatchesRelated(d, RelatedProductsRequest(args, pageSize).conditions)
  {
  }

  datatype RelatedResults = RelatedResults(data: seq<ProductDoc>, totalPages: Number)

  /** `getRelatedProductsByCategory`, given the database's page of products and
      match count: the page count is `ceil(count / limit)`. */
  function RelatedProducts(args: RelatedArgs, pageSize: real, products: seq<ProductDoc>,
                           productsCount: nat): (r: RelatedResults)
    ensures r.data == products
    ensures r.totalPages == TotalPages(productsCount, Finite(args.limit.GetOr(pageSize)))
    ensures args.limit.GetOr(pageSize) > 0.0 ==>
      && r.totalPages.Finite?
      && (r.totalPages.value - 1.0) * args.limit.GetOr(pageSize) < productsCount as real
      && productsCount as real <= r.totalPages.value * args.limit.GetOr(pageSize)
  {
    var request := RelatedProductsRequest(args, pageSize);
    RelatedResults(products, TotalPages(productsCount, request.limit))
  }

  // ---------------------------------------------------------------------
  // Lookup by slug

  /** Whether a stored product is a published product with the slug. */
  predicate PublishedWithSlug(d: ProductDoc, slug: string) {
    d.slug == slug && d.isPublished
  }

  /** `findOne({ slug, isPublished: true })`: the first match in store order. */
  function FindBySlug(store: seq<ProductDoc>, slug: string): (r: Option<nat>)
    ensures r.Some? ==>
      && r.value < |store| && PublishedWithSlug(store[r.value], slug)
      && forall j :: 0 <= j < r.value ==> !PublishedWithSlug(store[j], slug)
    ensures r.None? ==> forall j :: 0 <= j < |store| ==> !PublishedWithSlug(store[j], slug)
  {
    if |store| == 0 then None
    else if PublishedWithSlug(store[0], slug) then Some(0)
    else match FindBySlug(store[1..], slug)
      case None => None
      case Some(k) => Some(k + 1)
  }

  /** `getProductBySlug`: the first published product with the slug, or the
      error "Product not found" exactly when there is none. */
  function GetProductBySlug(store: seq<ProductDoc>, slug: string): (r: Result<ProductDoc, string>)
    ensures r.Failure? <==> forall d :: d in store ==> !PublishedWithSlug(d, slug)
    ensures r.Failure? ==> r.error == "Product not found"
    ensures r.Success? ==> r.value in store && PublishedWithSlug(r.value, slug)
  {
    match FindBySlug(store, slug)
    case None => Failure("Product not found")
    case Some(k) => Success(store[k])
  }
}
